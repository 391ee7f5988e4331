/** What every entry says was asked for: of the attempt drawn, the delays, the status and the stream.  */
module Journal {
  import opened Text
  import opened Faults
  import opened Connections
  import opened Streams
  import Engine
  import opened Executor
  import opened Handling
  import opened Entries
  import opened Replies
  import opened StreamReplies
  import opened Rejections

  /** The planned half of a streamed entry, from the attempt it is served under and the script. */
  predicate TellsPlan(a: Option<Attempt>, s: Stream, told: StreamOutcome) {
    var cuts :=
      a.Some? && a.value.afterChunk >= 0 && a.value.EffectiveKind() in {StreamDisconnect, StreamTruncateChunk};
    var truncates := cuts && a.value.EffectiveKind().StreamTruncateChunk?;
    var stalls := a.Some? && a.value.EffectiveKind().StreamStall? && a.value.afterChunk >= 0;
    && told.chunkCount == |s.chunks| && told.bytesPlanned == |s.Whole()|
    && |told.paces| == |s.chunks| && (forall i | 0 <= i < |s.chunks| :: told.paces[i] == PaceAt(a, s, i))
    && (told.terminalIndex == -1 ==> forall i | 0 <= i < |s.chunks| :: !s.chunks[i].terminal)
    && (told.terminalIndex != -1 ==>
         && 0 <= told.terminalIndex < |s.chunks| && s.chunks[told.terminalIndex].terminal
         && forall i | 0 <= i < told.terminalIndex :: !s.chunks[i].terminal)
    && told.abortAfterChunk == (if cuts then Some(a.value.afterChunk) else None)
    && told.truncatedAtByte == (if !truncates then None
         else if a.value.afterChunk < |s.chunks| then Some(|Prefix(a.value, s.chunks[a.value.afterChunk].bytes)|)
         else Some(0))
    && told.stallBefore == (if stalls then Some(a.value.delay) else None)
    && told.sent == 0 && told.state == Opened
  }

  lemma PlansAreTold(a: Option<Attempt>, s: Stream)
    ensures TellsPlan(a, s, PlannedOutcome(a, s))
  {
    var p := PlanStream(a, s);
    forall i | 0 <= i < |s.chunks| ensures Paces(p)[i] == PaceAt(a, s, i) {}
    assert forall i | 0 <= i < |s.chunks| :: s.chunks[i].terminal ==> FirstTerminal(s.chunks, 0) != -1;
  }

  /** The label of a drawn attempt: its kind, or a mere delay. */
  function Label(a: Attempt): FaultLabel {
    if a.EffectiveKind() != Unset then Scripted(a.EffectiveKind())
    else if a.delay > 0 || a.delayAfterHeaders > 0 then Delayed
    else Unfaulted
  }

  /** All an entry says but for what the wire decides. */
  predicate Tells(v: Visit, e: Outcome) {
    var a, r := Serving(v), Reply(v);
    var misrouted := exists f :: f in Settled(v).findings && f.code in {Unmatched, MethodNotAllowed};
    var faulted := a.Some? && Label(a.value) != Unfaulted;
    var claimed := Eligible(v) || AskFault in v.actions;
    && e.kind == (if misrouted then UnmatchedOutcome else if faulted then FaultOutcome
                  else if Eligible(v) then ScenarioOutcome else ErrorOutcome)
    && e.selection == r.selection
    && e.status == (if a.None? || a.value.EffectiveKind() == Unset then r.status
                    else if a.value.EffectiveKind() == CloseBeforeHeaders then 0
                    else if a.value.status > 0 then a.value.status else r.status)
    && e.faultKey == (if claimed then v.next.key else v.key)
    && e.attemptIndex == (if claimed then v.next.index else -1)
    && e.fault == (if Drawn(v).Some? then Label(Drawn(v).value) else Unfaulted)
    && e.delay == (if a.None? || a.value.EffectiveKind() == StreamStall then 0 else a.value.delay)
    && e.delayAfterHeaders == (if a.None? then 0 else a.value.delayAfterHeaders)
    && (e.stream.Some? <==> WillStream(v))
    && (e.stream.Some? ==> TellsPlan(a, r.stream.value, e.stream.value))
  }

  lemma PlannedLabels(w: World, v: Visit)
    ensures
      var e, r := Planned(w, v), Reply(v);
      && e.fault == (if Drawn(v).Some? then Label(Drawn(v).value) else Unfaulted)
      && e.selection == r.selection
      && e.faultKey == Settled(v).decision.key && e.attemptIndex == Settled(v).decision.index
  {
    hide Decided, Reply, Eligible, FaultBody, PlannedOutcome, Has;
  }

  lemma PlannedDelays(w: World, v: Visit)
    ensures
      var e, a := Planned(w, v), Serving(v);
      && e.delay == (if a.None? || a.value.EffectiveKind() == StreamStall then 0 else a.value.delay)
      && e.delayAfterHeaders == (if a.None? then 0 else a.value.delayAfterHeaders)
  {
    hide Settled, Applied, Served, Serving, FitIn, FaultBody, PlannedOutcome, Has;
    ServingIsApplied(v);
  }

  lemma PlannedStatusAndKind(w: World, v: Visit)
    ensures
      var e, a, r := Planned(w, v), Serving(v), Reply(v);
      && e.status == (if a.None? || a.value.EffectiveKind() == Unset then r.status
                      else if a.value.EffectiveKind() == CloseBeforeHeaders then 0
                      else if a.value.status > 0 then a.value.status else r.status)
      && e.kind == (if Has(Settled(v).findings, Unmatched) || Has(Settled(v).findings, MethodNotAllowed)
                    then UnmatchedOutcome
                    else if a.Some? && Label(a.value) != Unfaulted then FaultOutcome
                    else if Eligible(v) then ScenarioOutcome else ErrorOutcome)
  {
    hide Decided, Reply, Eligible, FaultBody, PlannedOutcome, Has;
  }

  lemma PlannedStreams(w: World, v: Visit)
    ensures
      var e := Planned(w, v);
      && (e.stream.Some? <==> WillStream(v))
      && (e.stream.Some? ==> e.stream.value == PlannedOutcome(Serving(v), Reply(v).stream.value))
  {
    hide Decided, Reply, Eligible, FaultBody, PlannedOutcome, Has;
  }

  lemma MisroutedIs(findings: seq<Finding>)
    ensures Has(findings, Unmatched) || Has(findings, MethodNotAllowed) <==>
      exists f :: f in findings && f.code in {Unmatched, MethodNotAllowed}
  {
  }

  lemma PlannedTells(w: World, v: Visit)
    requires Promised(v.next)
    ensures Tells(v, Planned(w, v))
  {
    hide Settled, Serving, Reply, Eligible, Planned, Drawn, Label, PlannedOutcome, TellsPlan;
    PlannedLabels(w, v);
    PlannedDelays(w, v);
    PlannedStatusAndKind(w, v);
    PlannedStreams(w, v);
    MisroutedIs(Settled(v).findings);
    ClaimsAreNamed(v);
    if WillStream(v) { PlansAreTold(Serving(v), Reply(v).stream.value); }
  }

  lemma ClaimsAreNamed(v: Visit)
    ensures var d, claimed := Settled(v).decision, Eligible(v) || AskFault in v.actions;
      d.key == (if claimed then v.next.key else v.key) && d.index == if claimed then v.next.index else -1
  {
    hide Reply, Eligible, Answered, Fails;
    HandlersDecideByTheirActions(v);
    AnsweredDecision(v);
  }

  /** Whatever its client does, a request's one entry says what was asked for: whose outcome it was, the
      handler's selection, the status as the attempt changes it, the key and index drawn on, the kind drawn
      even where it could not apply, its delays where it did, and the plan of the stream being served. Only
      the abort and the byte count are told by the wire. */
  lemma EntriesTellWhatWasAsked(w: World, v: Visit)
    requires Promised(v.next)
    ensures EntryOf(Handled(w, v).trace).Some? && Tells(v, EntryOf(Handled(w, v).trace).value)
  {
    hide Handled, Planned, Tells, EntryOf, Served, Serving;
    PlannedTells(w, v);
    ServingIsApplied(v);
    if Served(v).stream.Some? {
      var l := StreamedStory(w, v);
    } else {
      OrdinaryEntriesTellTheTruth(w, v);
      var out := EntryOf(Handled(w, v).trace).value;
      TellsIgnoresTheWire(v, Planned(w, v), out);
    }
  }

  lemma TellsIgnoresTheWire(v: Visit, planned: Outcome, e: Outcome)
    requires Tells(v, planned) && e.(aborted := planned.aborted, written := planned.written) == planned
    ensures Tells(v, e)
  {
    hide Settled, Serving, Reply, Eligible, Drawn, Label, WillStream, TellsPlan;
  }

  /** Every finding of a request, in order: those from before and from the handler; then that the engine did
      not know its key, or that it gave an attempt back; then that an accepted attempt has nothing to keep;
      then that an attempt cannot apply here. */
  lemma FindingsAreRaisedInOrder(v: Visit)
    requires Promised(v.next)
    ensures Settled(v).findings == Answered(v).findings
      + (if Eligible(v) && v.next.unknown then [Finding(UnknownFaultKey, false)] else [])
      + (if !Eligible(v) && AskFault in v.actions && v.next.index >= 0
         then [Finding(AttemptOnRejection, false)] else [])
      + (if Drawn(v).Some? && Drawn(v).value.accepted && KeepRecord !in v.actions
         then [Finding(AcceptedUnreachable, true)] else [])
      + (if Drawn(v).Some? && Serving(v).None? then [Finding(StreamAbortUnreachable, true)] else [])
  {
    hide Answered, Reply, Eligible, Fails;
    HandlersDecideByTheirActions(v);
    AnsweredDecision(v);
  }
}
