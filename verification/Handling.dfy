/** One request from arrival to its journal entry: the handler's claim on the fault plan, what becomes
    of the attempt it drew, and the order in which entry, bytes and aborts happen.  */
module Handling {
  import opened Text
  import opened Faults
  import opened Connections
  import Engine
  import opened Executor

  datatype Code =
    | UnknownFaultKey | AttemptOnRejection | AcceptedUnreachable | StreamAbortUnreachable
    | StreamGrammarMissing | RefusalEmptyBody | Unmatched | MethodNotAllowed | Other(name: string)

  datatype Finding = Finding(code: Code, error: bool)

  /** The scenario's own say over severities. */
  datatype ValidationPolicy = ValidationPolicy(strict: bool, promote: seq<Code>, demote: seq<Code>)

  predicate CountsAsError(policy: Option<ValidationPolicy>, f: Finding) {
    if policy.None? then f.error
    else
      var p := policy.value;
      f.code !in p.demote && (p.strict || f.code in p.promote || f.error)
  }

  predicate Fails(policy: Option<ValidationPolicy>, findings: seq<Finding>) {
    exists f :: f in findings && CountsAsError(policy, f)
  }

  predicate Has(findings: seq<Finding>, code: Code) { exists f :: f in findings && f.code == code }

  /** What a handler does besides answering: draw its call's number, raise findings, and note that it
      minted or cancelled something an accepted attempt can keep. */
  datatype Action = AskFault | Raise(finding: Finding) | KeepRecord

  /** All one request brings: what the engine would answer a claim, the findings raised before the
      handler runs, the handler's actions and response, and the body it is refused with. */
  datatype Visit = Visit(
    next: Engine.Decision, key: string, policy: Option<ValidationPolicy>, early: seq<Finding>,
    actions: seq<Action>, resp: Response, refusal: Bytes)

  /** A request for one route whose plan hands out one attempt. */
  function VisitFor(a: Attempt, resp: Response): Visit {
    Visit(Engine.Decision(Some(a), 0, "route", true, false), "route", None, [], [], resp, [])
  }

  /** The same request when its handler panics after n of its actions: whatever it raised and claimed
      stands, one more finding says so, and the profile's own 500 is the answer. */
  function Panicking(v: Visit, n: nat): Visit
    requires n <= |v.actions|
  {
    v.(actions := v.actions[..n] + [Raise(Finding(Other("handler.panic"), true))],
       resp := Response(500, v.refusal, None, "provider.panic", false, None))
  }

  /** The exchange's own fields. */
  datatype Held = Held(claimed: bool, decision: Engine.Decision, findings: seq<Finding>, recordable: bool)

  // ---- what each step decides ----

  function Fresh(v: Visit): Held { Held(false, Engine.Decision(None, -1, v.key, false, false), v.early, false) }

  function Claimed(v: Visit, h: Held): Held { if h.claimed then h else h.(claimed := true, decision := v.next) }

  function Raised(h: Held, code: Code, error: bool): Held { h.(findings := h.findings + [Finding(code, error)]) }

  function Act(v: Visit, h: Held, a: Action): Held {
    match a
    case AskFault => Claimed(v, h)
    case Raise(f) => h.(findings := h.findings + [f])
    case KeepRecord => h.(recordable := true)
  }

  function Acted(v: Visit, n: nat): Held
    requires n <= |v.actions|
  {
    if n == 0 then Fresh(v) else Act(v, Acted(v, n - 1), v.actions[n - 1])
  }

  predicate GrammarMissing(v: Visit) { v.resp.stream.Some? && v.resp.stream.value.grammar == "" }

  function Reply(v: Visit): Response {
    if GrammarMissing(v) then Response(500, v.refusal, None, "provider.stream_grammar_missing", false, None) else v.resp
  }

  function Answered(v: Visit): Held {
    var h := Acted(v, |v.actions|);
    if !GrammarMissing(v) then h
    else
      var failed := Raised(h, StreamGrammarMissing, true);
      if v.refusal == [] then Raised(failed, RefusalEmptyBody, false) else failed
  }

  predicate Eligible(v: Visit) { Reply(v).faultEligible && !Fails(v.policy, Answered(v).findings) }

  function Decided(v: Visit): Held {
    var h := Answered(v);
    if Eligible(v) then
      var asked := Claimed(v, h);
      if asked.decision.unknown then Raised(asked, UnknownFaultKey, false) else asked
    else if h.claimed && h.decision.index >= 0 then
      Raised(h.(decision := h.decision.(attempt := None)), AttemptOnRejection, false)
    else h
  }

  /** The attempt this request is to be faulted with, before it is known to fit the exchange. */
  function Drawn(v: Visit): Option<Attempt> { Decided(v).decision.attempt }

  predicate KeepsNothing(v: Visit) {
    Drawn(v).Some? && Drawn(v).value.accepted && !Decided(v).recordable
  }

  datatype Fit = Applies | Suppresses | CannotApply(asked: FaultLabel)

  /** Whether an attempt fits an exchange that will, or will not, stream. */
  function FitOf(a: Option<Attempt>, streams: bool): Fit {
    if a.None? then Applies
    else
      var kind := a.value.EffectiveKind();
      if streams && SuppressesStream(kind) then Suppresses
      else if streams && (kind.TruncateBody? || kind.OversizedBody?) then CannotApply(Scripted(kind))
      else if !streams && kind.IsStream() then CannotApply(Scripted(kind))
      else if streams && a.value.delayAfterHeaders > 0 then CannotApply(if kind.Unset? then Delayed else Scripted(kind))
      else Applies
  }

  function FitIn(v: Visit): Fit { FitOf(Drawn(v), Reply(v).stream.Some?) }

  function Applied(v: Visit): Option<Attempt> { if FitIn(v).CannotApply? then None else Drawn(v) }

  function Served(v: Visit): Response {
    var resp := Reply(v).(faultEligible := Eligible(v));
    if FitIn(v).Suppresses? then resp.(stream := None) else resp
  }

  function Settled(v: Visit): Held {
    var h := Decided(v);
    var kept := if KeepsNothing(v) then Raised(h, AcceptedUnreachable, true) else h;
    if FitIn(v).CannotApply? then Raised(kept, StreamAbortUnreachable, true) else kept
  }

  function Planned(w: World, v: Visit): Outcome {
    var out := OutcomeOf(w, Settled(v).decision.(attempt := Applied(v)), Served(v));
    var told := if FitIn(v).CannotApply? then out.(fault := FitIn(v).asked) else out;
    if Has(Settled(v).findings, Unmatched) || Has(Settled(v).findings, MethodNotAllowed)
    then told.(kind := UnmatchedOutcome) else told
  }

  function PreDelay(a: Option<Attempt>): int {
    if a.None? || a.value.EffectiveKind().StreamStall? then 0 else a.value.delay
  }

  /** The one aborting shape whose entry waits for a hang after headers. */
  predicate DefersAbort(a: Option<Attempt>) {
    a.Some? && a.value.delayAfterHeaders > 0 && a.value.EffectiveKind().TruncateBody?
  }

  /** The deferred end of every request. */
  function Ended(l: Log, out: Outcome, resp: Response): Log {
    var entered := Recorded(l, out);
    if resp.stream.Some? then Closed(entered, StreamClose(0, 0, ClientGone)) else entered
  }

  function Dispatched(w: World, l: Log, a: Option<Attempt>, resp: Response, out: Outcome): Log {
    var entered := if out.aborted && resp.stream.None? && !DefersAbort(a) then Recorded(l, out) else l;
    var r := Performed(w, entered, a, resp, out);
    Ended(r.log, r.out, resp)
  }

  function Started(v: Visit): Log { if Decided(v).claimed then Emit(START, Claim) else START }

  function Carried(w: World, l: Log, a: Option<Attempt>, resp: Response, out: Outcome): Log {
    var entered := if resp.stream.Some? then Recorded(l, out) else l;
    var waited := Slept(w, entered, PreDelay(a));
    if Gone(w, entered, PreDelay(a)) then
      Ended(waited, out.(aborted := out.aborted || resp.stream.None?, written := 0), resp)
    else Dispatched(w, waited, a, resp, out)
  }

  /** Everything a request leaves behind. */
  function Handled(w: World, v: Visit): Log {
    Carried(w, Started(v), Applied(v), Served(v), Planned(w, v))
  }

  // ---- the lifecycle ----

  class Exchange {
    const visit: Visit
    var claimed: bool
    var decision: Engine.Decision
    var findings: seq<Finding>
    var recordable: bool

    constructor (visit: Visit)
      ensures this.visit == visit && Now() == Fresh(visit)
    {
      this.visit := visit;
      claimed, recordable, findings := false, false, visit.early;
      decision := Engine.Decision(None, -1, visit.key, false, false);
    }

    function Now(): Held
      reads this
    {
      Held(claimed, decision, findings, recordable)
    }

    /** The claim, once, whoever asks first. */
    method Fault(c: Connection) returns (d: Engine.Decision)
      modifies this, c
      ensures Now() == Claimed(visit, old(Now())) && d == decision
      ensures c.Now() == if old(claimed) then old(c.Now()) else Emit(old(c.Now()), Claim)
    {
      if !claimed {
        claimed := true;
        decision := visit.next;
        c.Note(Claim);
      }
      return decision;
    }

    method Add(code: Code, error: bool)
      modifies this
      ensures Now() == Raised(old(Now()), code, error)
    {
      findings := findings + [Finding(code, error)];
    }

    method RunHandler(c: Connection) returns (resp: Response)
      requires Now() == Fresh(visit) && c.Now() == START
      modifies this, c
      ensures Now() == Answered(visit) && resp == Reply(visit)
      ensures c.Now() == if claimed then Emit(START, Claim) else START
    {
      for n := 0 to |visit.actions|
        invariant Now() == Acted(visit, n)
        invariant c.Now() == if claimed then Emit(START, Claim) else START
      {
        match visit.actions[n]
        case AskFault => var d := Fault(c);
        case Raise(f) => findings := findings + [f];
        case KeepRecord => recordable := true;
      }
      resp := visit.resp;
      if resp.stream.Some? && resp.stream.value.grammar == "" {
        Add(StreamGrammarMissing, true);
        if visit.refusal == [] { Add(RefusalEmptyBody, false); }
        resp := Response(500, visit.refusal, None, "provider.stream_grammar_missing", false, None);
      }
    }

    /** Claims an attempt for an eligible request, and takes back what any other request claimed. */
    method Decide(c: Connection, answer: Response) returns (resp: Response)
      requires Now() == Answered(visit) && answer == Reply(visit)
      requires c.Now() == if claimed then Emit(START, Claim) else START
      modifies this, c
      ensures Now() == Decided(visit) && c.Now() == Started(visit)
      ensures resp == Reply(visit).(faultEligible := Eligible(visit))
    {
      hide Answered, Reply, Fails;
      resp := answer;
      if Fails(visit.policy, findings) { resp := resp.(faultEligible := false); }
      if resp.faultEligible {
        var d := Fault(c);
        if d.unknown { Add(UnknownFaultKey, false); }
      } else if claimed && decision.index >= 0 {
        decision := decision.(attempt := None);
        Add(AttemptOnRejection, false);
      }
    }

    /** Drops an attempt from an exchange it cannot apply to, or the stream an attempt suppresses. */
    method Settle(c: Connection, answer: Response) returns (attempt: Option<Attempt>, resp: Response, fit: Fit)
      requires Now() == Answered(visit) && answer == Reply(visit)
      requires c.Now() == if claimed then Emit(START, Claim) else START
      modifies this, c
      ensures Now() == Settled(visit)
      ensures attempt == Applied(visit) && resp == Served(visit) && fit == FitIn(visit)
      ensures c.Now() == Started(visit)
    {
      hide Answered, Reply, FitOf, Decided, Eligible, Started;
      resp := Decide(c, answer);
      attempt := decision.attempt;
      if attempt.Some? && attempt.value.accepted && !recordable { Add(AcceptedUnreachable, true); }
      fit := FitOf(attempt, resp.stream.Some?);
      match fit
      case Suppresses => resp := resp.(stream := None);
      case CannotApply(_) =>
        Add(StreamAbortUnreachable, true);
        attempt := None;
      case Applies =>
    }

    method Handle(c: Connection)
      requires Now() == Fresh(visit) && c.Now() == START
      modifies this, c
      ensures Now() == Settled(visit) && c.Now() == Handled(c.world, visit)
    {
      hide Settled, Applied, Served, FitIn, Started, OutcomeOf, Performed, Recorded, Closed, Slept, Gone;
      var answer := RunHandler(c);
      var attempt, resp, fit := Settle(c, answer);
      var out := OutcomeOf(c.world, decision.(attempt := attempt), resp);
      if fit.CannotApply? { out := out.(fault := fit.asked); }
      if Has(findings, Unmatched) || Has(findings, MethodNotAllowed) { out := out.(kind := UnmatchedOutcome); }
      if resp.stream.Some? { c.Record(out); }
      var gone := c.Sleep(PreDelay(attempt));
      if gone {
        out := out.(aborted := out.aborted || resp.stream.None?, written := 0);
      } else {
        if out.aborted && resp.stream.None? && !DefersAbort(attempt) { c.Record(out); }
        var panicked;
        out, panicked := Execute(c, attempt, resp, out);
      }
      c.Record(out);
      if resp.stream.Some? { c.Closer(StreamClose(0, 0, ClientGone)); }
    }
  }
}
