/** Scripted fault attempts, what each one does to a response body, and the run-length plans a route
    draws them from.  */
module Faults {
  import opened Text

  datatype Kind =
    | Unset | Status | CloseBeforeHeaders | TruncateBody | InvalidJSON | WrongContentType | EmptyBody
    | ExtraFields | OversizedBody | StreamDisconnect | StreamTruncateChunk | StreamStall
    | Unknown(name: string)
  {
    predicate IsStream() { StreamDisconnect? || StreamTruncateChunk? || StreamStall? }
  }

  type Bytes = seq<char>

  /** A declared body override: whether it has any key, and what it marshals to when it does marshal. */
  datatype Override = Override(declared: bool, marshalled: Option<Bytes>)

  datatype Attempt = Attempt(
    kind: Kind, status: int, delay: int, delayAfterHeaders: int, body: Override,
    rawBody: Bytes, contentType: string, truncateAfterBytes: int, reset: bool, bodyBytes: int,
    afterChunk: int, extraFields: map<string, string>, accepted: bool, repeat: int)
  {
    /** The kind with the documented inference applied. */
    function EffectiveKind(): Kind {
      if kind != Unset then kind
      else if rawBody != "" then InvalidJSON
      else if contentType != "" then WrongContentType
      else if truncateAfterBytes > 0 || reset then TruncateBody
      else if bodyBytes > 0 then OversizedBody
      else if status >= 400 then Status
      else Unset
    }

    /** Whether the client of a non-streaming exchange still receives the handler's body: the
        prediction made before anything is rendered. */
    predicate DeliversBody() {
      match EffectiveKind()
      case Unset | Status | WrongContentType | ExtraFields | OversizedBody =>
        !body.declared && status < 400 && !WritesNoBody(status)
      case StreamDisconnect | StreamTruncateChunk | StreamStall => true
      case InvalidJSON | EmptyBody | TruncateBody | CloseBeforeHeaders => false
      case Unknown(_) => false
    }

    function Repeats(): nat { if repeat < 1 then 1 else repeat }
  }

  /** An attempt that asks for nothing. */
  const PLAIN := Attempt(Unset, 0, 0, 0, Override(false, None), [], "", 0, false, 0, 0, map[], false, 1)

  /** Kinds a vendor answers with an ordinary JSON body before a stream would start. */
  predicate SuppressesStream(kind: Kind) {
    kind.Status? || kind.InvalidJSON? || kind.WrongContentType? || kind.EmptyBody? || kind.ExtraFields?
    || kind.CloseBeforeHeaders?
  }

  /** What an attempt without a kind may carry, and the kind each is taken for, the telling one first. */
  function Clues(a: Attempt): seq<(bool, Kind)> {
    [(a.rawBody != "", InvalidJSON), (a.contentType != "", WrongContentType),
     (a.truncateAfterBytes > 0 || a.reset, TruncateBody), (a.bodyBytes > 0, OversizedBody), (a.status >= 400, Status)]
  }

  /** A declared kind stands; otherwise the first clue decides, and none leaves the attempt without a kind. */
  lemma KindsAreInferredInOrder(a: Attempt)
    ensures a.kind != Unset ==> a.EffectiveKind() == a.kind
    ensures a.kind == Unset ==>
      forall i | 0 <= i < |Clues(a)| && Clues(a)[i].0 && (forall j | 0 <= j < i :: !Clues(a)[j].0) ::
        a.EffectiveKind() == Clues(a)[i].1
    ensures a.kind == Unset && (forall i | 0 <= i < |Clues(a)| :: !Clues(a)[i].0) ==> a.EffectiveKind() == Unset
  {
    var clues := Clues(a);
    assert clues[0].0 == (a.rawBody != "") && clues[1].0 == (a.contentType != "");
    assert clues[2].0 == (a.truncateAfterBytes > 0 || a.reset);
    assert clues[3].0 == (a.bodyBytes > 0) && clues[4].0 == (a.status >= 400);
  }

  predicate WritesNoBody(status: int) { status == 101 || status == 204 || status == 304 }

  /** Whether a create under this decision keeps the job it mints. */
  predicate Commits(attempt: Option<Attempt>) {
    attempt.None? || attempt.value.DeliversBody() || attempt.value.accepted
  }

  // ---- plans ----

  datatype After = Success | RepeatLast

  datatype Fault = Fault(attempts: seq<Attempt>, after: After)

  datatype Plan = Plan(attempts: seq<Attempt>, after: After) {
    /** The attempt serving a zero-based index, if any. */
    function At(i: int): Option<Attempt> {
      if i < 0 || |attempts| == 0 then None
      else if i < |attempts| then Some(attempts[i])
      else if after.RepeatLast? then Some(attempts[|attempts| - 1])
      else None
    }
  }

  function TotalRepeats(attempts: seq<Attempt>): nat {
    if attempts == [] then 0 else attempts[0].Repeats() + TotalRepeats(attempts[1..])
  }

  /** How many indexes the first k entries of a run-length plan cover. */
  function Covered(attempts: seq<Attempt>, k: nat): nat
    requires k <= |attempts|
  {
    TotalRepeats(attempts[..k])
  }

  lemma {:induction false} TotalAppend(attempts: seq<Attempt>, a: Attempt)
    ensures TotalRepeats(attempts + [a]) == TotalRepeats(attempts) + a.Repeats()
  {
    if attempts == [] {
      assert [a][1..] == [];
    } else {
      assert (attempts + [a])[1..] == attempts[1..] + [a];
      TotalAppend(attempts[1..], a);
    }
  }

  lemma CoveredNext(attempts: seq<Attempt>, k: nat)
    requires k < |attempts|
    ensures Covered(attempts, k + 1) == Covered(attempts, k) + attempts[k].Repeats()
  {
    assert attempts[..k + 1] == attempts[..k] + [attempts[k]];
    TotalAppend(attempts[..k], attempts[k]);
  }

  /** Index i belongs to the entry whose cumulative interval contains it. */
  predicate Owns(attempts: seq<Attempt>, k: nat, i: int) {
    k < |attempts| && Covered(attempts, k) <= i < Covered(attempts, k + 1)
  }

  /** The flat plan of a run-length one: every index holds the attempt whose interval contains it. */
  ghost predicate Expands(flat: seq<Attempt>, attempts: seq<Attempt>) {
    && |flat| == TotalRepeats(attempts)
    && forall k: nat, i: nat | i < |flat| && Owns(attempts, k, i) :: flat[i] == attempts[k]
  }

  /** Flattens repeats into consecutive attempts, once, so a request only indexes. */
  method ExpandFault(fault: Option<Fault>) returns (p: Plan)
    ensures fault.None? ==> p == Plan([], Success)
    ensures fault.Some? ==> p.after == fault.value.after && Expands(p.attempts, fault.value.attempts)
  {
    if fault.None? { return Plan([], Success); }
    var attempts := fault.value.attempts;
    var flat: seq<Attempt> := [];
    for n := 0 to |attempts|
      invariant |flat| == Covered(attempts, n)
      invariant forall k: nat, i: nat | k < n && i < |flat| && Owns(attempts, k, i) :: flat[i] == attempts[k]
    {
      CoveredNext(attempts, n);
      forall k: nat, i: nat | k < n && Owns(attempts, k, i) ensures i < Covered(attempts, n) {
        CoveredRises(attempts, k + 1, n);
      }
      for r := 0 to attempts[n].Repeats()
        invariant |flat| == Covered(attempts, n) + r
        invariant forall k: nat, i: nat | k < n && i < |flat| && Owns(attempts, k, i) :: flat[i] == attempts[k]
        invariant forall i | Covered(attempts, n) <= i < |flat| :: flat[i] == attempts[n]
      {
        flat := flat + [attempts[n]];
      }
    }
    assert attempts[..|attempts|] == attempts;
    return Plan(flat, fault.value.after);
  }

  lemma {:induction false} CoveredRises(attempts: seq<Attempt>, k: nat, n: nat)
    requires k <= n <= |attempts|
    ensures Covered(attempts, k) + (n - k) <= Covered(attempts, n)
    decreases n - k
  {
    if k < n {
      CoveredNext(attempts, k);
      CoveredRises(attempts, k + 1, n);
    }
  }

  /** Every index of a run-length plan has exactly one owner. */
  lemma {:induction false} OwnerExists(attempts: seq<Attempt>, i: nat, n: nat) returns (k: nat)
    requires n <= |attempts| && i < Covered(attempts, n)
    ensures k < n && Owns(attempts, k, i)
  {
    CoveredNext(attempts, n - 1);
    if i >= Covered(attempts, n - 1) { k := n - 1; } else { k := OwnerExists(attempts, i, n - 1); }
  }

  lemma OwnerIsUnique(attempts: seq<Attempt>, i: nat, k: nat, m: nat)
    requires Owns(attempts, k, i) && Owns(attempts, m, i)
    ensures k == m
  {
    if k < m { CoveredRises(attempts, k + 1, m); }
    if m < k { CoveredRises(attempts, m + 1, k); }
  }

  /** The flat plan answers every index, in range or not, as the run-length plan prescribes. */
  lemma PlanAgreesWithRunLength(flat: Plan, fault: Fault, i: int)
    requires flat.after == fault.after && Expands(flat.attempts, fault.attempts)
    ensures 0 <= i < TotalRepeats(fault.attempts) <==> exists k: nat :: Owns(fault.attempts, k, i)
    ensures forall k: nat | Owns(fault.attempts, k, i) :: flat.At(i) == Some(fault.attempts[k])
    ensures i < 0 || fault.attempts == [] ==> flat.At(i) == None
    ensures i >= TotalRepeats(fault.attempts) && fault.attempts != [] ==>
      flat.At(i) == if fault.after.RepeatLast? then Some(fault.attempts[|fault.attempts| - 1]) else None
  {
    var attempts := fault.attempts;
    assert attempts[..|attempts|] == attempts;
    if 0 <= i < TotalRepeats(attempts) { var k := OwnerExists(attempts, i, |attempts|); }
    forall k: nat | Owns(attempts, k, i) ensures 0 <= i < TotalRepeats(attempts) {
      CoveredRises(attempts, k + 1, |attempts|);
    }
    if attempts != [] {
      var last := |attempts| - 1;
      CoveredNext(attempts, last);
      assert Owns(attempts, last, TotalRepeats(attempts) - 1);
    }
  }

  /** Every attempt a flat plan can hand out is one the run-length plan declares. */
  lemma PlannedAttemptsAreDeclared(flat: Plan, fault: Fault, i: int)
    requires flat.after == fault.after && Expands(flat.attempts, fault.attempts)
    ensures flat.At(i).Some? ==> flat.At(i).value in fault.attempts
  {
    PlanAgreesWithRunLength(flat, fault, i);
    if 0 <= i < TotalRepeats(fault.attempts) {
      var k: nat :| Owns(fault.attempts, k, i);
    }
  }
}
