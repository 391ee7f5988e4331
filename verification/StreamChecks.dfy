/** The load-time check that an entry's fault plan can apply to the streams its turns will serve, and
    what an entry that passes it is guaranteed at run time.  */
module StreamChecks {
  import opened Text
  import opened Faults

  datatype Policy = Unstated | Warn | Reject | Serve

  datatype Script = Script(policy: Policy, deltas: seq<string>) {
    function EffectivePolicy(): Policy {
      if policy != Unstated then policy else if deltas != [] then Serve else Warn
    }
  }

  /** One turn's streaming state: its script, if any, and the provider's own chunk count, if it has
      one. */
  datatype StreamTurn = StreamTurn(script: Option<Script>, chunkCount: int) {
    /** How many chunks the turn will produce. */
    function Chunks(): nat {
      if chunkCount > 0 then chunkCount
      else if script.None? then 1
      else |script.value.deltas| + 1
    }
  }

  /** The policy an entry is judged under: its first turn's. */
  function EntryPolicy(turns: seq<StreamTurn>): Policy {
    if turns == [] then Unstated
    else if turns[0].script.None? then Warn
    else turns[0].script.value.EffectivePolicy()
  }

  /** A turn's stream is as long as its provider says, and otherwise its deltas and a terminal chunk, which
      a turn that declares nothing has too. */
  lemma TurnsHaveChunks(t: StreamTurn)
    ensures t.Chunks() >= 1
    ensures t.chunkCount > 0 ==> t.Chunks() == t.chunkCount
    ensures t.chunkCount <= 0 ==> t.Chunks() - 1 == if t.script.Some? then |t.script.value.deltas| else 0
  {
  }

  /** An entry streams exactly when its first turn's script says so, or says nothing and has deltas. */
  lemma EntriesStreamByTheirFirstTurn(turns: seq<StreamTurn>)
    ensures EntryPolicy(turns).Serve? <==>
      && turns != [] && turns[0].script.Some?
      && var s := turns[0].script.value; s.policy == Serve || (s.policy == Unstated && |s.deltas| > 0)
  {
  }

  predicate DeclaresAttempts(f: Option<Fault>) { f.Some? && f.value.attempts != [] }

  predicate FirstToDeclare(faults: seq<Option<Fault>>, i: nat) {
    i < |faults| && DeclaresAttempts(faults[i]) && forall j | 0 <= j < i :: !DeclaresAttempts(faults[j])
  }

  /** The plan a route draws on: the first turn's that declares any attempt. */
  function TurnFault(faults: seq<Option<Fault>>): (f: Option<Fault>)
    ensures f.None? ==> forall g | g in faults :: !DeclaresAttempts(g)
    ensures forall i: nat | FirstToDeclare(faults, i) :: f == faults[i]
    ensures f.Some? ==> f in faults && DeclaresAttempts(f)
  {
    if faults == [] then None
    else if DeclaresAttempts(faults[0]) then faults[0]
    else
      assert forall i: nat | FirstToDeclare(faults, i) :: i > 0 && FirstToDeclare(faults[1..], i - 1);
      TurnFault(faults[1..])
  }

  // ---- the check ----

  datatype Code = Mismatch | AfterChunkOutOfRange

  datatype Finding = Finding(turn: nat, attempt: nat, code: Code)

  /** The finding one attempt raises, if any; minChunks is -1 when no turn is known. */
  function Judge(a: Attempt, policy: Policy, minChunks: int): Option<Code> {
    var kind := a.EffectiveKind();
    if kind.TruncateBody? && policy.Serve? then Some(Mismatch)
    else if kind.OversizedBody? && policy.Serve? then Some(Mismatch)
    else if kind.IsStream() && !policy.Serve? then Some(Mismatch)
    else if kind.IsStream() && policy.Serve? then
      if minChunks >= 0 && !(0 <= a.afterChunk < minChunks) then Some(AfterChunkOutOfRange) else None
    else if a.delayAfterHeaders > 0 && policy.Serve? && !SuppressesStream(kind) then Some(Mismatch)
    else None
  }

  /** The smallest chunk count of any turn, or -1 without turns. */
  ghost predicate IsMinimum(m: int, turns: seq<StreamTurn>) {
    && (turns == [] ==> m == -1)
    && (turns != [] ==> (forall t | t in turns :: m <= t.Chunks()) && exists t :: t in turns && m == t.Chunks())
  }

  predicate Reported(f: Finding, faults: seq<Option<Fault>>, policy: Policy, m: int) {
    && f.turn < |faults| && faults[f.turn].Some?
    && f.attempt < |faults[f.turn].value.attempts|
    && Judge(faults[f.turn].value.attempts[f.attempt], policy, m) == Some(f.code)
  }

  predicate Earlier(f: Finding, g: Finding) {
    f.turn < g.turn || (f.turn == g.turn && f.attempt < g.attempt)
  }

  predicate InOrder(fs: seq<Finding>) { forall i, j | 0 <= i < j < |fs| :: Earlier(fs[i], fs[j]) }

  method MinChunks(turns: seq<StreamTurn>) returns (m: int)
    ensures IsMinimum(m, turns)
  {
    m := -1;
    for i := 0 to |turns|
      invariant IsMinimum(m, turns[..i])
    {
      assert turns[..i + 1] == turns[..i] + [turns[i]];
      var n := turns[i].Chunks();
      if m < 0 || n < m {
        m := n;
        assert turns[i] in turns[..i + 1];
      }
    }
    assert turns[..|turns|] == turns;
  }

  /** Judges every attempt of every turn's plan against the entry's effective policy and the smallest
      chunk count any turn produces: exactly the mismatches, once each, in declaration order. */
  method ValidateStreamFaultMismatch(faults: seq<Option<Fault>>, policy: Policy, turns: seq<StreamTurn>)
    returns (findings: seq<Finding>)
    ensures InOrder(findings)
    ensures forall m: int, f: Finding | IsMinimum(m, turns) :: f in findings <==> Reported(f, faults, policy, m)
  {
    hide Judge, Reported, Earlier, Exactly;
    var m := MinChunks(turns);
    findings := [];
    NothingYet(faults, policy, m);
    for i := 0 to |faults|
      invariant Exactly(findings, faults, policy, m, i, 0)
    {
      if faults[i].Some? {
        var attempts := faults[i].value.attempts;
        for j := 0 to |attempts|
          invariant Exactly(findings, faults, policy, m, i, j)
        {
          var code := Judge(attempts[j], policy, m);
          OneMore(findings, faults, policy, m, i, j);
          if code.Some? { findings := findings + [Finding(i, j, code.value)]; }
        }
      }
      NextTurn(findings, faults, policy, m, i, if faults[i].Some? then |faults[i].value.attempts| else 0);
    }
    AllTurns(findings, faults, policy, m);
    forall n: int | IsMinimum(n, turns) ensures n == m { MinimumIsUnique(m, n, turns); }
  }

  /** Exactly the reported attempts before one place, in order. */
  ghost predicate Exactly(fs: seq<Finding>, faults: seq<Option<Fault>>, policy: Policy, m: int, i: nat, j: nat) {
    && InOrder(fs)
    && forall f: Finding :: f in fs <==> Earlier(f, Finding(i, j, Mismatch)) && Reported(f, faults, policy, m)
  }

  lemma NothingYet(faults: seq<Option<Fault>>, policy: Policy, m: int)
    ensures Exactly([], faults, policy, m, 0, 0)
  {
  }

  lemma OneMore(fs: seq<Finding>, faults: seq<Option<Fault>>, policy: Policy, m: int, i: nat, j: nat)
    requires Exactly(fs, faults, policy, m, i, j) && i < |faults| && faults[i].Some? && j < |faults[i].value.attempts|
    ensures var code := Judge(faults[i].value.attempts[j], policy, m);
      Exactly(if code.Some? then fs + [Finding(i, j, code.value)] else fs, faults, policy, m, i, j + 1)
  {
    hide Judge;
    var code := Judge(faults[i].value.attempts[j], policy, m);
    var next := if code.Some? then fs + [Finding(i, j, code.value)] else fs;
    forall f: Finding
      ensures f in next <==> Earlier(f, Finding(i, j + 1, Mismatch)) && Reported(f, faults, policy, m)
    {
      assert f in next <==> f in fs || (code.Some? && f == Finding(i, j, code.value));
      if f.turn == i && f.attempt == j {
        assert Reported(f, faults, policy, m) <==> code == Some(f.code);
        assert f !in fs;
      } else {
        assert Earlier(f, Finding(i, j + 1, Mismatch)) <==> Earlier(f, Finding(i, j, Mismatch));
      }
    }
    assert forall k | 0 <= k < |fs| :: fs[k] in fs;
  }

  lemma NextTurn(fs: seq<Finding>, faults: seq<Option<Fault>>, policy: Policy, m: int, i: nat, n: nat)
    requires Exactly(fs, faults, policy, m, i, n) && i < |faults|
    requires n == if faults[i].Some? then |faults[i].value.attempts| else 0
    ensures Exactly(fs, faults, policy, m, i + 1, 0)
  {
    hide Judge;
  }

  lemma AllTurns(fs: seq<Finding>, faults: seq<Option<Fault>>, policy: Policy, m: int)
    requires Exactly(fs, faults, policy, m, |faults|, 0)
    ensures InOrder(fs) && forall f: Finding :: f in fs <==> Reported(f, faults, policy, m)
  {
    hide Judge;
  }

  lemma MinimumIsUnique(m: int, n: int, turns: seq<StreamTurn>)
    requires IsMinimum(m, turns) && IsMinimum(n, turns)
    ensures m == n
  {
  }

  /** Nothing is reported about this entry. */
  ghost predicate Coherent(faults: seq<Option<Fault>>, policy: Policy, turns: seq<StreamTurn>) {
    forall m: int, f: Finding | IsMinimum(m, turns) :: !Reported(f, faults, policy, m)
  }

  // ---- what a coherent entry is guaranteed ----

  lemma {:induction false} MinimumExists(turns: seq<StreamTurn>) returns (m: int)
    ensures IsMinimum(m, turns)
  {
    if turns == [] {
      m := -1;
    } else {
      var rest := MinimumExists(turns[1..]);
      var n := turns[0].Chunks();
      m := if turns == [turns[0]] || n < rest then n else rest;
      assert turns == [turns[0]] + turns[1..];
      assert turns[0] in turns;
    }
  }

  /** The minimum is the right bound: a streaming attempt goes unreported exactly when the chunk it
      names exists in the stream of every turn. */
  lemma UnreportedMeansInEveryTurn(a: Attempt, turns: seq<StreamTurn>, m: int)
    requires a.EffectiveKind().IsStream() && turns != [] && IsMinimum(m, turns)
    ensures Judge(a, Serve, m).None? <==> forall t: StreamTurn | t in turns :: 0 <= a.afterChunk < t.Chunks()
  {
    var t :| t in turns && m == t.Chunks();
  }

  /** No attempt a coherent entry's plans can draw is judged to mismatch. */
  lemma CoherentAttempt(
      faults: seq<Option<Fault>>, policy: Policy, turns: seq<StreamTurn>, fault: Fault, flat: Plan, call: int)
    requires Coherent(faults, policy, turns) && Some(fault) in faults
    requires flat.after == fault.after && Expands(flat.attempts, fault.attempts) && flat.At(call).Some?
    ensures forall m: int | IsMinimum(m, turns) :: Judge(flat.At(call).value, policy, m).None?
  {
    PlannedAttemptsAreDeclared(flat, fault, call);
    var i :| 0 <= i < |faults| && faults[i] == Some(fault);
    var j :| 0 <= j < |fault.attempts| && fault.attempts[j] == flat.At(call).value;
    forall m: int | IsMinimum(m, turns) ensures Judge(flat.At(call).value, policy, m).None? {
      var code := Judge(flat.At(call).value, policy, m);
      if code.Some? { assert Reported(Finding(i, j, code.value), faults, policy, m); }
    }
  }

  /** Any streaming attempt such plans can draw is on an entry that streams, and names a chunk every turn's
      stream has. */
  lemma CoherentChunksExist(
      faults: seq<Option<Fault>>, turns: seq<StreamTurn>, fault: Fault, flat: Plan, call: int, t: StreamTurn)
    requires Coherent(faults, EntryPolicy(turns), turns) && Some(fault) in faults && t in turns
    requires flat.after == fault.after && Expands(flat.attempts, fault.attempts)
    requires flat.At(call).Some? && flat.At(call).value.EffectiveKind().IsStream()
    ensures EntryPolicy(turns).Serve? && 0 <= flat.At(call).value.afterChunk < t.Chunks()
  {
    hide Expands;
    CoherentAttempt(faults, EntryPolicy(turns), turns, fault, flat, call);
    var m := MinimumExists(turns);
    UnreportedMeansInEveryTurn(flat.At(call).value, turns, m);
  }
}
