/** What every sequence of engine operations guarantees. Each operation is one atomic step; a reset
    with requests in flight is outside the contract.  */
module EngineRuns {
  import opened Text
  import opened Faults
  import opened Lanes
  import opened Engine

  datatype Op = Next(key: string) | AdmitNamespace(namespace: string) | Reset | ResetIn(namespace: string)

  function Apply(e: State, op: Op): State {
    match op
    case Next(key) => AfterNext(e, key)
    case AdmitNamespace(namespace) => Admit(e, Effective(namespace))
    case Reset => AfterReset(e)
    case ResetIn(namespace) => AfterResetIn(e, namespace)
  }

  function Run(e: State, ops: seq<Op>): State {
    if ops == [] then e else Apply(Run(e, ops[..|ops| - 1]), ops[|ops| - 1])
  }

  lemma RunAppend(e: State, ops: seq<Op>, op: Op)
    ensures Run(e, ops + [op]) == Apply(Run(e, ops), op)
  {
    assert (ops + [op])[..|ops + [op]| - 1] == ops;
  }

  lemma StepKeepsValid(e: State, op: Op)
    requires Valid(e)
    ensures Valid(Apply(e, op)) && Apply(e, op).plans == e.plans && Apply(e, op).maxNamespaces == e.maxNamespaces
  {
    hide NamespaceOf, PartsOf, PlanFor, Valid;
    match op
    case Next(key) => NextKeepsValid(e, key);
    case AdmitNamespace(namespace) => AdmitKeepsValid(e, Effective(namespace));
    case Reset => ResetKeepsValid(e);
    case ResetIn(namespace) => ResetInKeepsValid(e, namespace);
  }

  lemma AdmitKeepsValid(e: State, namespace: string)
    requires Valid(e)
    ensures Valid(Admit(e, namespace))
  {
    hide NamespaceOf;
  }

  lemma ResetKeepsValid(e: State)
    requires Valid(e)
    ensures Valid(AfterReset(e))
  {
    hide NamespaceOf;
  }

  lemma NextKeepsValid(e: State, key: string)
    requires Valid(e)
    ensures Valid(AfterNext(e, key))
  {
    hide NamespaceOf, PartsOf, PlanFor;
    var t := AfterNext(e, key);
    assert forall k | k in t.lanes :: k in e.lanes || k == key;
  }

  lemma ResetInKeepsValid(e: State, namespace: string)
    requires Valid(e)
    ensures Valid(AfterResetIn(e, namespace))
  {
    hide NamespaceOf, PartsOf, PlanFor;
    var ns := Effective(namespace);
    var t := AfterResetIn(e, namespace);
    if ns in e.live { assert |t.live| == |e.live| - 1; }
    forall k | k in t.lanes ensures NamespaceOf(k) == DEFAULT_NAMESPACE || NamespaceOf(k) in t.live {
      assert k in e.lanes && NamespaceOf(k) != ns;
    }
  }

  /** The bound holds in every run, and every lane outside the default namespace is in a live one. */
  lemma {:induction false} RunKeepsValid(e: State, ops: seq<Op>)
    requires Valid(e)
    ensures Valid(Run(e, ops)) && Run(e, ops).plans == e.plans && Run(e, ops).maxNamespaces == e.maxNamespaces
  {
    if ops != [] {
      RunKeepsValid(e, ops[..|ops| - 1]);
      StepKeepsValid(Run(e, ops[..|ops| - 1]), ops[|ops| - 1]);
    }
  }

  // ---- a plain map from lane to call count ----

  predicate Covers(op: Op, key: string) {
    op.Reset? || (op.ResetIn? && Effective(op.namespace) == NamespaceOf(key))
  }

  /** The number of answered calls of a key since the last reset that covers it. */
  function CallsSince(e: State, ops: seq<Op>, key: string): nat {
    if ops == [] then 0
    else
      var before, op := ops[..|ops| - 1], ops[|ops| - 1];
      if Covers(op, key) then 0
      else if op == Next(key) && !Answer(Run(e, before), key).unknown then CallsSince(e, before, key) + 1
      else CallsSince(e, before, key)
  }

  lemma PlainKeysAreDefault(key: string)
    requires PlainKey(key)
    ensures NamespaceOf(key) == DEFAULT_NAMESPACE && PartsOf(key) == [key]
  {
    assert IndexOf(key, '/') == |key|;
    SplitNone(key, '|');
  }

  lemma StepCounts(e: State, op: Op, key: string)
    requires Valid(e)
    ensures Count(Apply(e, op), key) ==
      if Covers(op, key) then 0
      else if op == Next(key) && !Answer(e, key).unknown then Count(e, key) + 1
      else Count(e, key)
  {
    hide NamespaceOf, PartsOf, PlanFor;
    if key in e.counters { PlainKeysAreDefault(key); }
    match op
    case Next(k) => NextCounts(e, k, key);
    case AdmitNamespace(_) =>
    case Reset =>
    case ResetIn(_) =>
  }

  lemma NextCounts(e: State, k: string, key: string)
    requires Valid(e)
    ensures Count(AfterNext(e, k), key) == Count(e, key) + if k == key && Serves(e, key) then 1 else 0
    ensures Answer(e, key).unknown == !Serves(e, key)
  {
    hide NamespaceOf, PartsOf, PlanFor;
  }

  /** The engine is a map from lane key to call count: an answered call returns the number of answered
      calls of its own key since the last reset covering it, whatever else was asked in between, and
      the attempt its plan prescribes there. */
  lemma {:induction false} AnswersCountCalls(e: State, ops: seq<Op>, key: string)
    requires Valid(e) && Count(e, key) == 0
    ensures Count(Run(e, ops), key) == CallsSince(e, ops, key)
    ensures var d := Answer(Run(e, ops), key);
      !d.unknown ==>
        && d.index == CallsSince(e, ops, key) && PlanKey(e, key).Some? && d.key == key
        && d.attempt == e.plans[PlanKey(e, key).value].At(d.index)
        && (d.planned <==> e.plans[PlanKey(e, key).value].attempts != [])
  {
    RunKeepsValid(e, ops);
    if ops != [] {
      var before, op := ops[..|ops| - 1], ops[|ops| - 1];
      AnswersCountCalls(e, before, key);
      RunKeepsValid(e, before);
      StepCounts(Run(e, before), op, key);
    }
  }

  // ---- admission ----

  /** Whether a run contains a scoped reset of a namespace. */
  predicate ResetsNamespace(ops: seq<Op>, namespace: string) {
    exists i | 0 <= i < |ops| :: ops[i].ResetIn? && Effective(ops[i].namespace) == Effective(namespace)
  }

  lemma {:induction false} LiveUntilReset(e: State, ops: seq<Op>, namespace: string)
    requires Effective(namespace) in e.live && !ResetsNamespace(ops, namespace)
    ensures Effective(namespace) in Run(e, ops).live
  {
    if ops != [] {
      LiveUntilReset(e, ops[..|ops| - 1], namespace);
    }
  }

  /** Admission is kept: once a namespace was admitted, no call on one of its lanes that embeds a
      registered fault key is refused, whatever other namespaces are admitted, refused, reset or fully
      reset, until the namespace itself is reset. */
  lemma AdmissionIsKept(e: State, ops: seq<Op>, namespace: string, more: seq<Op>, key: string)
    requires Valid(e)
    requires Admits(Run(e, ops), Effective(namespace))
    requires !ResetsNamespace(more, namespace)
    requires NamespaceOf(key) == Effective(namespace) && PlanFor(e.plans, PartsOf(key)).Some?
    ensures !Answer(Run(Run(e, ops + [AdmitNamespace(namespace)]), more), key).unknown
  {
    var admitted := Run(e, ops + [AdmitNamespace(namespace)]);
    RunAppend(e, ops, AdmitNamespace(namespace));
    RunKeepsValid(e, ops + [AdmitNamespace(namespace)]);
    RunKeepsValid(admitted, more);
    if Effective(namespace) != DEFAULT_NAMESPACE {
      LiveUntilReset(admitted, more, namespace);
    }
  }

  /** Every cursor key a request composes recovers the request's own registered fault key. */
  lemma OwnFaultKeyIsRecovered(e: State, namespace: string, faultKey: string, es: seq<Extraction>)
    requires Valid(e) && faultKey in e.plans
    requires namespace == "" || ValidNamespace(namespace)
    ensures var key := Lane(namespace, LaneKey(faultKey, es)).CursorKey();
      NamespaceOf(key) == Effective(namespace) && PlanKey(e, key) == Some(faultKey)
  {
    SplitInvertsCursorKey(namespace, faultKey, es);
    var key := Lane(namespace, LaneKey(faultKey, es)).CursorKey();
    if key in e.counters { PlainKeysAreDefault(key); }
  }

  // ---- isolation ----

  /** The namespace an operation works in; a full reset works in all of them. */
  function Touches(op: Op): string {
    match op
    case Next(key) => NamespaceOf(key)
    case AdmitNamespace(namespace) => Effective(namespace)
    case ResetIn(namespace) => Effective(namespace)
    case Reset => ""
  }

  /** Whether a key's answer still hangs on the shared bound: its namespace holds no slot yet. */
  predicate Unplaced(e: State, key: string) {
    && NamespaceOf(key) != DEFAULT_NAMESPACE && NamespaceOf(key) !in e.live
    && PlanFor(e.plans, PartsOf(key)).Some?
  }

  /** An operation that would hold one slot more: an admission, or a call that serves a lane, of a
      namespace that holds none yet. */
  predicate TakesSlot(e: State, op: Op) {
    match op
    case Next(key) => Unplaced(e, key)
    case AdmitNamespace(namespace) =>
      Effective(namespace) != DEFAULT_NAMESPACE && Effective(namespace) !in e.live
    case _ => false
  }

  /** An operation that gives a slot back: the scoped reset of a namespace that holds one. */
  predicate FreesSlot(e: State, op: Op) { op.ResetIn? && Effective(op.namespace) in e.live }

  lemma SlotsMove(e: State, op: Op)
    requires Valid(e)
    ensures var held := |Apply(e, op).live|;
      && (TakesSlot(e, op) && |e.live| < e.maxNamespaces ==> held == |e.live| + 1)
      && (FreesSlot(e, op) ==> held == |e.live| - 1)
      && (!TakesSlot(e, op) && !FreesSlot(e, op) ==> held == |e.live|)
      && (|e.live| == e.maxNamespaces && !FreesSlot(e, op) ==> held == |e.live|)
  {
    hide Unplaced, NamespaceOf, PartsOf, PlanFor, Serves;
    match op
    case Next(key) => CallsTakeSlots(e, key);
    case _ =>
  }

  lemma CallsTakeSlots(e: State, key: string)
    requires Valid(e)
    ensures AfterNext(e, key).live
         == if Unplaced(e, key) && |e.live| < e.maxNamespaces then e.live + {NamespaceOf(key)} else e.live
    ensures Unplaced(e, key) ==> NamespaceOf(key) !in e.live
  {
    if key in e.counters { PlainKeysAreDefault(key); }
    hide NamespaceOf, PartsOf, PlanFor;
  }

  /** An operation in one namespace changes an answer in another exactly when that other namespace
      holds no slot yet and the operation takes the last free slot or frees one of a full set. */
  lemma OtherNamespacesInterfereOnlyThroughTheBound(e: State, op: Op, key: string)
    requires Valid(e) && !op.Reset? && Touches(op) != NamespaceOf(key)
    ensures Answer(Apply(e, op), key) != Answer(e, key) <==>
      && Unplaced(e, key)
      && ((|e.live| + 1 == e.maxNamespaces && TakesSlot(e, op)) || (|e.live| == e.maxNamespaces && FreesSlot(e, op)))
  {
    SlotsMove(e, op);
    RoomDecides(e, op, key);
  }

  lemma RoomDecides(e: State, op: Op, key: string)
    requires Valid(e) && !op.Reset? && Touches(op) != NamespaceOf(key)
    ensures Answer(Apply(e, op), key) != Answer(e, key)
       <==> Unplaced(e, key) && (|Apply(e, op).live| < e.maxNamespaces) != (|e.live| < e.maxNamespaces)
  {
    hide NamespaceOf, PartsOf, PlanFor, Apply, Touches;
    StepKeepsValid(e, op);
    StepCounts(e, op, key);
    OtherNamespaceStays(e, op, NamespaceOf(key));
    if key in e.counters { PlainKeysAreDefault(key); }
    assert PlanKey(Apply(e, op), key) == PlanKey(e, key);
    assert key in Apply(e, op).lanes <==> key in e.lanes;
  }

  /** An engine for one namespace of one route, before any request. */
  function OneSlot(): State { State(map["r" := Plan([], Success)], map["r" := 0], map[], {}, 1) }

  /** One namespace's admission turns another's call from its first answer into a refusal. */
  lemma AdmittingOneRefusesAnother()
    ensures var e, op, key := OneSlot(), AdmitNamespace("b"), "a/r";
      && Valid(e) && Touches(op) != NamespaceOf(key)
      && !Answer(e, key).unknown && Answer(Apply(e, op), key).unknown
  {
    var e := OneSlot();
    PlainRegisteredKey(e);
    NamedKey();
    assert Admit(e, "b").live == {"b"};
  }

  lemma PlainRegisteredKey(e: State)
    requires e == OneSlot()
    ensures Valid(e)
  {
    assert PlainKey("r");
  }

  lemma NamedKey()
    ensures NamespaceOf("a/r") == "a" && PartsOf("a/r") == ["r"] && Effective("b") == "b" && "a" != DEFAULT_NAMESPACE
  {
    SplitRecoversExactly(Lane("a", "r"));
    SplitNone("r", '|');
    assert Lane("a", "r").CursorKey() == "a/r";
  }

  lemma OtherNamespaceStays(e: State, op: Op, ns: string)
    requires Valid(e) && !op.Reset? && Touches(op) != ns
    ensures var t := Apply(e, op);
      && (ns in t.live <==> ns in e.live)
      && SameLanes(t.lanes, e.lanes, ns)
      && (ns == DEFAULT_NAMESPACE ==> t.counters == e.counters)
      && t.counters.Keys == e.counters.Keys
  {
    hide NamespaceOf, PartsOf, PlanFor;
    match op
    case Next(key) => OtherNextStays(e, key, ns);
    case _ =>
  }

  lemma OtherNextStays(e: State, key: string, ns: string)
    requires Valid(e) && NamespaceOf(key) != ns
    ensures var t := AfterNext(e, key);
      && (ns in t.live <==> ns in e.live)
      && SameLanes(t.lanes, e.lanes, ns)
      && (ns == DEFAULT_NAMESPACE ==> t.counters == e.counters)
      && t.counters.Keys == e.counters.Keys
  {
    hide NamespaceOf, PartsOf, PlanFor;
    if key in e.counters { PlainKeysAreDefault(key); }
    var t := AfterNext(e, key);
    assert t.lanes == e.lanes || (key !in e.counters && t.lanes == e.lanes[key := Count(e, key) + 1]);
  }

  /** Only the namespace's own operations and full resets. */
  function Project(ops: seq<Op>, ns: string): seq<Op> {
    if ops == [] then []
    else
      var before, op := Project(ops[..|ops| - 1], ns), ops[|ops| - 1];
      if op.Reset? || Touches(op) == ns then before + [op] else before
  }

  predicate Refused(e: State, op: Op) {
    match op
    case Next(key) => PlanKey(e, key).Some? && !Serves(e, key)
    case AdmitNamespace(namespace) => !Admits(e, Effective(namespace))
    case _ => false
  }

  ghost predicate NeverRefused(e: State, ops: seq<Op>, ns: string) {
    forall n | 0 <= n < |ops| && Touches(ops[n]) == ns :: !Refused(Run(e, ops[..n]), ops[n])
  }

  /** Two engines that look alike from inside one namespace. */
  ghost predicate Alike(e: State, f: State, ns: string) {
    && e.plans == f.plans && e.counters.Keys == f.counters.Keys && f.maxNamespaces > 0
    && (ns == DEFAULT_NAMESPACE ==> e.counters == f.counters)
    && (ns in e.live <==> ns in f.live) && f.live <= {ns}
    && SameLanes(e.lanes, f.lanes, ns)
  }

  ghost predicate SameLanes(a: map<string, nat>, b: map<string, nat>, ns: string) {
    forall k | NamespaceOf(k) == ns :: (k in a <==> k in b) && (k in a ==> a[k] == b[k])
  }

  lemma SameLanesCount(a: map<string, nat>, b: map<string, nat>, ns: string, key: string, n: nat)
    requires SameLanes(a, b, ns)
    ensures SameLanes(a[key := n], b[key := n], ns)
  {
    hide NamespaceOf;
  }

  lemma AlikeAnswers(e: State, f: State, ns: string, key: string)
    requires Valid(e) && Valid(f) && Alike(e, f, ns) && NamespaceOf(key) == ns && !Refused(e, Next(key))
    ensures Answer(e, key) == Answer(f, key) && !Refused(f, Next(key))
  {
    if key in e.counters { PlainKeysAreDefault(key); }
    AloneThereIsRoom(f, ns);
  }

  lemma AloneThereIsRoom(f: State, ns: string)
    requires f.live <= {ns} && f.maxNamespaces > 0
    ensures Admits(f, ns)
  {
    if ns !in f.live { assert f.live == {}; }
  }

  lemma OwnStepStaysAlike(e: State, f: State, ns: string, op: Op)
    requires Valid(e) && Valid(f) && Alike(e, f, ns)
    requires op.Reset? || (Touches(op) == ns && !Refused(e, op))
    ensures Alike(Apply(e, op), Apply(f, op), ns)
  {
    hide NamespaceOf, PartsOf, PlanFor;
    AloneThereIsRoom(f, ns);
    match op
    case Next(key) => OwnNextStaysAlike(e, f, ns, key);
    case _ =>
  }

  lemma OwnNextStaysAlike(e: State, f: State, ns: string, key: string)
    requires Valid(e) && Valid(f) && Alike(e, f, ns) && NamespaceOf(key) == ns && !Refused(e, Next(key))
    ensures Alike(AfterNext(e, key), AfterNext(f, key), ns)
  {
    hide NamespaceOf, PartsOf, PlanFor;
    AlikeAnswers(e, f, ns, key);
    if key in e.counters { PlainKeysAreDefault(key); }
    var n := Count(e, key) + 1;
    assert Serves(e, key) == Serves(f, key) && Count(f, key) + 1 == n;
    if Serves(e, key) && key !in e.counters {
      assert AfterNext(e, key).lanes == e.lanes[key := n] && AfterNext(f, key).lanes == f.lanes[key := n];
      SlotFor(e, ns, key);
      SlotFor(f, ns, key);
      SameLanesCount(e.lanes, f.lanes, ns, key, n);
    }
  }

  lemma SlotFor(e: State, ns: string, key: string)
    requires Valid(e) && NamespaceOf(key) == ns && Serves(e, key) && key !in e.counters
    ensures AfterNext(e, key).live == if ns == DEFAULT_NAMESPACE then e.live else e.live + {ns}
    ensures AfterNext(e, key).plans == e.plans && AfterNext(e, key).counters == e.counters
  {
    hide NamespaceOf, PartsOf, PlanFor;
  }

  lemma {:induction false} ProjectionStaysAlike(e: State, ops: seq<Op>, ns: string)
    requires Valid(e) && e.live == {} && NeverRefused(e, ops, ns)
    ensures Alike(Run(e, ops), Run(e, Project(ops, ns)), ns)
  {
    hide NamespaceOf, PartsOf, PlanFor, Valid, Refused, Alike;
    if ops != [] {
      var before, op := ops[..|ops| - 1], ops[|ops| - 1];
      forall n | 0 <= n < |before| && Touches(before[n]) == ns ensures !Refused(Run(e, before[..n]), before[n]) {
        assert before[..n] == ops[..n];
      }
      ProjectionStaysAlike(e, before, ns);
      RunKeepsValid(e, before);
      RunKeepsValid(e, Project(before, ns));
      var s, t := Run(e, before), Run(e, Project(before, ns));
      if op.Reset? || Touches(op) == ns {
        RunAppend(e, Project(before, ns), op);
        OwnStepStaysAlike(s, t, ns, op);
      } else {
        OtherStepStaysAlike(s, t, ns, op);
      }
    } else {
      AlikeItself(e, ns);
    }
  }

  lemma AlikeItself(e: State, ns: string)
    requires Valid(e) && e.live == {}
    ensures Alike(e, e, ns)
  {
    hide NamespaceOf;
  }

  lemma OtherStepStaysAlike(e: State, f: State, ns: string, op: Op)
    requires Valid(e) && Alike(e, f, ns) && !op.Reset? && Touches(op) != ns
    ensures Alike(Apply(e, op), f, ns)
  {
    OtherNamespaceStays(e, op, ns);
    StepKeepsValid(e, op);
    hide NamespaceOf, Valid, Apply;
  }

  /** Non-interference: as long as a namespace is never refused, it gets exactly the answers it would
      get alone on the engine, whatever every other namespace does, scoped resets included. */
  lemma NamespacesDoNotInterfere(e: State, ops: seq<Op>, ns: string, key: string)
    requires Valid(e) && e.live == {} && NamespaceOf(key) == ns
    requires NeverRefused(e, ops, ns) && !Refused(Run(e, ops), Next(key))
    ensures Answer(Run(e, ops), key) == Answer(Run(e, Project(ops, ns)), key)
  {
    ProjectionStaysAlike(e, ops, ns);
    RunKeepsValid(e, ops);
    RunKeepsValid(e, Project(ops, ns));
    AlikeAnswers(Run(e, ops), Run(e, Project(ops, ns)), ns, key);
  }

  lemma {:induction false} RunAfter(e: State, before: seq<Op>, after: seq<Op>)
    ensures Run(e, before + after) == Run(Run(e, before), after)
  {
    hide Apply;
    if after == [] {
      assert before + after == before;
    } else {
      var n := |after| - 1;
      RunAfter(e, before, after[..n]);
      RunAppend(e, before + after[..n], after[n]);
      assert before + after == before + after[..n] + [after[n]];
    }
  }

  /** A namespace that holds a slot, or needs none, is not refused. */
  lemma PlacedIsNotRefused(e: State, op: Op, ns: string)
    requires Touches(op) == ns && (ns == DEFAULT_NAMESPACE || ns in e.live)
    ensures !Refused(e, op)
  {
    hide NamespaceOf, PartsOf, PlanKey;
  }

  /** Once admitted, and until its own reset, no operation of a namespace is refused. */
  lemma NotRefusedOnceAdmitted(
      e: State, before: seq<Op>, namespace: string, more: seq<Op>, op: Op)
    requires Admits(Run(e, before), Effective(namespace)) && !ResetsNamespace(more, namespace)
    requires Touches(op) == Effective(namespace)
    ensures !Refused(Run(e, before + [AdmitNamespace(namespace)] + more), op)
  {
    hide Touches, Refused;
    var admitted := Run(e, before + [AdmitNamespace(namespace)]);
    RunAppend(e, before, AdmitNamespace(namespace));
    RunAfter(e, before + [AdmitNamespace(namespace)], more);
    if Effective(namespace) != DEFAULT_NAMESPACE { LiveUntilReset(admitted, more, namespace); }
    PlacedIsNotRefused(Run(admitted, more), op, Effective(namespace));
  }

  lemma AdmittedIsNeverRefused(e: State, before: seq<Op>, namespace: string, more: seq<Op>)
    requires forall i | 0 <= i < |before| :: Touches(before[i]) != Effective(namespace)
    requires Admits(Run(e, before), Effective(namespace)) && !ResetsNamespace(more, namespace)
    ensures NeverRefused(e, before + [AdmitNamespace(namespace)] + more, Effective(namespace))
  {
    hide Touches, Refused, Admits;
    var ops := before + [AdmitNamespace(namespace)] + more;
    forall n | 0 <= n < |ops| && Touches(ops[n]) == Effective(namespace) ensures !Refused(Run(e, ops[..n]), ops[n]) {
      if n == |before| {
        assert ops[..n] == before && ops[n] == AdmitNamespace(namespace);
        AdmittedAtFirst(Run(e, before), namespace);
      } else {
        var k := n - |before| - 1;
        assert ops[..n] == before + [AdmitNamespace(namespace)] + more[..k];
        NotRefusedOnceAdmitted(e, before, namespace, more[..k], ops[n]);
      }
    }
  }

  lemma AdmittedAtFirst(e: State, namespace: string)
    requires Admits(e, Effective(namespace))
    ensures !Refused(e, AdmitNamespace(namespace))
  {
  }

  /** What a client can check: a namespace whose first operation is an admission that succeeds, and that is
      not reset afterwards, gets on every call the answer it would get alone, whatever every other
      namespace does before and after. */
  lemma AdmittedNamespacesDoNotInterfere(e: State, before: seq<Op>, namespace: string, more: seq<Op>, key: string)
    requires Valid(e) && e.live == {} && NamespaceOf(key) == Effective(namespace)
    requires forall i | 0 <= i < |before| :: Touches(before[i]) != Effective(namespace)
    requires Admits(Run(e, before), Effective(namespace)) && !ResetsNamespace(more, namespace)
    ensures var ops := before + [AdmitNamespace(namespace)] + more;
      Answer(Run(e, ops), key) == Answer(Run(e, Project(ops, Effective(namespace))), key)
  {
    hide Admits, Answer, Valid, NamespaceOf, Refused, NeverRefused;
    AdmittedIsNeverRefused(e, before, namespace, more);
    NotRefusedOnceAdmitted(e, before, namespace, more, Next(key));
    NamespacesDoNotInterfere(e, before + [AdmitNamespace(namespace)] + more, Effective(namespace), key);
  }

  // ---- who holds a slot ----

  /** The operation at n took a slot for a namespace, and no reset of that namespace has followed. */
  predicate HeldSince(e: State, ops: seq<Op>, n: nat, ns: string) {
    && n < |ops|
    && var s := Run(e, ops[..n]);
    && TakesSlot(s, ops[n]) && Touches(ops[n]) == ns && |s.live| < s.maxNamespaces
    && forall m | n < m < |ops| :: !(ops[m].ResetIn? && Effective(ops[m].namespace) == ns)
  }

  ghost predicate HoldsSlot(e: State, ops: seq<Op>, ns: string) { exists n: nat :: HeldSince(e, ops, n, ns) }

  lemma HoldsStep(e: State, ops: seq<Op>, ns: string)
    requires ops != []
    ensures var before, last := ops[..|ops| - 1], ops[|ops| - 1];
      HoldsSlot(e, ops, ns) <==>
        || HeldSince(e, ops, |ops| - 1, ns)
        || (HoldsSlot(e, before, ns) && !(last.ResetIn? && Effective(last.namespace) == ns))
  {
    hide Run, TakesSlot, Touches;
    var before, last := ops[..|ops| - 1], ops[|ops| - 1];
    if HoldsSlot(e, ops, ns) {
      var n: nat :| HeldSince(e, ops, n, ns);
      if n < |before| {
        assert before[..n] == ops[..n];
        assert HeldSince(e, before, n, ns);
      }
    }
    if HoldsSlot(e, before, ns) && !(last.ResetIn? && Effective(last.namespace) == ns) {
      var n: nat :| HeldSince(e, before, n, ns);
      assert before[..n] == ops[..n];
      assert HeldSince(e, ops, n, ns);
    }
  }

  lemma StepHolds(e: State, op: Op, ns: string)
    requires Valid(e)
    ensures ns in Apply(e, op).live <==>
      || (TakesSlot(e, op) && Touches(op) == ns && |e.live| < e.maxNamespaces)
      || (ns in e.live && !(op.ResetIn? && Effective(op.namespace) == ns))
  {
    match op
    case Next(key) =>
      CallsTakeSlots(e, key);
      hide Unplaced, AfterNext, NamespaceOf;
    case _ =>
  }

  /** In every run, exactly those namespaces hold a slot that an admission or a call on a registered lane
      has taken while one was free, and that have not been reset since. */
  lemma {:induction false} SlotsAreHeldByWhoTookThem(e: State, ops: seq<Op>, ns: string)
    requires Valid(e) && e.live == {}
    ensures ns in Run(e, ops).live <==> HoldsSlot(e, ops, ns)
  {
    hide HoldsSlot, TakesSlot, Touches, Apply, Valid;
    if ops == [] {
      NobodyHolds(e, ns);
    } else {
      var before, last := ops[..|ops| - 1], ops[|ops| - 1];
      SlotsAreHeldByWhoTookThem(e, before, ns);
      RunKeepsValid(e, before);
      HoldsStep(e, ops, ns);
      StepHolds(Run(e, before), last, ns);
    }
  }

  lemma NobodyHolds(e: State, ns: string)
    ensures !HoldsSlot(e, [], ns)
  {
  }
}
