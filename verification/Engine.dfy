/** The fault engine: one counter per registered route, lane counters created on first use, and a
    bound on how many namespaces may hold any.  */
module Engine {
  import opened Text
  import opened Faults
  import opened Lanes

  const DEFAULT_MAX_NAMESPACES: nat := 1024

  datatype Decision = Decision(attempt: Option<Attempt>, index: int, key: string, planned: bool, unknown: bool)

  /** The engine's whole state. Plans and counters hold the registered fault keys; lanes holds the
      counters of every other key that has been served. */
  datatype State = State(
    plans: map<string, Plan>, counters: map<string, nat>, lanes: map<string, nat>,
    live: set<string>, maxNamespaces: nat)

  /** The first part of a lane key that is a registered fault key. */
  function PlanFor(plans: map<string, Plan>, parts: seq<string>): (found: Option<string>)
    ensures found.Some? ==> found.value in plans
  {
    if parts == [] then None
    else if parts[0] in plans then Some(parts[0])
    else PlanFor(plans, parts[1..])
  }

  /** The registered key a cursor key draws its plan from. */
  function PlanKey(e: State, key: string): (found: Option<string>)
    ensures found.Some? ==> found.value in e.plans
  {
    if key in e.counters && key in e.plans then Some(key) else PlanFor(e.plans, PartsOf(key))
  }

  /** It is the first registered part, and there is none only when no part is registered. */
  lemma {:induction false} PlanForIsFirst(plans: map<string, Plan>, parts: seq<string>)
    ensures match PlanFor(plans, parts)
      case None => forall i | 0 <= i < |parts| :: parts[i] !in plans
      case Some(found) =>
        exists i | 0 <= i < |parts| :: parts[i] == found && forall j | 0 <= j < i :: parts[j] !in plans
  {
    if parts != [] && parts[0] !in plans {
      PlanForIsFirst(plans, parts[1..]);
      assert forall i | 0 <= i < |parts[1..]| :: parts[1..][i] == parts[i + 1];
      if found: string :| PlanFor(plans, parts) == Some(found) {
        var i :| 0 <= i < |parts[1..]| && parts[1..][i] == found && forall j | 0 <= j < i :: parts[1..][j] !in plans;
        assert parts[i + 1] == found;
        assert forall j | 1 <= j < i + 1 :: parts[j] == parts[1..][j - 1];
      }
    }
  }

  predicate Admits(e: State, namespace: string) {
    namespace == DEFAULT_NAMESPACE || namespace in e.live || |e.live| < e.maxNamespaces
  }

  /** Whether a key is served a counter at all. */
  predicate Serves(e: State, key: string) {
    key in e.counters || (PlanKey(e, key).Some? && (key in e.lanes || Admits(e, NamespaceOf(key))))
  }

  /** How many calls a key's counter has handed out. */
  function Count(e: State, key: string): nat {
    if key in e.counters then e.counters[key] else if key in e.lanes then e.lanes[key] else 0
  }

  function Admit(e: State, namespace: string): State {
    if namespace == DEFAULT_NAMESPACE || namespace in e.live || |e.live| >= e.maxNamespaces then e
    else e.(live := e.live + {namespace})
  }

  function AfterNext(e: State, key: string): State {
    if !Serves(e, key) then e
    else if key in e.counters then e.(counters := e.counters[key := e.counters[key] + 1])
    else
      var admitted := if key in e.lanes then e else Admit(e, NamespaceOf(key));
      admitted.(lanes := e.lanes[key := Count(e, key) + 1])
  }

  function Answer(e: State, key: string): Decision {
    var plan := PlanKey(e, key);
    if !Serves(e, key) || plan.None? then Decision(None, -1, key, false, true)
    else Decision(e.plans[plan.value].At(Count(e, key)), Count(e, key), key,
                  |e.plans[plan.value].attempts| > 0, false)
  }

  /** A call is answered when its key is registered, or some part of it is and the key has a counter or
      its namespace a slot, or a free one; the answer is the call's number and the attempt its plan has
      there. */
  ghost predicate AnswersCall(e: State, key: string, d: Decision) {
    var parts, ns := PartsOf(key), NamespaceOf(key);
    var room := ns == DEFAULT_NAMESPACE || ns in e.live || |e.live| < e.maxNamespaces;
    var planned := exists i :: 0 <= i < |parts| && parts[i] in e.plans;
    && d.key == key
    && (d.unknown <==> key !in e.counters && !(planned && (key in e.lanes || room)))
    && (d.unknown ==> d.index == -1 && d.attempt.None? && !d.planned)
    && (!d.unknown ==>
         && d.index == (if key in e.counters then e.counters[key] else if key in e.lanes then e.lanes[key] else 0)
         && exists p :: p in e.plans
              && d.attempt == e.plans[p].At(d.index) && (d.planned <==> e.plans[p].attempts != [])
              && if key in e.counters then p == key
                 else exists i :: 0 <= i < |parts| && parts[i] == p && forall j | 0 <= j < i :: parts[j] !in e.plans)
  }

  lemma CallsAreAnswered(e: State, key: string)
    requires e.plans.Keys == e.counters.Keys
    ensures AnswersCall(e, key, Answer(e, key))
  {
    hide NamespaceOf, PartsOf, PlanFor;
    PlanForIsFirst(e.plans, PartsOf(key));
    var d, plan := Answer(e, key), PlanKey(e, key);
    assert key in e.counters ==> plan == Some(key);
    if !d.unknown { assert plan.Some? && plan.value in e.plans; }
  }

  function Zeroed(m: map<string, nat>): map<string, nat> { map k | k in m :: 0 }

  function AfterReset(e: State): State { e.(counters := Zeroed(e.counters), lanes := Zeroed(e.lanes)) }

  function AfterResetIn(e: State, namespace: string): State {
    var ns := Effective(namespace);
    e.(counters := if ns == DEFAULT_NAMESPACE then Zeroed(e.counters) else e.counters,
       live := if ns == DEFAULT_NAMESPACE then e.live else e.live - {ns},
       lanes := map k | k in e.lanes && NamespaceOf(k) != ns :: e.lanes[k])
  }

  /** Registered keys carry no separator, lanes are not registered keys, the bound is respected, and
      every lane outside the default namespace belongs to a live one. */
  ghost predicate Valid(e: State) {
    && e.plans.Keys == e.counters.Keys
    && (forall k | k in e.counters :: PlainKey(k) && k !in e.lanes)
    && |e.live| <= e.maxNamespaces && e.maxNamespaces > 0
    && DEFAULT_NAMESPACE !in e.live
    && forall k | k in e.lanes :: NamespaceOf(k) == DEFAULT_NAMESPACE || NamespaceOf(k) in e.live
  }

  ghost predicate PlanIsFor(plan: Plan, fault: Option<Fault>) {
    match fault
    case None => plan == Plan([], Success)
    case Some(f) => plan.after == f.after && Expands(plan.attempts, f.attempts)
  }

  /** The routes' distinct fault keys, each with the plan of the first route that carries it. */
  ghost predicate Registered(plans: map<string, Plan>, routes: seq<(string, Option<Fault>)>) {
    && (forall i | 0 <= i < |routes| :: routes[i].0 in plans)
    && (forall i | 0 <= i < |routes| && (forall j | 0 <= j < i :: routes[j].0 != routes[i].0) ::
          PlanIsFor(plans[routes[i].0], routes[i].1))
    && (forall k | k in plans :: exists i :: 0 <= i < |routes| && routes[i].0 == k)
  }

  lemma NothingRegistered()
    ensures Registered(map[], [])
  {
  }

  lemma FreshIsValid(e: State)
    requires e.plans.Keys == e.counters.Keys && (forall k | k in e.counters :: PlainKey(k))
    requires e.lanes == map[] && e.live == {} && e.maxNamespaces > 0
    ensures Valid(e)
  {
  }

  lemma RegisterOne(plans: map<string, Plan>, routes: seq<(string, Option<Fault>)>,
                    key: string, fault: Option<Fault>, plan: Plan)
    requires Registered(plans, routes) && key !in plans && PlanIsFor(plan, fault)
    ensures Registered(plans[key := plan], routes + [(key, fault)])
  {
    var all, next := routes + [(key, fault)], plans[key := plan];
    forall i | 0 <= i < |all| && (forall j | 0 <= j < i :: all[j].0 != all[i].0)
      ensures PlanIsFor(next[all[i].0], all[i].1)
    {
      if i < |routes| {
        assert forall j | 0 <= j < i :: all[j] == routes[j];
        assert routes[i].0 in plans;
      }
    }
    forall k | k in next ensures exists i :: 0 <= i < |all| && all[i].0 == k {
      if k != key {
        var i :| 0 <= i < |routes| && routes[i].0 == k;
        assert all[i].0 == k;
      } else {
        assert all[|routes|].0 == k;
      }
    }
  }

  lemma RegisterAlias(plans: map<string, Plan>, routes: seq<(string, Option<Fault>)>, key: string, fault: Option<Fault>)
    requires Registered(plans, routes) && key in plans
    ensures Registered(plans, routes + [(key, fault)])
  {
    var all := routes + [(key, fault)];
    var m :| 0 <= m < |routes| && routes[m].0 == key;
    assert all[m].0 == key;
    forall i | 0 <= i < |all| && (forall j | 0 <= j < i :: all[j].0 != all[i].0)
      ensures PlanIsFor(plans[all[i].0], all[i].1)
    {
      assert i < |routes|;
      assert forall j | 0 <= j < i :: all[j] == routes[j];
    }
    forall k | k in plans ensures exists i :: 0 <= i < |all| && all[i].0 == k {
      var i :| 0 <= i < |routes| && routes[i].0 == k;
      assert all[i].0 == k;
    }
  }

  class SetFaultEngine {
    var plans: map<string, Plan>
    var counters: map<string, nat>
    var lanes: map<string, nat>
    var live: set<string>
    const maxNamespaces: nat

    function Now(): State
      reads this
    {
      State(plans, counters, lanes, live, maxNamespaces)
    }

    /** One plan and one counter per distinct fault key; of aliases sharing a key, the first decides
        the plan. */
    constructor (routes: seq<(string, Option<Fault>)>, bound: int)
      requires forall r | r in routes :: PlainKey(r.0)
      ensures Valid(Now()) && lanes == map[] && live == {} && counters == Zeroed(counters)
      ensures maxNamespaces == if bound <= 0 then 1024 else bound
      ensures Registered(plans, routes)
    {
      hide NamespaceOf, PlainKey, PlanIsFor, Registered;
      maxNamespaces := if bound <= 0 then DEFAULT_MAX_NAMESPACES else bound;
      plans, counters, lanes, live := map[], map[], map[], {};
      new;
      NothingRegistered();
      for n := 0 to |routes|
        invariant lanes == map[] && live == {}
        invariant plans.Keys == counters.Keys && counters == Zeroed(counters)
        invariant forall k | k in plans :: PlainKey(k)
        invariant Registered(plans, routes[..n])
      {
        var (key, fault) := routes[n];
        assert routes[..n + 1] == routes[..n] + [(key, fault)] && PlainKey(routes[n].0);
        if key !in counters {
          var plan := ExpandFault(fault);
          RegisterOne(plans, routes[..n], key, fault, plan);
          plans := plans[key := plan];
          counters := counters[key := 0];
        } else {
          RegisterAlias(plans, routes[..n], key, fault);
        }
      }
      assert routes[..|routes|] == routes;
      FreshIsValid(Now());
    }

    method PlanForParts(parts: seq<string>) returns (planKey: Option<string>)
      ensures planKey == PlanFor(plans, parts)
    {
      for n := 0 to |parts|
        invariant PlanFor(plans, parts) == PlanFor(plans, parts[n..])
      {
        assert parts[n..][0] == parts[n] && parts[n..][1..] == parts[n + 1..];
        if parts[n] in plans { return Some(parts[n]); }
      }
      return None;
    }

    /** The counter of a lane, created on first use unless that would put its namespace over the
        bound. */
    method LaneCounter(key: string, namespace: string) returns (ok: bool)
      modifies this
      ensures ok == (key in old(lanes) || Admits(old(Now()), namespace))
      ensures !ok ==> Now() == old(Now())
      ensures ok && key in old(lanes) ==> Now() == old(Now())
      ensures ok && key !in old(lanes) ==>
        Now() == Admit(old(Now()), namespace).(lanes := old(lanes)[key := 0])
    {
      if key in lanes { return true; }
      if namespace !in live && namespace != DEFAULT_NAMESPACE {
        if |live| >= maxNamespaces { return false; }
        live := live + {namespace};
      }
      lanes := lanes[key := 0];
      return true;
    }

    /** Claims the next call index of a key. A key nothing registered can serve claims nothing. */
    method Next(key: string) returns (d: Decision)
      requires plans.Keys == counters.Keys
      modifies this
      ensures Now() == AfterNext(old(Now()), key) && d == Answer(old(Now()), key)
      ensures AnswersCall(old(Now()), key, d)
    {
      hide AnswersCall;
      CallsAreAnswered(Now(), key);
      if key in counters {
        var index := counters[key];
        counters := counters[key := index + 1];
        return Decision(plans[key].At(index), index, key, |plans[key].attempts| > 0, false);
      }
      var (namespace, parts) := SplitCursorKey(key);
      var planKey := PlanForParts(parts);
      if planKey == None { return Decision(None, -1, key, false, true); }
      var ok := LaneCounter(key, namespace);
      if !ok { return Decision(None, -1, key, false, true); }
      var index := lanes[key];
      lanes := lanes[key := index + 1];
      return Decision(plans[planKey.value].At(index), index, key, |plans[planKey.value].attempts| > 0, false);
    }

    /** Asked before a route's handler runs, so a refusal can still render as the profile's error. */
    method AdmitNamespace(namespace: string) returns (ok: bool)
      modifies this
      ensures Now() == Admit(old(Now()), Effective(namespace))
      ensures ok == Admits(old(Now()), Effective(namespace))
      ensures ok <==> Effective(namespace) == DEFAULT_NAMESPACE || Effective(namespace) in live
      ensures !ok <==>
        Effective(namespace) != DEFAULT_NAMESPACE && Effective(namespace) !in old(live) && |old(live)| >= maxNamespaces
    {
      if namespace == "" || namespace == DEFAULT_NAMESPACE { return true; }
      var isLive := namespace in live;
      var full := !isLive && |live| >= maxNamespaces;
      if !isLive && !full { live := live + {namespace}; }
      return !full;
    }

    method Reset()
      modifies this
      ensures Now() == AfterReset(old(Now()))
    {
      counters := map k | k in counters :: 0;
      lanes := map k | k in lanes :: 0;
    }

    /** Drops one namespace's counters, freeing its slot. The default namespace's route counters are
        zeroed in place rather than dropped. */
    method ResetIn(namespace: string)
      modifies this
      ensures Now() == AfterResetIn(old(Now()), namespace)
    {
      hide NamespaceOf;
      var ns := if namespace == "" then DEFAULT_NAMESPACE else namespace;
      if ns == DEFAULT_NAMESPACE {
        counters := map k | k in counters :: 0;
      } else {
        live := live - {ns};
      }
      var rest := lanes.Keys;
      while rest != {}
        invariant rest <= lanes.Keys <= old(lanes.Keys)
        invariant forall k | k in lanes :: lanes[k] == old(lanes)[k]
        invariant forall k | k in lanes && k !in rest :: NamespaceOf(k) != ns
        invariant forall k | k in old(lanes) && NamespaceOf(k) != ns :: k in lanes
        invariant plans == old(plans) && counters == AfterResetIn(old(Now()), namespace).counters
        invariant live == AfterResetIn(old(Now()), namespace).live
      {
        var k :| k in rest;
        rest := rest - {k};
        if NamespaceOf(k) == ns { lanes := lanes - {k}; }
      }
    }
  }
}
