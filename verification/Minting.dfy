/** Creating jobs: an identifier is derived from the create's lane and the call index it claimed, and
    the record is kept only when the client will learn the identifier or the scenario says the create
    took effect anyway.  */
module Minting {
  import opened Text
  import opened Faults
  import opened Lanes
  import opened Jobs
  import Engine
  import EngineRuns

  /** The fault engine and the job store a process serves from. */
  datatype System = System(engine: Engine.State, jobs: Records, bound: nat)

  /** The identifier derived from a lane key and a call index. */
  type Minter = (string, int) -> string

  ghost predicate Injective(mint: Minter) {
    forall k1, i1, k2, i2 :: mint(k1, i1) == mint(k2, i2) ==> k1 == k2 && i1 == i2
  }

  datatype Create = Create(namespace: string, faultKey: string, extractions: seq<Extraction>, entry: string) {
    function LaneKeyOf(): string { LaneKey(faultKey, extractions) }
    function Cursor(): string { Lane(namespace, LaneKeyOf()).CursorKey() }
  }

  datatype Reply = Minted(id: string) | NotAdmitted | BadIdentifier | Collision | LimitReached

  datatype Event =
    | Creating(create: Create)
    | Polling(namespace: string, id: string, index: int)
    | Cancelling(namespace: string, id: string, at: nat)
    | Admitting(namespace: string)         // any other request's admission
    | Calling(key: string)                 // any other request's claim
    | ResettingIn(namespace: string)       // counters and records of one namespace, together
    | ResettingAll

  function Admitted(s: System, c: Create): Engine.State { Engine.Admit(s.engine, Effective(c.namespace)) }

  /** The fault decision a create claims, and the record it would keep. */
  function Claim(s: System, c: Create): Engine.Decision { Engine.Answer(Admitted(s, c), c.Cursor()) }

  function Derived(mint: Minter, s: System, c: Create): Job {
    var index := Claim(s, c).index;
    Job(mint(c.LaneKeyOf(), index), Effective(c.namespace), c.entry, c.LaneKeyOf(), index, 0, false, 0)
  }

  function ReplyTo(mint: Minter, s: System, c: Create): Reply {
    var job := Derived(mint, s, c);
    if !Engine.Admits(s.engine, Effective(c.namespace)) then NotAdmitted
    else if !ValidJobID(job.id) then BadIdentifier
    else if !Commits(Claim(s, c).attempt) then Minted(job.id)
    else match CreateReply(s.jobs, s.bound, job)
      case Created => Minted(job.id)
      case Duplicate => Collision
      case Full => LimitReached
  }

  /** What every create is answered, from the engine and the store as it found them: refused without a
      slot for its namespace, or for an identifier nobody could poll; and, under an attempt that keeps
      jobs, refused for an identifier already live and then for a full namespace. */
  predicate AnswersCreate(mint: Minter, s: System, c: Create, reply: Reply) {
    var ns, d := Effective(c.namespace), Claim(s, c);
    var id := mint(c.LaneKeyOf(), d.index);
    var admitted := ns == DEFAULT_NAMESPACE || ns in s.engine.live || |s.engine.live| < s.engine.maxNamespaces;
    var records := d.attempt.None? || d.attempt.value.DeliversBody() || d.attempt.value.accepted;
    var live, full := Find(s.jobs, ns, id).Some?, s.bound > 0 && |Live(s.jobs, ns)| >= s.bound;
    && (reply.NotAdmitted? <==> !admitted)
    && (reply.BadIdentifier? <==> admitted && !ValidJobID(id))
    && (reply.Collision? <==> admitted && ValidJobID(id) && records && live)
    && (reply.LimitReached? <==> admitted && ValidJobID(id) && records && !live && full)
    && (reply.Minted? ==> reply.id == id)
  }

  predicate Keeps(mint: Minter, s: System, c: Create) {
    ReplyTo(mint, s, c).Minted? && Commits(Claim(s, c).attempt)
  }

  /** The claim always happens; the record does not. */
  function AfterCreate(mint: Minter, s: System, c: Create): System {
    if !Engine.Admits(s.engine, Effective(c.namespace)) then s
    else
      var job := Derived(mint, s, c);
      var engine := Engine.AfterNext(Admitted(s, c), c.Cursor());
      s.(engine := engine, jobs := if Keeps(mint, s, c) then Put(s.jobs, job.namespace, job.id, job) else s.jobs)
  }

  /** The store after a create: the one record of a create that minted under an attempt that keeps jobs,
      and nothing else. */
  predicate FilesCreate(s: System, c: Create, reply: Reply, jobs: Records) {
    var ns, d := Effective(c.namespace), Claim(s, c);
    var records := d.attempt.None? || d.attempt.value.DeliversBody() || d.attempt.value.accepted;
    jobs == if !reply.Minted? || !records then s.jobs
            else Put(s.jobs, ns, reply.id, Job(reply.id, ns, c.entry, c.LaneKeyOf(), d.index, 0, false, 0))
  }

  lemma CreatesAreAnswered(mint: Minter, s: System, c: Create)
    ensures AnswersCreate(mint, s, c, ReplyTo(mint, s, c))
  {
    hide Claim, ValidJobID, Create.LaneKeyOf;
  }

  lemma CreatesAreFiled(mint: Minter, s: System, c: Create)
    ensures FilesCreate(s, c, ReplyTo(mint, s, c), AfterCreate(mint, s, c).jobs)
  {
    hide Claim, ValidJobID, Create.LaneKeyOf, Create.Cursor, Engine.AfterNext;
  }

  /** A well-filed namespace is refused as full at its bound exactly. */
  lemma FullAtTheBound(mint: Minter, s: System, c: Create)
    requires WellFiled(s.jobs, s.bound) && ReplyTo(mint, s, c).LimitReached?
    ensures s.bound > 0 && |Live(s.jobs, c.namespace)| == s.bound
  {
    hide Claim, ValidJobID, Create.LaneKeyOf, Engine.Admits, Commits;
  }

  function AfterLifecycle(s: System, namespace: string, id: string, f: Job -> Job): System {
    match Find(s.jobs, namespace, id)
    case None => s
    case Some(job) => s.(jobs := Put(s.jobs, namespace, id, f(job)))
  }

  function Apply(mint: Minter, s: System, e: Event): System {
    match e
    case Creating(c) => AfterCreate(mint, s, c)
    case Polling(ns, id, index) => AfterLifecycle(s, ns, id, job => Advanced(job, index))
    case Cancelling(ns, id, at) => AfterLifecycle(s, ns, id, job => MarkedAt(job, at))
    case Admitting(ns) => s.(engine := Engine.Admit(s.engine, Effective(ns)))
    case Calling(key) => s.(engine := Engine.AfterNext(s.engine, key))
    case ResettingIn(ns) =>
      s.(engine := Engine.AfterResetIn(s.engine, ns), jobs := s.jobs - {Effective(ns)})
    case ResettingAll => s.(engine := Engine.AfterReset(s.engine), jobs := map[])
  }

  function Run(mint: Minter, s: System, es: seq<Event>): System {
    if es == [] then s else Apply(mint, Run(mint, s, es[..|es| - 1]), es[|es| - 1])
  }

  /** A create on a registered route of a request whose namespace was resolved. */
  predicate Routed(engine: Engine.State, c: Create) {
    && (c.namespace == "" || ValidNamespace(c.namespace))
    && PlainKey(c.faultKey) && c.faultKey in engine.plans
  }

  predicate AllRouted(engine: Engine.State, es: seq<Event>) {
    forall i | 0 <= i < |es| && es[i].Creating? :: Routed(engine, es[i].create)
  }

  // ---- the invariant ----

  /** A live record's identifier is the one its lane and index derive, and its index is one the lane's
      counter has already handed out. */
  ghost predicate Backed(mint: Minter, engine: Engine.State, job: Job) {
    && (job.namespace == DEFAULT_NAMESPACE || ValidNamespace(job.namespace))
    && !ReadsAsScoped(job.laneKey)
    && job.id == mint(job.laneKey, job.createIndex)
    && 0 <= job.createIndex < Engine.Count(engine, Lane(job.namespace, job.laneKey).CursorKey())
  }

  ghost predicate Inv(mint: Minter, s: System) {
    && Engine.Valid(s.engine) && WellFiled(s.jobs, s.bound)
    && forall ns, id | Find(s.jobs, ns, id).Some? :: Backed(mint, s.engine, Find(s.jobs, ns, id).value)
  }

  lemma CursorNamespace(namespace: string, laneKey: string)
    requires (namespace == DEFAULT_NAMESPACE || ValidNamespace(namespace)) && !ReadsAsScoped(laneKey)
    ensures NamespaceOf(Lane(namespace, laneKey).CursorKey()) == namespace
  {
    SplitRecoversExactly(Lane(namespace, laneKey));
  }

  /** A routed, admitted create is always served a counter: its index is its lane's call count. */
  lemma ClaimIsCounted(s: System, c: Create)
    requires Engine.Valid(s.engine) && Routed(s.engine, c) && Engine.Admits(s.engine, Effective(c.namespace))
    ensures Claim(s, c).index == Engine.Count(s.engine, c.Cursor()) >= 0
    ensures Engine.Serves(Admitted(s, c), c.Cursor()) && Engine.Valid(Admitted(s, c))
    ensures Lane(Effective(c.namespace), c.LaneKeyOf()).CursorKey() == c.Cursor()
    ensures !ReadsAsScoped(c.LaneKeyOf())
  {
    EngineRuns.AdmitKeepsValid(s.engine, Effective(c.namespace));
    EngineRuns.OwnFaultKeyIsRecovered(Admitted(s, c), c.namespace, c.faultKey, c.extractions);
    ComposedKeysAreUnscoped(c.faultKey, c.extractions);
  }

  /** A live record's identifier is not the one the next call of a lane will derive. */
  lemma NextIdentifierIsNew(mint: Minter, engine: Engine.State, other: Job, laneKey: string)
    requires Injective(mint) && Backed(mint, engine, other)
    ensures other.id != mint(laneKey, Engine.Count(engine, Lane(other.namespace, laneKey).CursorKey()))
  {
    hide Engine.Count, ReadsAsScoped;
    var index := Engine.Count(engine, Lane(other.namespace, laneKey).CursorKey());
    assert mint(other.laneKey, other.createIndex) == mint(laneKey, index)
      ==> other.laneKey == laneKey && other.createIndex == index;
  }

  /** Create never meets a duplicate: an identifier already live would name this lane and this very
      index, which the counter has only now handed out. */
  lemma NoCollision(mint: Minter, s: System, c: Create)
    requires Injective(mint) && Inv(mint, s) && Routed(s.engine, c)
    ensures !ReplyTo(mint, s, c).Collision?
  {
    if Engine.Admits(s.engine, Effective(c.namespace)) {
      ClaimIsCounted(s, c);
      var job := Derived(mint, s, c);
      forall id | Find(s.jobs, job.namespace, id).Some? ensures id != job.id {
        var other := Find(s.jobs, job.namespace, id).value;
        assert Backed(mint, s.engine, other);
        NextIdentifierIsNew(mint, s.engine, other, c.LaneKeyOf());
      }
      assert Find(s.jobs, job.namespace, job.id).None?;
    }
  }

  lemma CountsRise(mint: Minter, s: System, t: Engine.State)
    requires Inv(mint, s)
    requires forall key :: Engine.Count(s.engine, key) <= Engine.Count(t, key)
    ensures forall ns, id | Find(s.jobs, ns, id).Some? :: Backed(mint, t, Find(s.jobs, ns, id).value)
  {
    hide Engine.Count, ReadsAsScoped;
    forall ns, id | Find(s.jobs, ns, id).Some? ensures Backed(mint, t, Find(s.jobs, ns, id).value) {
      assert Backed(mint, s.engine, Find(s.jobs, ns, id).value);
    }
  }

  lemma NextOnlyRises(e: Engine.State, k: string)
    requires Engine.Valid(e)
    ensures forall key :: Engine.Count(e, key) <= Engine.Count(Engine.AfterNext(e, k), key)
  {
    forall key { EngineRuns.NextCounts(e, k, key); }
  }

  lemma KeptRecordFits(mint: Minter, s: System, c: Create)
    requires Keeps(mint, s, c)
    ensures var job := Derived(mint, s, c);
      && Effective(job.namespace) == job.namespace
      && (s.bound == 0 || |Live(s.jobs, job.namespace)| < s.bound)
  {
    hide Claim, Commits, Admitted, ValidJobID, Engine.Admits;
  }

  /** The record a create keeps is backed by the counter its own claim has just moved. */
  lemma NewRecordIsBacked(mint: Minter, s: System, c: Create)
    requires Inv(mint, s) && Routed(s.engine, c) && Engine.Admits(s.engine, Effective(c.namespace))
    ensures Backed(mint, Engine.AfterNext(Admitted(s, c), c.Cursor()), Derived(mint, s, c))
  {
    hide Claim, Engine.AfterNext, Engine.Count, Engine.Valid, Create.LaneKeyOf, ReadsAsScoped, Engine.Admits;
    ClaimIsCounted(s, c);
    AdmittingCountsNothing(s, c);
    EngineRuns.NextCounts(Admitted(s, c), c.Cursor(), c.Cursor());
  }

  lemma CreateKeepsInv(mint: Minter, s: System, c: Create)
    requires Inv(mint, s) && Routed(s.engine, c)
    ensures Inv(mint, AfterCreate(mint, s, c))
  {
    hide Keeps, Claim, Engine.Valid, Engine.Count, Engine.AfterNext, ReadsAsScoped, Create.LaneKeyOf;
    if Engine.Admits(s.engine, Effective(c.namespace)) {
      ClaimIsCounted(s, c);
      var job := Derived(mint, s, c);
      var t := AfterCreate(mint, s, c);
      EngineRuns.NextKeepsValid(Admitted(s, c), c.Cursor());
      NextOnlyRises(Admitted(s, c), c.Cursor());
      AdmittingCountsNothing(s, c);
      CountsRise(mint, s, t.engine);
      if Keeps(mint, s, c) {
        KeptRecordFits(mint, s, c);
        PutKeepsFiling(s.jobs, s.bound, job);
        PutFinds(s.jobs, job.namespace, job.id, job);
        NewRecordIsBacked(mint, s, c);
      }
    }
  }

  lemma AdmittingCountsNothing(s: System, c: Create)
    ensures forall key :: Engine.Count(Admitted(s, c), key) == Engine.Count(s.engine, key)
  {
  }

  lemma LifecycleKeepsInv(mint: Minter, s: System, namespace: string, id: string, f: Job -> Job)
    requires Inv(mint, s)
    requires forall job :: var g := f(job);
      && g.id == job.id && g.namespace == job.namespace && g.laneKey == job.laneKey && g.createIndex == job.createIndex
    ensures Inv(mint, AfterLifecycle(s, namespace, id, f))
    ensures forall ns, i :: Find(AfterLifecycle(s, namespace, id, f).jobs, ns, i).Some? == Find(s.jobs, ns, i).Some?
  {
    hide Engine.Valid, ReadsAsScoped, Engine.Count;
    if Find(s.jobs, namespace, id).Some? {
      var job := Find(s.jobs, namespace, id).value;
      var g := f(job);
      assert Backed(mint, s.engine, job) && job.namespace == Effective(namespace) && job.id == id;
      PutKeepsFiling(s.jobs, s.bound, g);
      PutFinds(s.jobs, namespace, id, g);
      assert Put(s.jobs, namespace, id, g) == Put(s.jobs, g.namespace, g.id, g);
    }
  }

  lemma ResetKeepsInv(mint: Minter, s: System, namespace: string)
    requires Inv(mint, s)
    ensures Inv(mint, Apply(mint, s, ResettingIn(namespace)))
  {
    var t := Apply(mint, s, ResettingIn(namespace));
    EngineRuns.ResetInKeepsValid(s.engine, namespace);
    forall ns, id | Find(t.jobs, ns, id).Some? ensures Backed(mint, t.engine, Find(t.jobs, ns, id).value) {
      var job := Find(s.jobs, ns, id).value;
      assert Find(t.jobs, ns, id) == Some(job) && Backed(mint, s.engine, job);
      CursorNamespace(job.namespace, job.laneKey);
      EngineRuns.StepCounts(s.engine, EngineRuns.ResetIn(namespace), Lane(job.namespace, job.laneKey).CursorKey());
    }
  }

  lemma CallingKeepsInv(mint: Minter, s: System, key: string)
    requires Inv(mint, s)
    ensures Inv(mint, Apply(mint, s, Calling(key)))
  {
    EngineRuns.NextKeepsValid(s.engine, key);
    NextOnlyRises(s.engine, key);
    CountsRise(mint, s, Engine.AfterNext(s.engine, key));
  }

  lemma AdmittingKeepsInv(mint: Minter, s: System, namespace: string)
    requires Inv(mint, s)
    ensures Inv(mint, Apply(mint, s, Admitting(namespace)))
  {
    hide Engine.Valid;
    EngineRuns.AdmitKeepsValid(s.engine, Effective(namespace));
    CountsRise(mint, s, Engine.Admit(s.engine, Effective(namespace)));
  }

  lemma ResetAllKeepsInv(mint: Minter, s: System)
    requires Inv(mint, s)
    ensures Inv(mint, Apply(mint, s, ResettingAll))
  {
    EngineRuns.ResetKeepsValid(s.engine);
  }

  lemma StepKeepsInv(mint: Minter, s: System, e: Event)
    requires Inv(mint, s) && (e.Creating? ==> Routed(s.engine, e.create))
    ensures Inv(mint, Apply(mint, s, e))
  {
    hide Inv, Routed;
    match e
    case Creating(c) => CreateKeepsInv(mint, s, c);
    case Polling(ns, id, index) => LifecycleKeepsInv(mint, s, ns, id, job => Advanced(job, index));
    case Cancelling(ns, id, at) => LifecycleKeepsInv(mint, s, ns, id, job => MarkedAt(job, at));
    case Admitting(ns) => AdmittingKeepsInv(mint, s, ns);
    case Calling(key) => CallingKeepsInv(mint, s, key);
    case ResettingIn(ns) => ResetKeepsInv(mint, s, ns);
    case ResettingAll => ResetAllKeepsInv(mint, s);
  }

  lemma StepKeepsSetup(mint: Minter, s: System, e: Event)
    ensures Apply(mint, s, e).engine.plans == s.engine.plans && Apply(mint, s, e).bound == s.bound
  {
    hide AfterCreate, Find, Put, Engine.AfterNext, Engine.Zeroed, Engine.Count, Advanced, MarkedAt;
    match e
    case Creating(c) => CreateKeepsSetup(mint, s, c);
    case Calling(key) => NextKeepsPlans(s.engine, key);
    case _ =>
  }

  lemma CreateKeepsSetup(mint: Minter, s: System, c: Create)
    ensures AfterCreate(mint, s, c).engine.plans == s.engine.plans && AfterCreate(mint, s, c).bound == s.bound
  {
    hide Keeps, Derived, Put, Engine.AfterNext, Create.Cursor;
    NextKeepsPlans(Admitted(s, c), c.Cursor());
  }

  lemma NextKeepsPlans(e: Engine.State, key: string)
    ensures Engine.AfterNext(e, key).plans == e.plans
  {
    hide Engine.Serves, Engine.Count, Engine.Admits, NamespaceOf;
  }

  /** A process that has just started: valid engine, no records. */
  ghost predicate Started(s: System) { Engine.Valid(s.engine) && s.jobs == map[] }

  lemma {:induction false} RunKeepsInv(mint: Minter, s: System, es: seq<Event>)
    requires Started(s) && AllRouted(s.engine, es)
    ensures Inv(mint, Run(mint, s, es))
    ensures Run(mint, s, es).engine.plans == s.engine.plans && Run(mint, s, es).bound == s.bound
  {
    if es != [] {
      var before := es[..|es| - 1];
      assert forall i | 0 <= i < |before| :: before[i] == es[i];
      RunKeepsInv(mint, s, before);
      StepKeepsInv(mint, Run(mint, s, before), es[|es| - 1]);
      StepKeepsSetup(mint, Run(mint, s, before), es[|es| - 1]);
    }
  }

  // ---- main results ----

  /** In every run, each live job's create index is one its lane already handed out, no namespace is
      over its bound, and the next create of any registered route meets no duplicate. */
  lemma LiveJobsAreBacked(mint: Minter, s: System, es: seq<Event>, ns: string, id: string, c: Create)
    requires Injective(mint) && Started(s) && AllRouted(s.engine, es) && Routed(s.engine, c)
    ensures var t := Run(mint, s, es);
      && (Find(t.jobs, ns, id).Some? ==>
            var job := Find(t.jobs, ns, id).value;
            && job.id == id && job.namespace == Effective(ns)
            && 0 <= job.createIndex < Engine.Count(t.engine, Lane(job.namespace, job.laneKey).CursorKey()))
      && (s.bound > 0 ==> |Live(t.jobs, ns)| <= s.bound)
      && !ReplyTo(mint, t, c).Collision?
  {
    RunKeepsInv(mint, s, es);
    var t := Run(mint, s, es);
    NoCollision(mint, t, c);
    if Find(t.jobs, ns, id).Some? { assert Backed(mint, t.engine, Find(t.jobs, ns, id).value); }
  }

  predicate Drops(e: Event, ns: string) {
    e.ResettingAll? || (e.ResettingIn? && Effective(e.namespace) == Effective(ns))
  }

  /** The create at position n minted this identifier in this namespace, its attempt commits, and no
      later reset covers it. */
  predicate KeptAt(mint: Minter, s: System, es: seq<Event>, n: nat, ns: string, id: string) {
    && n < |es| && es[n].Creating?
    && Effective(es[n].create.namespace) == Effective(ns)
    && ReplyTo(mint, Run(mint, s, es[..n]), es[n].create) == Minted(id)
    && Commits(Claim(Run(mint, s, es[..n]), es[n].create).attempt)
    && forall m | n < m < |es| :: !Drops(es[m], ns)
  }

  ghost predicate Kept(mint: Minter, s: System, es: seq<Event>, ns: string, id: string) {
    exists n :: KeptAt(mint, s, es, n, ns, id)
  }

  lemma KeptStep(mint: Minter, s: System, es: seq<Event>, ns: string, id: string)
    requires es != []
    ensures var before, last := es[..|es| - 1], es[|es| - 1];
      Kept(mint, s, es, ns, id) <==>
        KeptAt(mint, s, es, |es| - 1, ns, id) || (Kept(mint, s, before, ns, id) && !Drops(last, ns))
  {
    hide Run, ReplyTo, Claim, Commits;
    var before := es[..|es| - 1];
    if Kept(mint, s, es, ns, id) {
      var n: nat :| KeptAt(mint, s, es, n, ns, id);
      if n < |before| {
        assert before[..n] == es[..n];
        assert KeptAt(mint, s, before, n, ns, id);
      }
    }
    if Kept(mint, s, before, ns, id) && !Drops(es[|es| - 1], ns) {
      var n: nat :| KeptAt(mint, s, before, n, ns, id);
      assert before[..n] == es[..n];
      assert KeptAt(mint, s, es, n, ns, id);
    }
  }

  lemma StepRecords(mint: Minter, s: System, e: Event, ns: string, id: string)
    requires Inv(mint, s)
    ensures Find(Apply(mint, s, e).jobs, ns, id).Some? <==>
      || (e.Creating? && Keeps(mint, s, e.create) && Effective(e.create.namespace) == Effective(ns)
          && ReplyTo(mint, s, e.create) == Minted(id))
      || (Find(s.jobs, ns, id).Some? && !Drops(e, ns))
  {
    hide Inv, Engine.AfterNext, Engine.AfterReset, Engine.AfterResetIn, Keeps, ReplyTo, AfterCreate, AfterLifecycle;
    match e
    case Creating(c) => CreateRecords(mint, s, c, ns, id);
    case Polling(n, i, index) => LifecycleKeepsInv(mint, s, n, i, job => Advanced(job, index));
    case Cancelling(n, i, at) => LifecycleKeepsInv(mint, s, n, i, job => MarkedAt(job, at));
    case _ =>
  }

  lemma CreateRecords(mint: Minter, s: System, c: Create, ns: string, id: string)
    ensures Find(AfterCreate(mint, s, c).jobs, ns, id).Some? <==>
      || (Keeps(mint, s, c) && Effective(c.namespace) == Effective(ns) && ReplyTo(mint, s, c) == Minted(id))
      || Find(s.jobs, ns, id).Some?
  {
    hide Claim, Engine.AfterNext, Commits, CreateReply;
    var job := Derived(mint, s, c);
    if Keeps(mint, s, c) { PutFinds(s.jobs, job.namespace, job.id, job); }
  }

  /** A record exists exactly for the creates that were not refused, whose attempt commits, and that
      no reset has covered since. */
  lemma {:induction false} RecordsAreExactlyTheKeptCreates(
      mint: Minter, s: System, es: seq<Event>, ns: string, id: string)
    requires Started(s) && AllRouted(s.engine, es)
    ensures Find(Run(mint, s, es).jobs, ns, id).Some? <==> Kept(mint, s, es, ns, id)
  {
    if es != [] {
      var before, last := es[..|es| - 1], es[|es| - 1];
      assert forall i | 0 <= i < |before| :: before[i] == es[i];
      RecordsAreExactlyTheKeptCreates(mint, s, before, ns, id);
      RunKeepsInv(mint, s, before);
      KeptStep(mint, s, es, ns, id);
      StepRecords(mint, Run(mint, s, before), last, ns, id);
      assert KeptAt(mint, s, es, |es| - 1, ns, id) <==>
        last.Creating? && Keeps(mint, Run(mint, s, before), last.create)
        && Effective(last.create.namespace) == Effective(ns)
        && ReplyTo(mint, Run(mint, s, before), last.create) == Minted(id);
    }
  }

  /** A claim the engine does not serve is answered -1, and moves nothing but the admission. */
  lemma UnservedClaims(s: System, c: Create)
    requires !Engine.Serves(Admitted(s, c), c.Cursor())
    ensures Claim(s, c).index == -1 && Claim(s, c).attempt.None?
    ensures Engine.AfterNext(Admitted(s, c), c.Cursor()) == Admitted(s, c)
    ensures Engine.Admit(Admitted(s, c), Effective(c.namespace)) == Admitted(s, c)
    ensures Engine.Admits(s.engine, Effective(c.namespace)) ==> Engine.Admits(Admitted(s, c), Effective(c.namespace))
  {
    hide Engine.PlanKey, Engine.Serves, Create.Cursor, NamespaceOf;
  }

  /** So the next create of the same lane re-mints the same identifier. */
  lemma UnservedCreatesCollide(mint: Minter, s: System, c: Create)
    requires Engine.Admits(s.engine, Effective(c.namespace)) && WellFiled(s.jobs, s.bound)
    requires !Engine.Serves(Admitted(s, c), c.Cursor()) && ReplyTo(mint, s, c).Minted?
    ensures ReplyTo(mint, AfterCreate(mint, s, c), c) == Collision
  {
    hide Engine.Answer, Engine.AfterNext, Engine.Admit, Engine.Admits, Engine.Serves, Create.Cursor, Create.LaneKeyOf,
         ValidJobID, WellFiled;
    UnservedClaims(s, c);
    var job := Derived(mint, s, c);
    PutFinds(s.jobs, job.namespace, job.id, job);
    assert Claim(AfterCreate(mint, s, c), c) == Claim(s, c);
  }

  lemma ServedClaims(s: System, c: Create)
    requires Engine.Valid(s.engine) && Engine.Serves(Admitted(s, c), c.Cursor())
    ensures Claim(s, c).index == Engine.Count(s.engine, c.Cursor())
    ensures var e := Engine.AfterNext(Admitted(s, c), c.Cursor());
      && Engine.Valid(e) && Engine.Count(e, c.Cursor()) == Engine.Count(s.engine, c.Cursor()) + 1
      && Engine.Serves(Engine.Admit(e, Effective(c.namespace)), c.Cursor())
  {
    hide Engine.PlanFor, PartsOf, Create.Cursor, NamespaceOf;
    EngineRuns.AdmitKeepsValid(s.engine, Effective(c.namespace));
    EngineRuns.NextKeepsValid(Admitted(s, c), c.Cursor());
    EngineRuns.NextCounts(Admitted(s, c), c.Cursor(), c.Cursor());
  }

  /** A record from before a served create has an index below the one the create after it draws. */
  lemma OlderIdentifiersDiffer(mint: Minter, s: System, c: Create, id: string)
    requires Injective(mint) && Inv(mint, s) && Find(s.jobs, c.namespace, id).Some?
    ensures id != mint(c.LaneKeyOf(), Engine.Count(s.engine, c.Cursor()) + 1)
  {
    hide Engine.Count, Engine.Valid, Create.LaneKeyOf, ReadsAsScoped;
    var other, index := Find(s.jobs, c.namespace, id).value, Engine.Count(s.engine, c.Cursor()) + 1;
    assert Backed(mint, s.engine, other) && other.namespace == Effective(c.namespace) && other.id == id;
    assert mint(other.laneKey, other.createIndex) == mint(c.LaneKeyOf(), index) ==>
      other.laneKey == c.LaneKeyOf() && other.createIndex == index;
    assert Lane(other.namespace, c.LaneKeyOf()).CursorKey() == c.Cursor();
  }

  lemma ServedCreatesMove(mint: Minter, s: System, c: Create)
    requires Injective(mint) && Inv(mint, s) && Keeps(mint, s, c)
    requires Engine.Serves(Admitted(s, c), c.Cursor())
    ensures !ReplyTo(mint, AfterCreate(mint, s, c), c).Collision?
  {
    hide Engine.Serves, Engine.AfterNext, Engine.Admits, Engine.Admit, Engine.Count, Engine.Valid, Engine.Answer,
         Create.LaneKeyOf, Create.Cursor, ReadsAsScoped, Backed, WellFiled, ValidJobID, Find, Put, Commits, Keeps;
    ServedClaims(s, c);
    var t, job := AfterCreate(mint, s, c), Derived(mint, s, c);
    KeptIsWritten(mint, s, c);
    ServedClaims(t, c);
    var next := Derived(mint, t, c);
    assert mint(c.LaneKeyOf(), next.createIndex) == mint(c.LaneKeyOf(), job.createIndex) ==>
      next.createIndex == job.createIndex;
    if Find(s.jobs, c.namespace, next.id).Some? { OlderIdentifiersDiffer(mint, s, c, next.id); }
    PutFinds(s.jobs, job.namespace, job.id, job);
    NewIdentifiersAreAccepted(mint, t, c);
  }

  lemma KeptIsWritten(mint: Minter, s: System, c: Create)
    requires Keeps(mint, s, c)
    ensures var t, job := AfterCreate(mint, s, c), Derived(mint, s, c);
      && t.engine == Engine.AfterNext(Admitted(s, c), c.Cursor())
      && t.jobs == Put(s.jobs, job.namespace, job.id, job)
  {
    hide Put, Engine.AfterNext, Claim, Commits;
  }

  lemma NewIdentifiersAreAccepted(mint: Minter, s: System, c: Create)
    requires Find(s.jobs, c.namespace, Derived(mint, s, c).id).None?
    ensures !ReplyTo(mint, s, c).Collision?
  {
    hide Claim, Commits, ValidJobID, Engine.Admits;
  }

  /** A kept create, sent again: it collides with itself if and only if the engine serves its lane no
      counter, which for a key read in the create's own namespace is that no part of it is registered. */
  lemma RepeatedCreatesCollideExactlyWhenUnserved(mint: Minter, s: System, c: Create)
    requires Injective(mint) && Inv(mint, s) && Keeps(mint, s, c)
    ensures ReplyTo(mint, AfterCreate(mint, s, c), c).Collision? <==> !Engine.Serves(Admitted(s, c), c.Cursor())
    ensures NamespaceOf(c.Cursor()) == Effective(c.namespace) ==>
      (Engine.Serves(Admitted(s, c), c.Cursor()) <==> Engine.PlanKey(Admitted(s, c), c.Cursor()).Some?)
  {
    hide Engine.Serves, AfterCreate, Inv, Create.Cursor, Engine.Answer, Commits, ValidJobID;
    AdmittedToBegin(mint, s, c);
    if Engine.Serves(Admitted(s, c), c.Cursor()) {
      ServedCreatesMove(mint, s, c);
    } else {
      UnservedCreatesCollide(mint, s, c);
    }
    if NamespaceOf(c.Cursor()) == Effective(c.namespace) { ServedIsPlanned(s, c); }
  }

  lemma AdmittedToBegin(mint: Minter, s: System, c: Create)
    requires Inv(mint, s) && Keeps(mint, s, c)
    ensures Engine.Admits(s.engine, Effective(c.namespace)) && WellFiled(s.jobs, s.bound) && Engine.Valid(s.engine)
  {
    hide Claim, Commits, ValidJobID, CreateReply, Engine.Admits, Engine.Valid, WellFiled, Backed;
  }

  lemma ServedIsPlanned(s: System, c: Create)
    requires Engine.Valid(s.engine) && Engine.Admits(s.engine, Effective(c.namespace))
    requires NamespaceOf(c.Cursor()) == Effective(c.namespace)
    ensures Engine.Serves(Admitted(s, c), c.Cursor()) <==> Engine.PlanKey(Admitted(s, c), c.Cursor()).Some?
  {
    hide Create.Cursor, NamespaceOf, PartsOf;
  }

  // ---- a kept job resolves ----

  /** Whether a poll or a cancel of an identifier reaches its job: it was minted through the same entry. */
  predicate Resolves(jobs: Records, namespace: string, entry: string, id: string) {
    ValidJobID(id) && Find(jobs, namespace, id).Some? && Find(jobs, namespace, id).value.entry == entry
  }

  method ResolveJob(store: Registry, namespace: string, entry: string, id: string) returns (ok: bool)
    ensures ok == Resolves(store.jobs, namespace, entry, id)
  {
    if !ValidJobID(id) { return false; }
    var job := store.Lookup(namespace, id);
    return job.Some? && job.value.entry == entry;
  }

  lemma StepKeepsEntry(mint: Minter, s: System, e: Event, ns: string, id: string)
    requires Inv(mint, s) && Find(s.jobs, ns, id).Some? && !Drops(e, ns)
    ensures var jobs := Apply(mint, s, e).jobs;
      Find(jobs, ns, id).Some? && Find(jobs, ns, id).value.entry == Find(s.jobs, ns, id).value.entry
  {
    hide Inv, Engine.AfterNext, Engine.AfterReset, Engine.AfterResetIn, Claim, Commits, Put;
    match e
    case Creating(c) => CreateKeepsOthers(mint, s, c, ns, id);
    case Polling(n, i, index) =>
      if Find(s.jobs, n, i).Some? { PutFinds(s.jobs, n, i, Advanced(Find(s.jobs, n, i).value, index)); }
    case Cancelling(n, i, at) =>
      if Find(s.jobs, n, i).Some? { PutFinds(s.jobs, n, i, MarkedAt(Find(s.jobs, n, i).value, at)); }
    case _ =>
  }

  lemma CreateKeepsOthers(mint: Minter, s: System, c: Create, ns: string, id: string)
    requires Find(s.jobs, ns, id).Some?
    ensures Find(AfterCreate(mint, s, c).jobs, ns, id) == Find(s.jobs, ns, id)
  {
    hide Claim, Engine.AfterNext, Commits, Put, Admitted;
    var job := Derived(mint, s, c);
    if Keeps(mint, s, c) {
      KeptRecordFits(mint, s, c);
      PutFinds(s.jobs, job.namespace, job.id, job);
    }
  }

  /** In every run, the identifier a kept create answered with resolves through the entry that served it,
      and through no other, until a reset covers it. */
  lemma {:induction false} KeptIdentifiersResolve(
      mint: Minter, s: System, es: seq<Event>, n: nat, ns: string, id: string, entry: string)
    requires Started(s) && AllRouted(s.engine, es) && KeptAt(mint, s, es, n, ns, id)
    ensures Resolves(Run(mint, s, es).jobs, ns, entry, id) <==> entry == es[n].create.entry
    decreases |es|
  {
    hide ReplyTo, Claim, Commits, Keeps, ValidJobID;
    var before, last := es[..|es| - 1], es[|es| - 1];
    assert forall i | 0 <= i < |before| :: before[i] == es[i];
    MintedIsValid(mint, Run(mint, s, es[..n]), es[n].create);
    if n == |es| - 1 {
      KeptIsFiled(mint, Run(mint, s, before), last.create, ns, id);
    } else {
      assert before[..n] == es[..n];
      RunKeepsInv(mint, s, before);
      KeptIdentifiersResolve(mint, s, before, n, ns, id, es[n].create.entry);
      StepKeepsEntry(mint, Run(mint, s, before), last, ns, id);
    }
  }

  lemma MintedIsValid(mint: Minter, s: System, c: Create)
    ensures ReplyTo(mint, s, c).Minted? ==> ValidJobID(ReplyTo(mint, s, c).id)
  {
    hide ValidJobID, Claim, Commits;
  }

  lemma KeptIsFiled(mint: Minter, s: System, c: Create, ns: string, id: string)
    requires ReplyTo(mint, s, c) == Minted(id) && Commits(Claim(s, c).attempt)
    requires Effective(c.namespace) == Effective(ns)
    ensures var jobs := AfterCreate(mint, s, c).jobs;
      Find(jobs, ns, id).Some? && Find(jobs, ns, id).value.entry == c.entry
  {
    hide ValidJobID, Claim, Commits, Engine.AfterNext, Put;
    var job := Derived(mint, s, c);
    PutFinds(s.jobs, job.namespace, job.id, job);
  }

  // ---- the operations, on the engine and the store ----

  function Snapshot(engine: Engine.SetFaultEngine, store: Registry): System
    reads engine, store
  {
    System(engine.Now(), store.jobs, store.bound)
  }

  /** A create: admission, the claim, the derived identifier, and the record, refused for a bad
      identifier, a live one or a full namespace, and written only when the claim commits. */
  method MintJob(engine: Engine.SetFaultEngine, store: Registry, mint: Minter, c: Create) returns (reply: Reply)
    requires engine.plans.Keys == engine.counters.Keys && WellFiled(store.jobs, store.bound)
    modifies engine, store
    ensures Snapshot(engine, store) == AfterCreate(mint, old(Snapshot(engine, store)), c)
    ensures reply == ReplyTo(mint, old(Snapshot(engine, store)), c)
    ensures AnswersCreate(mint, old(Snapshot(engine, store)), c, reply)
    ensures reply.LimitReached? ==> |Live(old(store.jobs), c.namespace)| == store.bound
    ensures FilesCreate(old(Snapshot(engine, store)), c, reply, store.jobs)
  {
    hide Engine.Answer, Engine.AfterNext, Engine.Admit, Engine.Admits, Commits, ValidJobID, WellFiled, CreateReply,
         Find, Put, Create.Cursor, Create.LaneKeyOf, AnswersCreate, FilesCreate;
    ghost var s := Snapshot(engine, store);
    CreatesAreAnswered(mint, s, c);
    CreatesAreFiled(mint, s, c);
    if ReplyTo(mint, s, c).LimitReached? { FullAtTheBound(mint, s, c); }
    var admitted := engine.AdmitNamespace(c.namespace);
    if !admitted {
      RefusedAdmissionsChangeNothing(s.engine, Effective(c.namespace));
      return NotAdmitted;
    }
    AdmittingKeepsPlans(s.engine, Effective(c.namespace));
    var d := engine.Next(c.Cursor());
    var job := Job(mint(c.LaneKeyOf(), d.index), Effective(c.namespace), c.entry, c.LaneKeyOf(), d.index, 0, false, 0);
    assert job == Derived(mint, s, c);
    if !ValidJobID(job.id) { return BadIdentifier; }
    if !Commits(d.attempt) { return Minted(job.id); }
    var outcome, count := store.Create(job);
    match outcome
    case Created =>
      assert Recorded(job) == job;
      return Minted(job.id);
    case Duplicate => return Collision;
    case Full => return LimitReached;
  }

  lemma RefusedAdmissionsChangeNothing(e: Engine.State, ns: string)
    requires !Engine.Admits(e, ns)
    ensures Engine.Admit(e, ns) == e
  {
  }

  lemma AdmittingKeepsPlans(e: Engine.State, ns: string)
    ensures Engine.Admit(e, ns).plans == e.plans && Engine.Admit(e, ns).counters == e.counters
  {
  }

  /** A scoped reset drops counters and records of one namespace together. */
  method ResetNamespace(engine: Engine.SetFaultEngine, store: Registry, mint: Minter, namespace: string)
    modifies engine, store
    ensures Snapshot(engine, store) == Apply(mint, old(Snapshot(engine, store)), ResettingIn(namespace))
  {
    hide Engine.AfterResetIn;
    engine.ResetIn(namespace);
    store.ResetIn(namespace);
  }

  method ResetAll(engine: Engine.SetFaultEngine, store: Registry, mint: Minter)
    modifies engine, store
    ensures Snapshot(engine, store) == Apply(mint, old(Snapshot(engine, store)), ResettingAll)
  {
    hide Engine.AfterReset;
    engine.Reset();
    store.Reset();
  }
}
