/** Resolving every alias of a document in place, into a tree that shares nothing.  */
module AliasResolver {
  import opened Text
  import opened Aliases
  import opened AliasVisits

  const MAX_RESOLVED_NODES: nat := 1_000_000

  // ---- what a resolved node denotes ----

  /** Exactly the tree t, by content edges alone. */
  predicate Plain(g: Graph, id: nat, t: Tree)
    decreases t
  {
    match t
    case Nil => id == 0
    case Tree(_, _, _, _, dangling, kids) =>
      && id != 0 && id in g && t == TreeOf(g[id], dangling, kids)
      && match g[id].link
         case Alias(target) => target == 0 && dangling && kids == []
         case Content(items) =>
           !dangling && |items| == |kids| && forall i | 0 <= i < |items| :: Plain(g, items[i], kids[i])
  }

  /** A later state of one node: only content entries that were live aliases have changed. */
  predicate Later(g: Graph, n: Node, m: Node) {
    && m.(link := n.link) == n
    && match n.link
       case Alias(_) => m.link == n.link
       case Content(items) =>
         && m.link.Content? && |m.link.items| == |items|
         && forall i | 0 <= i < |items| :: m.link.items[i] == items[i] || LiveAlias(g, items[i])
  }

  predicate Evolves(g: Graph, h: Graph) { forall k | k in g :: k in h && Later(g, g[k], h[k]) }

  lemma PlainIsNoAlias(g: Graph, id: nat, t: Tree)
    requires Plain(g, id, t)
    ensures !LiveAlias(g, id)
  {
  }

  /** What is resolved stays as it is. */
  lemma {:induction false} PlainStays(g: Graph, h: Graph, id: nat, t: Tree)
    requires Plain(g, id, t) && Evolves(g, h)
    ensures Plain(h, id, t)
    decreases t
  {
    if t.Tree? && g[id].link.Content? {
      var items := g[id].link.items;
      assert Later(g, g[id], h[id]);
      forall i | 0 <= i < |items| ensures h[id].link.items[i] == items[i] && Plain(h, items[i], t.kids[i]) {
        PlainIsNoAlias(g, items[i], t.kids[i]);
        PlainStays(g, h, items[i], t.kids[i]);
      }
    }
  }

  lemma EvolvesOn(g: Graph, h: Graph, j: Graph)
    requires Closed(g) && Evolves(g, h) && Evolves(h, j)
    ensures Evolves(g, j)
  {
    forall k | k in g ensures k in j && Later(g, g[k], j[k]) {
      assert Later(g, g[k], h[k]) && Later(h, h[k], j[k]);
      if g[k].link.Content? {
        forall i | 0 <= i < |g[k].link.items|
          ensures j[k].link.items[i] == g[k].link.items[i] || LiveAlias(g, g[k].link.items[i])
        {
          var c := g[k].link.items[i];
          assert c in g[k].link.items && Refers(g, c);
          if c in g { assert Later(g, g[c], h[c]); }
        }
      }
    }
  }

  // ---- the state against the document it started from ----

  /** Nodes from first on are copies, and refer only to copies. */
  predicate Copies(g: Graph, first: nat) {
    forall k | k in g && k >= first ::
      match g[k].link
      case Alias(target) => target == 0
      case Content(items) => forall c | c in items :: c == 0 || c >= first
  }

  /** A copy standing where an alias did, denoting what the alias did. */
  ghost predicate StandsFor(origin: Graph, g: Graph, first: nat, was: nat, now: nat) {
    now >= first && now != 0 && exists t :: Unfolds(origin, was, t) && Plain(g, now, t)
  }

  /** Every original node is what it was but for content entries that copies now stand in for. */
  ghost predicate Simulates(origin: Graph, g: Graph, first: nat) {
    forall k | k in origin ::
      && k in g && g[k].(link := origin[k].link) == origin[k]
      && match origin[k].link
         case Alias(_) => g[k].link == origin[k].link
         case Content(items) =>
           && g[k].link.Content? && |g[k].link.items| == |items|
           && forall i | 0 <= i < |items| ::
                g[k].link.items[i] == items[i] || StandsFor(origin, g, first, items[i], g[k].link.items[i])
  }

  /** One state holds another's nodes untouched. */
  predicate Extends(g: Graph, h: Graph) { forall k | k in g :: k in h && h[k] == g[k] }

  lemma ExtendsEvolves(g: Graph, h: Graph)
    requires Extends(g, h)
    ensures Evolves(g, h)
  {
  }

  lemma SimulatesStill(origin: Graph, g: Graph, h: Graph, first: nat)
    requires Simulates(origin, g, first) && Extends(g, h)
    ensures Simulates(origin, h, first)
  {
    ExtendsEvolves(g, h);
    forall was, now | StandsFor(origin, g, first, was, now) ensures StandsFor(origin, h, first, was, now) {
      StandsStill(origin, g, h, first, was, now);
    }
  }

  lemma StandsStill(origin: Graph, g: Graph, h: Graph, first: nat, was: nat, now: nat)
    requires StandsFor(origin, g, first, was, now) && Evolves(g, h)
    ensures StandsFor(origin, h, first, was, now)
  {
    var t :| Unfolds(origin, was, t) && Plain(g, now, t);
    PlainStays(g, h, now, t);
  }

  /** No node is content twice. */
  predicate Placed(g: Graph) {
    forall a, b, i: nat, j: nat |
        && a in g && b in g && g[a].link.Content? && g[b].link.Content?
        && i < |g[a].link.items| && j < |g[b].link.items|
        && g[a].link.items[i] == g[b].link.items[j] != 0 ::
      a == b && i == j
  }

  predicate Unplaced(g: Graph, c: nat) { forall a | a in g && g[a].link.Content? :: c !in g[a].link.items }

  function With(n: Node, i: nat, c: nat): Node
    requires n.link.Content? && i < |n.link.items|
  {
    n.(link := Content(n.link.items[i := c]))
  }

  /** Writing a copy over a live alias keeps everything. */
  lemma Overwrite(origin: Graph, g: Graph, first: nat, k: nat, i: nat, c: nat, t: Tree)
    requires Simulates(origin, g, first) && k in origin && k < first && g[k].link.Content? && i < |g[k].link.items|
    requires var e := g[k].link.items[i];
      LiveAlias(g, e) && e < first && Unfolds(origin, e, t) && Plain(g, c, t) && c >= first && c != 0
    ensures var h := g[k := With(g[k], i, c)];
      Evolves(g, h) && Simulates(origin, h, first) && Plain(h, c, t)
  {
    var h := g[k := With(g[k], i, c)];
    assert Evolves(g, h);
    PlainStays(g, h, c, t);
    forall was, now | StandsFor(origin, g, first, was, now) ensures StandsFor(origin, h, first, was, now) {
      StandsStill(origin, g, h, first, was, now);
    }
    assert StandsFor(origin, h, first, g[k].link.items[i], c);
  }

  lemma OverwritePlaces(g: Graph, k: nat, i: nat, c: nat)
    requires Placed(g) && Unplaced(g, c) && k in g && g[k].link.Content? && i < |g[k].link.items|
    ensures Placed(g[k := With(g[k], i, c)])
  {
  }

  /** Allocation since m: old nodes untouched, new ones from m on referring only to new ones. */
  predicate Grown(g: Graph, h: Graph, m: nat, next: nat) {
    && Extends(g, h)
    && Copies(h, m)
    && forall k | k in h :: k < next && (k in g || k >= m)
  }

  lemma GrownOn(g: Graph, h: Graph, j: Graph, m: nat, n: nat, next: nat)
    requires Grown(g, h, m, n) && Grown(h, j, n, next) && m <= n <= next
    ensures Grown(g, j, m, next)
  {
  }

  /** The kids of a node denote theirs without it. */
  predicate Apart(g: Graph, id: nat, t: Tree) {
    t.Tree? ==>
      && id != 0 && id in g && t == TreeOf(g[id], t.dangling, t.kids)
      && match g[id].link
         case Alias(target) => target == 0 && t.dangling && t.kids == []
         case Content(items) =>
           && !t.dangling && |items| == |t.kids|
           && forall i | 0 <= i < |items| :: Plain(g - {id}, items[i], t.kids[i])
  }

  lemma PartIsPlain(g: Graph, id: nat, t: Tree)
    requires Apart(g, id, t) && (t.Nil? ==> id == 0)
    ensures Plain(g, id, t)
  {
    if t.Tree? && g[id].link.Content? {
      assert Evolves(g - {id}, g);
      forall i | 0 <= i < |t.kids| ensures Plain(g, g[id].link.items[i], t.kids[i]) {
        PlainStays(g - {id}, g, g[id].link.items[i], t.kids[i]);
      }
    }
  }

  lemma NilIsAlone(g: Graph, t: Tree)
    requires Plain(g, 0, t)
    ensures t.Nil? && Apart(g, 0, Erased(t))
  {
  }

  lemma ErasedNil(t: Tree)
    ensures Erased(t).Nil? <==> t.Nil?
  {
  }

  lemma GrownNow(g: Graph, next: nat)
    requires forall k | k in g :: k < next
    ensures Grown(g, g, next, next)
  {
  }

  lemma GrownBounds(g: Graph, h: Graph, m: nat, next: nat)
    requires Grown(g, h, m, next)
    ensures forall k | k in h :: k < next
  {
  }

  lemma GrownKeeps(g: Graph, h: Graph, m: nat, next: nat, id: nat, t: Tree)
    requires Grown(g, h, m, next)
    ensures Plain(g, id, t) ==> Plain(h, id, t)
  {
    ExtendsEvolves(g, h);
    if Plain(g, id, t) { PlainStays(g, h, id, t); }
  }

  lemma KidsArePlain(g: Graph, id: nat, t: Tree)
    requires Plain(g, id, t) && id != 0
    ensures t.Tree? && id in g
    ensures g[id].link.Content? ==>
      |g[id].link.items| == |t.kids| && forall i | 0 <= i < |t.kids| :: Plain(g, g[id].link.items[i], t.kids[i])
  {
  }

  lemma KidsCost(g: Graph, id: nat, t: Tree)
    requires Plain(g, id, t) && id != 0
    ensures Size(t) == 1 + Sizes(t.kids) && Sizes(t.kids[..0]) == 0
    ensures g[id].link.Alias? ==> Sizes(t.kids) == 0
  {
  }

  /** The copies made so far of a node's kids. */
  predicate CopiesOf(g: Graph, copies: seq<nat>, kids: seq<Tree>, m: nat) {
    |copies| <= |kids| &&
    forall j | 0 <= j < |copies| :: Plain(g, copies[j], Erased(kids[j])) && (copies[j] == 0 || copies[j] >= m)
  }

  lemma CopiesKept(g: Graph, h: Graph, n: nat, next: nat, copies: seq<nat>, kids: seq<Tree>, m: nat)
    requires Grown(g, h, n, next) && CopiesOf(g, copies, kids, m)
    ensures CopiesOf(h, copies, kids, m)
  {
    forall j | 0 <= j < |copies| ensures Plain(h, copies[j], Erased(kids[j])) {
      GrownKeeps(g, h, n, next, copies[j], Erased(kids[j]));
    }
  }

  lemma AllocatedCopy(g: Graph, h: Graph, m: nat, next: nat, id: nat, out: Node, t: Tree)
    requires Closed(h) && Grown(g, h, m, next) && 0 < m <= next && Plain(g, id, t) && id != 0
    requires out.(link := g[id].link) == g[id].(anchor := "")
    requires g[id].link.Alias? ==> out.link == g[id].link
    requires g[id].link.Content? ==>
      out.link.Content? && |out.link.items| == |t.kids| && CopiesOf(h, out.link.items, t.kids, m)
    ensures var j := h[next := out];
      Closed(j) && Grown(g, j, m, next + 1) && Apart(j, next, Erased(t))
  {
    var j := h[next := out];
    assert j - {next} == h;
    forall c | out.link.Content? && c in out.link.items ensures Refers(h, c) && (c == 0 || c >= m) {
      var i :| 0 <= i < |out.link.items| && out.link.items[i] == c;
      assert Plain(h, c, Erased(t.kids[i]));
    }
  }

  /** Copies not yet placed anywhere, no two the same. */
  predicate Loose(g: Graph, copies: seq<nat>, next: nat) {
    && (forall j | 0 <= j < |copies| && copies[j] != 0 :: Unplaced(g, copies[j]) && copies[j] < next)
    && forall j, k | 0 <= j < k < |copies| && copies[j] == copies[k] :: copies[j] == 0
  }

  lemma LooseKept(g: Graph, h: Graph, n: nat, next: nat, copies: seq<nat>)
    requires Grown(g, h, n, next) && n <= next && Loose(g, copies, n)
    ensures Loose(h, copies, next)
  {
  }

  lemma NoCopies(g: Graph, kids: seq<Tree>, next: nat)
    ensures CopiesOf(g, [], kids, next) && Loose(g, [], next)
  {
  }

  lemma OneMoreCopy(g: Graph, h: Graph, n: nat, next: nat, copies: seq<nat>, kids: seq<Tree>, m: nat, c: nat)
    requires Grown(g, h, n, next) && m <= n <= next && CopiesOf(h, copies, kids, m) && |copies| < |kids|
    requires Plain(h, c, Erased(kids[|copies|])) && (c != 0 ==> n <= c < next)
    ensures CopiesOf(h, copies + [c], kids, m)
    ensures Loose(g, copies, n) && (c != 0 ==> Unplaced(h, c)) ==> Loose(h, copies + [c], next)
  {
    if Loose(g, copies, n) { LooseKept(g, h, n, next, copies); }
  }

  lemma AllocatedPlaced(h: Graph, next: nat, out: Node)
    requires Placed(h) && Closed(h) && 0 < next && (forall k | k in h :: k < next)
    requires out.link.Content? ==> Loose(h, out.link.items, next)
    ensures var j := h[next := out];
      Placed(j) && Unplaced(j, next)
  {
    assert forall a | a in h && h[a].link.Content? :: forall c | c in h[a].link.items :: c == 0 || c in h;
  }

  /** One node is no deeper than another. */
  ghost predicate Beneath(g: Graph, id: nat, k: nat) {
    forall fuel: nat | Unfold(g, id, fuel).Some? :: Unfold(g, k, fuel).Some?
  }

  lemma BeneathAbove(g: Graph, id: nat, e: nat, k: nat)
    requires Closed(g) && Edge(g, id, e) && Beneath(g, e, k)
    ensures Beneath(g, id, k)
  {
    forall fuel: nat | Unfold(g, id, fuel).Some? ensures Unfold(g, k, fuel).Some? {
      EdgeSpendsFuel(g, id, e, fuel);
      FuelIsIrrelevant(g, k, fuel - 1, fuel);
    }
  }

  lemma {:induction false} ParentsAreDeeper(g: Graph, id: nat, e: nat, fuel: nat)
    requires Closed(g) && Edge(g, id, e) && Beneath(g, e, id)
    ensures Unfold(g, e, fuel).None?
    decreases fuel
  {
    if Unfold(g, e, fuel).Some? {
      EdgeSpendsFuel(g, id, e, fuel);
      ParentsAreDeeper(g, id, e, fuel - 1);
      assert false;
    }
  }

  /** Only originals no deeper than a node have changed. */
  ghost predicate TouchesBeneath(origin: Graph, g: Graph, h: Graph, id: nat) {
    forall k | k in g && k in h && h[k] != g[k] :: k in origin && Beneath(origin, id, k)
  }

  lemma ParentIsUntouched(origin: Graph, g: Graph, h: Graph, id: nat, e: nat, t: Tree)
    requires Closed(origin) && Edge(origin, id, e) && Unfolds(origin, e, t)
    requires TouchesBeneath(origin, g, h, e) && id in g && id in h
    ensures h[id] == g[id]
  {
    var fuel: nat :| Unfold(origin, e, fuel) == Some(t);
    if h[id] != g[id] {
      ParentsAreDeeper(origin, id, e, fuel);
      assert false;
    }
  }

  /** The document as it stands against the one it was. */
  ghost predicate Sound(origin: Graph, g: Graph, first: nat, next: nat) {
    && Closed(origin) && (forall k | k in origin :: k < first)
    && 0 < first <= next && Closed(g) && Copies(g, first)
    && (forall k | k in g :: k < next && (k < first ==> k in origin))
    && Simulates(origin, g, first)
  }

  lemma GrownIsSound(origin: Graph, g: Graph, h: Graph, first: nat, m: nat, next: nat)
    requires Sound(origin, g, first, m) && Grown(g, h, m, next) && Closed(h) && m <= next
    ensures Sound(origin, h, first, next) && Extends(g, h)
  {
    hide Simulates;
    SimulatesStill(origin, g, h, first);
  }

  /** A copy moved to its alias's position joins the graph without disturbing it. */
  lemma Repositioned(
      origin: Graph, g: Graph, h: Graph, first: nat, m: nat, next: nat, c: nat, t: Tree, line: int, column: int)
    requires Sound(origin, g, first, m) && Grown(g, h, m, next) && Closed(h) && m <= c < next
    requires Apart(h, c, Erased(t)) && t.Tree?
    ensures var j := h[c := h[c].(line := line, column := column)];
      && Extends(g, j) && Sound(origin, j, first, next)
      && Plain(j, c, CopiedTo(t, line, column))
      && (Placed(h) && Unplaced(h, c) ==> Placed(j) && Unplaced(j, c))
  {
    hide Simulates, Plain;
    var j := h[c := h[c].(line := line, column := column)];
    assert j - {c} == h - {c};
    SimulatesStill(origin, g, j, first);
    ApartMoved(h, j, c, Erased(t), line, column);
    PartIsPlain(j, c, CopiedTo(t, line, column));
  }

  lemma ApartIsHere(g: Graph, id: nat, t: Tree)
    requires Apart(g, id, t) && t.Tree?
    ensures id in g
  {
  }

  lemma ApartMoved(h: Graph, j: Graph, c: nat, t: Tree, line: int, column: int)
    requires Apart(h, c, t) && t.Tree? && j == h[c := h[c].(line := line, column := column)]
    ensures Apart(j, c, t.(line := line, column := column))
  {
    hide Plain;
    assert j - {c} == h - {c};
  }

  datatype Result = Resolved(id: nat) | Cyclic | TooLarge

  /** What resolving a node promises about the graph it leaves. */
  ghost predicate Promised(
      origin: Graph, g: Graph, h: Graph, next: nat, active: set<nat>, id: nat, hint: Tree, r: Result, t: Tree)
  {
    && Evolves(g, h)
    && (id !in origin ==> h == g && !r.Cyclic? && (r.Resolved? && id != 0 ==> t == hint))
    && (r.Resolved? ==>
         && Plain(h, r.id, t)
         && (id == 0 || id in origin ==> Unfolds(origin, id, t))
         && (if LiveAlias(g, id) then r.id >= next else r.id == id)
         && TouchesBeneath(origin, g, h, id))
    && (r.Cyclic? ==> id in origin && Returns(origin, active, id))
    && (Placed(g) ==> Placed(h) && (r.Resolved? && LiveAlias(g, id) ==> Unplaced(h, r.id)))
  }

  lemma EvolvesNow(g: Graph)
    ensures Evolves(g, g)
  {
  }

  lemma NilIsResolved(origin: Graph, g: Graph, next: nat, active: set<nat>, hint: Tree)
    requires Closed(origin)
    ensures Promised(origin, g, g, next, active, 0, hint, Resolved(0), Nil)
  {
    EvolvesNow(g);
    assert Unfold(origin, 0, 1) == Some(Nil);
  }

  lemma TooLargeIsPromised(origin: Graph, g: Graph, next: nat, active: set<nat>, id: nat, hint: Tree)
    ensures Promised(origin, g, g, next, active, id, hint, TooLarge, Nil)
  {
    EvolvesNow(g);
  }

  lemma DanglingIsResolved(
      origin: Graph, g: Graph, first: nat, next: nat, active: set<nat>, id: nat, hint: Tree)
    requires Simulates(origin, g, first) && id != 0 && id in g && g[id].link == Alias(0)
    requires id !in origin ==> Plain(g, id, hint)
    ensures Promised(origin, g, g, next, active, id, hint, Resolved(id), TreeOf(g[id], true, []))
  {
    EvolvesNow(g);
    if id in origin { assert Unfold(origin, id, 1) == Some(TreeOf(g[id], true, [])); }
  }

  lemma ActivatingShrinks(keys: set<nat>, active: set<nat>, target: nat)
    requires target in keys && target !in active
    ensures |keys - (active + {target})| < |keys - active|
    ensures active + {target} - {target} == active
  {
    assert keys - active == (keys - (active + {target})) + {target};
  }

  lemma AliasUnfolds(g: Graph, id: nat, t: Tree)
    requires LiveAlias(g, id) && Unfolds(g, g[id].link.target, t)
    ensures Unfolds(g, id, CopiedTo(t, g[id].line, g[id].column))
  {
    var fuel: nat :| Unfold(g, g[id].link.target, fuel) == Some(t);
    assert Unfold(g, id, fuel + 1) == Some(CopiedTo(t, g[id].line, g[id].column));
  }

  lemma {:induction false} NodesAreTrees(g: Graph, id: nat, fuel: nat)
    requires Closed(g) && id in g && Unfold(g, id, fuel).Some?
    ensures Unfold(g, id, fuel).value.Tree?
    decreases fuel
  {
    if g[id].link.Alias? && g[id].link.target != 0 { NodesAreTrees(g, g[id].link.target, fuel - 1); }
  }

  lemma SoundAlias(origin: Graph, g: Graph, first: nat, next: nat, id: nat)
    requires Sound(origin, g, first, next) && LiveAlias(g, id)
    ensures id in g && id in origin && LiveAlias(origin, id) && origin[id] == g[id] && g[id].link.Alias?
    ensures Edge(origin, id, g[id].link.target) && g[id].link.target in g
  {
    assert Refers(origin, origin[id].link.target);
  }

  lemma SoundParts(origin: Graph, g: Graph, first: nat, next: nat)
    requires Sound(origin, g, first, next)
    ensures Closed(origin) && Closed(g) && 0 < first <= next && forall k | k in g :: k < next
    ensures forall k | k in origin :: k in g && g[k].(link := origin[k].link) == origin[k]
  {
  }

  lemma SoundIsClosed(origin: Graph, g: Graph, first: nat, next: nat)
    requires Sound(origin, g, first, next)
    ensures Closed(origin) && Closed(g) && 0 < first <= next
  {
  }

  lemma CycleFound(
      origin: Graph, g: Graph, next: nat, active: set<nat>, id: nat, hint: Tree, target: nat)
    requires Closed(origin) && Edge(origin, id, target) && target in active
    ensures Promised(origin, g, g, next, active, id, hint, Cyclic, Nil)
  {
    ReturnsFromChild(origin, active, id, target);
    EvolvesNow(g);
  }

  lemma TargetFails(
      origin: Graph, g: Graph, h: Graph, next: nat, active: set<nat>, id: nat, hint: Tree, target: nat, r: Result,
      t: Tree)
    requires Closed(origin) && Edge(origin, id, target) && !r.Resolved?
    requires Promised(origin, g, h, next, active + {target}, target, Nil, r, t)
    ensures Promised(origin, g, h, next, active, id, hint, r, Nil)
  {
    if r.Cyclic? {
      ReturnsWithout(origin, active, target);
      ReturnsFromChild(origin, active, id, target);
    }
  }

  lemma TargetIsResolved(
      origin: Graph, g: Graph, h: Graph, next: nat, active: set<nat>, target: nat, r: nat, t: Tree)
    requires Closed(origin) && target in origin
    requires Promised(origin, g, h, next, active, target, Nil, Resolved(r), t)
    ensures Plain(h, r, t) && t.Tree? && Unfolds(origin, target, t)
  {
    var fuel: nat :| Unfold(origin, target, fuel) == Some(t);
    NodesAreTrees(origin, target, fuel);
  }

  lemma CopyFails(
      origin: Graph, g: Graph, h: Graph, j: Graph, next: nat, active: set<nat>, id: nat, hint: Tree,
      target: nat, r: nat, t: Tree)
    requires Closed(g) && Edge(origin, id, target) && target in origin && Extends(h, j) && (Placed(h) ==> Placed(j))
    requires Promised(origin, g, h, next, active, target, Nil, Resolved(r), t)
    ensures Promised(origin, g, j, next, active - {target}, id, hint, TooLarge, Nil)
  {
    ExtendsEvolves(h, j);
    EvolvesOn(g, h, j);
  }

  lemma TouchedAbove(origin: Graph, g: Graph, h: Graph, id: nat, e: nat)
    requires Closed(origin) && Edge(origin, id, e) && TouchesBeneath(origin, g, h, e)
    ensures TouchesBeneath(origin, g, h, id)
  {
    forall k | k in g && k in h && h[k] != g[k] ensures k in origin && Beneath(origin, id, k) {
      BeneathAbove(origin, id, e, k);
    }
  }

  lemma TouchedThen(origin: Graph, g: Graph, h: Graph, j: Graph, id: nat)
    requires TouchesBeneath(origin, g, h, id) && TouchesBeneath(origin, h, j, id)
    requires forall k | k in g :: k in h
    ensures TouchesBeneath(origin, g, j, id)
  {
  }

  /** A resolved target, cloned to the alias's place. */
  lemma AliasIsResolved(
      origin: Graph, g: Graph, h: Graph, j: Graph, next: nat, active: set<nat>, id: nat, hint: Tree, r: nat, c: nat,
      t: Tree)
    requires Closed(origin) && Closed(g) && LiveAlias(origin, id) && LiveAlias(g, id)
    requires Promised(origin, g, h, next, active, origin[id].link.target, Nil, Resolved(r), t)
    requires Extends(h, j) && c >= next && Plain(j, c, CopiedTo(t, origin[id].line, origin[id].column))
    requires Placed(h) ==> Placed(j) && Unplaced(j, c)
    ensures Promised(origin, g, j, next, active - {origin[id].link.target}, id, hint, Resolved(c),
                     CopiedTo(t, origin[id].line, origin[id].column))
  {
    hide Unfolds, Plain, Placed, Unplaced, Evolves, TouchesBeneath;
    var target := origin[id].link.target;
    assert Refers(origin, target);
    AliasUnfolds(origin, id, t);
    ExtendsEvolves(h, j);
    EvolvesOn(g, h, j);
    TouchedAbove(origin, g, h, id, target);
    ExtendsTouchesNothing(origin, h, j, id);
    EvolvesKeeps(g, h);
    TouchedThen(origin, g, h, j, id);
  }

  lemma ExtendsTouchesNothing(origin: Graph, h: Graph, j: Graph, id: nat)
    requires Extends(h, j)
    ensures TouchesBeneath(origin, h, j, id)
  {
  }

  lemma EvolvesKeeps(g: Graph, h: Graph)
    requires Evolves(g, h)
    ensures forall k | k in g :: k in h && h[k].(link := g[k].link) == g[k]
  {
  }

  // ---- a node's content, entry by entry ----

  ghost predicate Progress(origin: Graph, g: Graph, h: Graph, id: nat, hint: Tree, i: nat, kids: seq<Tree>) {
    && Evolves(g, h) && id in g && id in h && h[id].link.Content? && i <= |h[id].link.items|
    && |kids| == i && (forall j | 0 <= j < i :: Plain(h, h[id].link.items[j], kids[j]))
    && (id !in origin ==> h == g && hint.Tree? && i <= |hint.kids| && kids == hint.kids[..i])
    && (id in origin ==>
         && origin[id].link.Content? && i <= |origin[id].link.items|
         && (forall j | 0 <= j < i :: Unfolds(origin, origin[id].link.items[j], kids[j])))
    && TouchesBeneath(origin, g, h, id)
    && (Placed(g) ==> Placed(h))
  }

  lemma ProgressStarts(origin: Graph, g: Graph, first: nat, next: nat, id: nat, hint: Tree)
    requires Sound(origin, g, first, next) && id in g && g[id].link.Content?
    requires id !in origin ==> Plain(g, id, hint)
    ensures Progress(origin, g, g, id, hint, 0, [])
  {
    EvolvesNow(g);
  }

  /** What stands at an index: an original entry, or a copy denoting kid. */
  ghost predicate Entry(origin: Graph, g: Graph, id: nat, hint: Tree, i: nat, kid: Tree) {
    && id in g && g[id].link.Content? && i < |g[id].link.items|
    && var e := g[id].link.items[i];
    && Refers(g, e) && (e != 0 && e !in origin ==> Plain(g, e, kid))
    && (id !in origin ==>
         e !in origin && !LiveAlias(g, e) && Plain(g, e, kid) && hint.Tree? && i < |hint.kids| && kid == hint.kids[i])
    && (id in origin ==>
         && origin[id].link.Content? && i < |origin[id].link.items|
         && (e == 0 || e in origin ==> e == origin[id].link.items[i])
         && (e in origin ==> Edge(origin, id, e))
         && (LiveAlias(g, e) ==> e in origin)
         && (e != 0 && e !in origin ==> Unfolds(origin, origin[id].link.items[i], kid)))
  }

  lemma EntryAt(origin: Graph, g: Graph, first: nat, next: nat, id: nat, hint: Tree, i: nat) returns (kid: Tree)
    requires Sound(origin, g, first, next) && id in g && g[id].link.Content? && i < |g[id].link.items|
    requires id !in origin ==> Plain(g, id, hint)
    ensures Entry(origin, g, id, hint, i, kid)
  {
    var e := g[id].link.items[i];
    assert e in g[id].link.items;
    if id !in origin {
      kid := hint.kids[i];
    } else {
      var was := origin[id].link.items[i];
      assert was in origin[id].link.items;
      if e == was {
        kid := Nil;
      } else {
        assert StandsFor(origin, g, first, was, e);
        kid :| Unfolds(origin, was, kid) && Plain(g, e, kid);
      }
    }
  }

  lemma EntryFails(
      origin: Graph, g: Graph, m: Graph, h: Graph, n0: nat, n: nat, active: set<nat>, id: nat, hint: Tree,
      i: nat, kids: seq<Tree>, kid: Tree, r: Result, t: Tree)
    requires Closed(origin) && Closed(g) && Progress(origin, g, m, id, hint, i, kids) && !r.Resolved?
    requires Entry(origin, m, id, hint, i, kid) && Promised(origin, m, h, n, active, m[id].link.items[i], kid, r, t)
    ensures Promised(origin, g, h, n0, active, id, hint, r, Nil)
  {
    hide Plain, Unfolds, Evolves, TouchesBeneath;
    EvolvesOn(g, m, h);
    if r.Cyclic? { ReturnsFromChild(origin, active, id, m[id].link.items[i]); }
  }

  /** A resolved entry leaves its parent alone, touches nothing but what lies beneath it, and has the
      original entry's tree. */
  lemma EntryResolves(
      origin: Graph, m: Graph, h: Graph, n: nat, active: set<nat>, id: nat, hint: Tree, i: nat, kid: Tree, c: nat,
      t: Tree)
    requires Closed(origin) && Entry(origin, m, id, hint, i, kid)
    requires Promised(origin, m, h, n, active, m[id].link.items[i], kid, Resolved(c), t)
    ensures id in h && h[id] == m[id] && TouchesBeneath(origin, m, h, id)
    ensures id in origin ==> Unfolds(origin, origin[id].link.items[i], t)
    ensures id !in origin ==> t == hint.kids[i]
  {
    hide Placed, Unplaced;
    var e := m[id].link.items[i];
    if e in origin && id in origin {
      ParentIsUntouched(origin, m, h, id, e, t);
      TouchedAbove(origin, m, h, id, e);
    }
  }

  lemma OverwriteIsSound(origin: Graph, g: Graph, first: nat, next: nat, k: nat, i: nat, c: nat, t: Tree)
    requires Sound(origin, g, first, next) && k in origin && k in g && g[k].link.Content? && i < |g[k].link.items|
    requires var e := g[k].link.items[i];
      LiveAlias(g, e) && e in origin && Unfolds(origin, e, t) && Plain(g, c, t) && c >= first
    ensures var h := g[k := With(g[k], i, c)];
      Sound(origin, h, first, next) && Evolves(g, h) && Plain(h, c, t)
  {
    hide Simulates, Unfolds, Evolves;
    var h := g[k := With(g[k], i, c)];
    Overwrite(origin, g, first, k, i, c, t);
    assert c in g;
    forall d | d in h[k].link.items ensures Refers(h, d) {
      var n :| 0 <= n < |h[k].link.items| && h[k].link.items[n] == d;
      assert n == i || d in g[k].link.items;
    }
    assert Closed(h);
  }

  /** Writing a resolved entry back. */
  lemma EntryWritten(
      origin: Graph, m: Graph, h: Graph, first: nat, n: nat, next: nat, active: set<nat>, id: nat, hint: Tree,
      i: nat, kid: Tree, c: nat, t: Tree)
    requires Sound(origin, m, first, n) && Sound(origin, h, first, next) && Entry(origin, m, id, hint, i, kid)
    requires id in h && h[id] == m[id]
    requires Promised(origin, m, h, n, active, m[id].link.items[i], kid, Resolved(c), t)
    ensures var j := h[id := With(h[id], i, c)];
      && Sound(origin, j, first, next) && Evolves(h, j) && Plain(j, c, t)
      && (id !in origin ==> j == h) && (Placed(m) ==> Placed(j))
  {
    hide Simulates, Unfolds, Evolves, Plain, Placed, Unplaced, Closed, Copies, TouchesBeneath;
    var e := m[id].link.items[i];
    var j := h[id := With(h[id], i, c)];
    if LiveAlias(m, e) {
      StillLive(m, h, e);
      OverwriteIsSound(origin, h, first, next, id, i, c, t);
      if Placed(m) { OverwritePlaces(h, id, i, c); }
    } else {
      assert With(h[id], i, c) == h[id];
      assert j == h;
      EvolvesNow(h);
    }
  }

  lemma StillLive(g: Graph, h: Graph, e: nat)
    requires Evolves(g, h) && LiveAlias(g, e)
    ensures LiveAlias(h, e)
  {
    assert Later(g, g[e], h[e]);
  }

  lemma ProgressMade(
      origin: Graph, g: Graph, m: Graph, h: Graph, first: nat, n: nat, next: nat, active: set<nat>, id: nat,
      hint: Tree, i: nat, kids: seq<Tree>, kid: Tree, c: nat, t: Tree)
    requires Closed(g) && Closed(m) && Sound(origin, m, first, n) && Sound(origin, h, first, next)
    requires Progress(origin, g, m, id, hint, i, kids) && Entry(origin, m, id, hint, i, kid)
    requires Promised(origin, m, h, n, active, m[id].link.items[i], kid, Resolved(c), t)
    ensures id in h && h[id] == m[id] && h[id].link.Content? && i < |h[id].link.items|
    ensures var j := h[id := With(h[id], i, c)];
      Sound(origin, j, first, next) && Progress(origin, g, j, id, hint, i + 1, kids + [t])
  {
    hide Simulates, Copies, Promised, Entry, Sound;
    EntryIn(origin, m, id, hint, i, kid);
    SoundParts(origin, m, first, n);
    EntryResolves(origin, m, h, n, active, id, hint, i, kid, c, t);
    EntryWritten(origin, m, h, first, n, next, active, id, hint, i, kid, c, t);
    var j := h[id := With(h[id], i, c)];
    PromiseEvolves(origin, m, h, n, active, m[id].link.items[i], kid, Resolved(c), t);
    ProgressWritten(origin, g, m, h, j, id, hint, i, kids, c, t);
  }

  lemma PromiseEvolves(
      origin: Graph, g: Graph, h: Graph, next: nat, active: set<nat>, id: nat, hint: Tree, r: Result, t: Tree)
    requires Promised(origin, g, h, next, active, id, hint, r, t)
    ensures Evolves(g, h) && (id !in origin ==> h == g)
  {
  }

  lemma EntryIn(origin: Graph, g: Graph, id: nat, hint: Tree, i: nat, kid: Tree)
    requires Entry(origin, g, id, hint, i, kid)
    ensures id in g && g[id].link.Content? && i < |g[id].link.items|
    ensures id in origin ==> origin[id].link.Content? && i < |origin[id].link.items|
    ensures id !in origin ==> g[id].link.items[i] !in origin && hint.Tree? && i < |hint.kids|
  {
  }

  lemma ProgressWritten(
      origin: Graph, g: Graph, m: Graph, h: Graph, j: Graph, id: nat, hint: Tree, i: nat, kids: seq<Tree>, c: nat,
      t: Tree)
    requires Closed(g) && Closed(m) && Progress(origin, g, m, id, hint, i, kids)
    requires i < |m[id].link.items| && Evolves(m, h) && Evolves(h, j) && Plain(j, c, t)
    requires id in h && h[id] == m[id] && j == h[id := With(h[id], i, c)]
    requires id in origin ==>
      origin[id].link.Content? && i < |origin[id].link.items| && Unfolds(origin, origin[id].link.items[i], t)
    requires id !in origin ==> h == m && j == h && i < |hint.kids| && t == hint.kids[i]
    requires TouchesBeneath(origin, m, h, id) && (Placed(m) ==> Placed(j))
    ensures Progress(origin, g, j, id, hint, i + 1, kids + [t])
  {
    hide Unfolds, Closed, Placed, Evolves, Plain, Closed;
    EvolvesOn(m, h, j);
    EvolvesOn(g, m, j);
    EvolvesKeeps(m, j);
    EvolvesKeeps(g, m);
    forall n | 0 <= n < i ensures Plain(j, j[id].link.items[n], kids[n]) {
      PlainStays(m, j, m[id].link.items[n], kids[n]);
    }
    if id !in origin { assert hint.kids[..i + 1] == hint.kids[..i] + [hint.kids[i]]; }
    assert TouchesBeneath(origin, h, j, id);
    TouchedThen(origin, m, h, j, id);
    TouchedThen(origin, g, m, j, id);
  }

  lemma {:induction false} KidsUnfold(g: Graph, ids: seq<nat>, kids: seq<Tree>) returns (fuel: nat)
    requires |ids| == |kids| && forall i | 0 <= i < |ids| :: Unfolds(g, ids[i], kids[i])
    ensures UnfoldAll(g, ids, fuel) == Some(kids)
    decreases |ids|
  {
    if ids == [] {
      fuel := 0;
    } else {
      var n := |ids| - 1;
      var before := KidsUnfold(g, ids[..n], kids[..n]);
      var last: nat :| Unfold(g, ids[n], last) == Some(kids[n]);
      fuel := if before <= last then last else before;
      AllMeansEach(g, ids[..n], before);
      forall i | 0 <= i < |ids| ensures Unfold(g, ids[i], fuel) == Some(kids[i]) {
        if i < n { FuelIsIrrelevant(g, ids[..n][i], before, fuel); } else { FuelIsIrrelevant(g, ids[n], last, fuel); }
      }
      AllMeansEach(g, ids, fuel);
      assert UnfoldAll(g, ids, fuel).value == kids;
    }
  }

  lemma ContentIsResolved(
      origin: Graph, g: Graph, h: Graph, first: nat, next: nat, n0: nat, active: set<nat>, id: nat, hint: Tree,
      kids: seq<Tree>)
    requires Sound(origin, h, first, next) && id != 0 && id in h && h[id].link.Content?
    requires Progress(origin, g, h, id, hint, |h[id].link.items|, kids)
    requires id !in origin ==> Plain(g, id, hint)
    ensures Promised(origin, g, h, n0, active, id, hint, Resolved(id), TreeOf(h[id], false, kids))
  {
    hide Placed, Unplaced, TouchesBeneath, Unfold;
    EvolvesKeeps(g, h);
    var t := TreeOf(h[id], false, kids);
    assert !LiveAlias(g, id) by { if LiveAlias(g, id) { StillLive(g, h, id); } }
    if id in origin {
      var fuel := KidsUnfold(origin, origin[id].link.items, kids);
      KidsMakeATree(origin, id, kids, fuel);
    } else {
      assert kids == hint.kids;
    }
  }

  lemma KidsMakeATree(g: Graph, id: nat, kids: seq<Tree>, fuel: nat)
    requires id in g && g[id].link.Content? && UnfoldAll(g, g[id].link.items, fuel) == Some(kids)
    ensures Unfolds(g, id, TreeOf(g[id], false, kids))
  {
    assert Unfold(g, id, fuel + 1) == Some(TreeOf(g[id], false, kids));
  }

  /** What a recursive call on an entry goes down. */
  lemma EntryIsLess(origin: Graph, g: Graph, id: nat, hint: Tree, i: nat, kid: Tree)
    requires Entry(origin, g, id, hint, i, kid)
    ensures var e := g[id].link.items[i];
      && Refers(g, e) && (e != 0 && e !in origin ==> Plain(g, e, kid))
      && (id !in origin ==> e !in origin && kid < hint)
      && (id in origin && e in origin ==> Edge(origin, id, e) && origin[id].link.Content? && e in origin[id].link.items)
  {
  }

  lemma RankFalls(g: Graph, rank: map<nat, nat>, id: nat, e: nat)
    requires Closed(g) && Ranked(g, rank) && Edge(g, id, e) && g[id].link.Content?
    ensures e in rank && id in rank && rank[e] < rank[id]
  {
  }

  lemma UncopiedStays(origin: Graph, g: Graph, h: Graph, id: nat, hint: Tree, i: nat, kids: seq<Tree>)
    requires Progress(origin, g, h, id, hint, i, kids)
    ensures id !in origin && Plain(g, id, hint) ==> Plain(h, id, hint)
  {
  }

  // ---- visits ----

  /** The entries copies stand in for are the ones that are no longer the original's. */
  predicate Marked(origin: Graph, g: Graph, copied: set<(nat, nat)>, k: nat, i: nat) {
    k in origin && origin[k].link.Content? && i < |origin[k].link.items| ==>
      && k in g && g[k].link.Content? && |g[k].link.items| == |origin[k].link.items|
      && ((k, i) in copied <==> g[k].link.items[i] != origin[k].link.items[i])
  }

  ghost predicate Marks(origin: Graph, g: Graph, copied: set<(nat, nat)>) {
    forall k: nat, i: nat :: Marked(origin, g, copied, k, i)
  }

  lemma MarksStart(origin: Graph)
    ensures Marks(origin, origin, {})
  {
  }

  lemma MarksStay(origin: Graph, g: Graph, h: Graph, copied: set<(nat, nat)>)
    requires Marks(origin, g, copied) && Extends(g, h)
    ensures Marks(origin, h, copied)
  {
    forall k: nat, i: nat ensures Marked(origin, h, copied, k, i) {
      assert Marked(origin, g, copied, k, i);
    }
  }

  lemma MarksWritten(
      origin: Graph, m: Graph, h: Graph, first: nat, n: nat, copied: set<(nat, nat)>, id: nat, hint: Tree, i: nat,
      kid: Tree, c: nat)
    requires Sound(origin, m, first, n) && Marks(origin, h, copied) && Entry(origin, m, id, hint, i, kid)
    requires id in h && h[id] == m[id]
    requires if LiveAlias(m, m[id].link.items[i]) then c >= first else c == m[id].link.items[i]
    ensures Marks(origin, h[id := With(h[id], i, c)],
                  if LiveAlias(m, m[id].link.items[i]) then copied + {(id, i)} else copied)
  {
    hide Simulates, Copies, Plain, Unfolds;
    var e := m[id].link.items[i];
    var j := h[id := With(h[id], i, c)];
    var marks := if LiveAlias(m, e) then copied + {(id, i)} else copied;
    if !LiveAlias(m, e) { assert With(h[id], i, c) == h[id] && j == h; }
    forall k: nat, l: nat ensures Marked(origin, j, marks, k, l) {
      assert Marked(origin, h, copied, k, l);
    }
  }

  /** What resolving a node adds to the budget spent: exactly the visits of its walk, or more than are
      left. */
  ghost predicate Counted(
      origin: Graph, active: set<nat>, id: nat, hint: Tree, before: set<(nat, nat)>, after: set<(nat, nat)>,
      spent: nat, total: nat, r: Result)
  {
    && spent <= total
    && (id in origin || id == 0 ==>
         && (!r.TooLarge? ==> Takes(origin, id, active, before, Trip(total - spent, after, r.Cyclic?)))
         && (r.TooLarge? ==> Exceeds(origin, id, active, before, MAX_RESOLVED_NODES - spent)))
    && (id !in origin ==> after == before)
    && (id !in origin && id != 0 ==>
         && (r.Resolved? ==> total == spent + Size(hint))
         && (r.TooLarge? ==> spent + Size(hint) > MAX_RESOLVED_NODES))
  }

  lemma NilIsCounted(origin: Graph, active: set<nat>, hint: Tree, copied: set<(nat, nat)>, spent: nat)
    requires 0 !in origin
    ensures Counted(origin, active, 0, hint, copied, copied, spent, spent, Resolved(0))
  {
    NilTakes(origin, 0, active, copied);
  }

  lemma EnteringIsCounted(
      origin: Graph, g: Graph, active: set<nat>, id: nat, hint: Tree, copied: set<(nat, nat)>, spent: nat)
    requires id != 0 && spent + 1 > MAX_RESOLVED_NODES && (id !in origin ==> Plain(g, id, hint))
    ensures Counted(origin, active, id, hint, copied, copied, spent, spent + 1, TooLarge)
  {
    if id in origin { EntersOne(origin, id, active, copied); }
  }

  lemma DanglingIsCounted(
      origin: Graph, g: Graph, first: nat, active: set<nat>, id: nat, hint: Tree, copied: set<(nat, nat)>, spent: nat)
    requires Simulates(origin, g, first) && id != 0 && id in g && g[id].link == Alias(0)
    requires id !in origin ==> Plain(g, id, hint)
    ensures Counted(origin, active, id, hint, copied, copied, spent, spent + 1, Resolved(id))
  {
    if id in origin { AliasStops(origin, id, active, copied); } else { assert hint.kids == []; }
  }

  lemma CycleIsCounted(
      origin: Graph, active: set<nat>, id: nat, hint: Tree, copied: set<(nat, nat)>, spent: nat)
    requires LiveAlias(origin, id) && origin[id].link.target in active
    ensures Counted(origin, active, id, hint, copied, copied, spent, spent + 1, Cyclic)
  {
    AliasStops(origin, id, active, copied);
  }

  lemma FailedTargetIsCounted(
      origin: Graph, active: set<nat>, id: nat, hint: Tree, before: set<(nat, nat)>, after: set<(nat, nat)>,
      spent: nat, total: nat, r: Result)
    requires Closed(origin) && LiveAlias(origin, id) && origin[id].link.target !in active && !r.Resolved?
    requires Counted(origin, active + {origin[id].link.target}, origin[id].link.target, Nil, before, after, spent + 1,
        total, r)
    ensures Counted(origin, active, id, hint, before, after, spent, total, r)
  {
    var target := origin[id].link.target;
    assert Refers(origin, target);
    if r.Cyclic? {
      AliasTakes(origin, id, active, before, Trip(total - (spent + 1), after, true));
    } else {
      AliasExceeds(origin, id, active, before, MAX_RESOLVED_NODES - spent);
    }
  }

  /** A resolved target and its copy. */
  lemma CopyIsCounted(
      origin: Graph, active: set<nat>, id: nat, hint: Tree, before: set<(nat, nat)>, after: set<(nat, nat)>,
      spent: nat, mid: nat, total: nat, r: nat, t: Tree, copy: Result)
    requires Closed(origin) && LiveAlias(origin, id) && origin[id].link.target !in active
    requires Counted(
        origin, active + {origin[id].link.target}, origin[id].link.target, Nil, before, after, spent + 1, mid,
        Resolved(r))
    requires Unfolds(origin, origin[id].link.target, t) && !copy.Cyclic? && mid <= total
    requires copy.Resolved? ==> total == mid + Size(t)
    requires copy.TooLarge? ==> mid + Size(t) > MAX_RESOLVED_NODES
    ensures Counted(origin, active, id, hint, before, after, spent, total, copy)
  {
    hide Unfolds;
    var target := origin[id].link.target;
    assert Refers(origin, target);
    WeightOf(origin, target, t);
    var inner := Trip(mid - (spent + 1), after, false);
    if copy.Resolved? {
      AliasTakes(origin, id, active, before, inner);
    } else {
      CopyExceeds(origin, id, active, before, inner, MAX_RESOLVED_NODES - spent);
    }
  }

  /** The content entries resolved so far, the node itself being counted already. */
  ghost predicate CountedEntries(
      origin: Graph, active: set<nat>, id: nat, hint: Tree, i: nat, before: set<(nat, nat)>, after: set<(nat, nat)>,
      spent: nat, total: nat)
  {
    && spent <= total
    && (id in origin ==>
         && origin[id].link.Content? && i <= |origin[id].link.items|
         && TakesAll(origin, id, i, active, before, Trip(total - spent, after, false)))
    && (id !in origin ==>
         after == before && hint.Tree? && i <= |hint.kids| && total == spent + Sizes(hint.kids[..i]))
  }

  lemma NoEntriesCounted(
      origin: Graph, g: Graph, first: nat, next: nat, active: set<nat>, id: nat, hint: Tree, copied: set<(nat, nat)>,
      spent: nat)
    requires Sound(origin, g, first, next) && id != 0 && id in g && g[id].link.Content?
    requires id !in origin ==> Plain(g, id, hint)
    ensures CountedEntries(origin, active, id, hint, 0, copied, copied, spent, spent)
  {
    if id in origin { NoEntriesTake(origin, id, active, copied); }
  }

  /** How an entry of an original node is walked: a copy standing there costs its nodes, anything else is
      walked itself. */
  lemma EntryIsWalked(
      origin: Graph, m: Graph, first: nat, n: nat, active: set<nat>, id: nat, hint: Tree, i: nat, kid: Tree,
      before: set<(nat, nat)>, after: set<(nat, nat)>, spent: nat, total: nat, r: Result)
    requires Sound(origin, m, first, n) && Marks(origin, m, before)
    requires Entry(origin, m, id, hint, i, kid) && id in origin
    requires Counted(origin, active, m[id].link.items[i], kid, before, after, spent, total, r)
    requires !r.Cyclic? || m[id].link.items[i] in origin
    ensures var e := m[id].link.items[i];
      && (r.Resolved? ==>
           TakesEntry(origin, id, i, active, before,
                      Trip(total - spent, if LiveAlias(m, e) then after + {(id, i)} else after, false)))
      && (r.Cyclic? ==> TakesEntry(origin, id, i, active, before, Trip(total - spent, after, true)))
      && (r.TooLarge? ==> EntryExceeds(origin, id, i, active, before, MAX_RESOLVED_NODES - spent))
  {
    hide Unfolds, Plain, Copies;
    var e, item := m[id].link.items[i], origin[id].link.items[i];
    assert item in origin[id].link.items && Refers(origin, item);
    assert Marked(origin, m, before, id, i);
    if (id, i) in before {
      WeightOf(origin, item, kid);
      if r.Resolved? {
        CopiedEntryTakes(origin, id, i, active, before);
      } else {
        CopiedEntryExceeds(origin, id, i, active, before, MAX_RESOLVED_NODES - spent);
      }
    } else if r.TooLarge? {
      FreshEntryExceeds(origin, id, i, active, before, MAX_RESOLVED_NODES - spent);
    } else {
      FreshEntryTakes(origin, id, i, active, before, Trip(total - spent, after, r.Cyclic?));
      assert LiveAlias(origin, item) <==> LiveAlias(m, e);
    }
  }

  lemma EntryIsCounted(
      origin: Graph, m: Graph, first: nat, n: nat, active: set<nat>, id: nat, hint: Tree, i: nat, kid: Tree,
      start: set<(nat, nat)>, before: set<(nat, nat)>, after: set<(nat, nat)>,
      spent: nat, mid: nat, total: nat, c: nat)
    requires Sound(origin, m, first, n) && Marks(origin, m, before) && Entry(origin, m, id, hint, i, kid)
    requires CountedEntries(origin, active, id, hint, i, start, before, spent, mid)
    requires Counted(origin, active, m[id].link.items[i], kid, before, after, mid, total, Resolved(c))
    ensures CountedEntries(
        origin, active, id, hint, i + 1, start,
        if LiveAlias(m, m[id].link.items[i]) then after + {(id, i)} else after, spent, total)
  {
    hide Sound, Marks, Takes, TakesAll, TakesEntry, Unfolds;
    if id in origin {
      EntryIsWalked(origin, m, first, n, active, id, hint, i, kid, before, after, mid, total, Resolved(c));
      var trip := Trip(total - mid, if LiveAlias(m, m[id].link.items[i]) then after + {(id, i)} else after, false);
      EntryTakes(origin, id, i, active, start, Trip(mid - spent, before, false), trip);
    } else {
      OneMoreKid(hint.kids, i);
      if m[id].link.items[i] == 0 { NilCosts(origin, m, active, kid, before, after, mid, total); }
    }
  }

  lemma NilCosts(
      origin: Graph, g: Graph, active: set<nat>, kid: Tree, before: set<(nat, nat)>, after: set<(nat, nat)>,
      spent: nat, total: nat)
    requires 0 !in origin && Plain(g, 0, kid) && spent <= total
    requires Takes(origin, 0, active, before, Trip(total - spent, after, false))
    ensures total == spent && after == before && Size(kid) == 0
  {
    NilTakes(origin, 0, active, before);
    TripIsUnique(origin, 0, active, before, Trip(total - spent, after, false), Trip(0, before, false));
  }

  lemma FailedEntryIsCounted(
      origin: Graph, m: Graph, first: nat, n: nat, active: set<nat>, id: nat, hint: Tree, i: nat, kid: Tree,
      start: set<(nat, nat)>, before: set<(nat, nat)>, after: set<(nat, nat)>,
      spent: nat, mid: nat, total: nat, r: Result)
    requires Sound(origin, m, first, n) && Marks(origin, m, before) && Entry(origin, m, id, hint, i, kid)
    requires CountedEntries(origin, active, id, hint, i, start, before, spent + 1, mid) && id != 0
    requires Counted(origin, active, m[id].link.items[i], kid, before, after, mid, total, r) && !r.Resolved?
    requires r.Cyclic? ==> m[id].link.items[i] in origin
    ensures Counted(origin, active, id, hint, start, after, spent, total, r)
  {
    hide Sound, Marks, Takes, TakesAll, TakesEntry, EntryExceeds, Exceeds, Unfolds;
    if id in origin {
      EntryIsWalked(origin, m, first, n, active, id, hint, i, kid, before, after, mid, total, r);
      var trip := Trip(mid - (spent + 1), before, false);
      if r.Cyclic? {
        EntryTakes(origin, id, i, active, start, trip, Trip(total - mid, after, true));
        var all := Trip(total - (spent + 1), after, true);
        CycleEndsAll(origin, id, i + 1, |origin[id].link.items|, active, start, all);
        ContentTakes(origin, id, active, start, all);
      } else {
        ContentExceeds(origin, id, i, active, start, trip, MAX_RESOLVED_NODES - spent);
      }
    } else {
      OneMoreKid(hint.kids, i);
      if m[id].link.items[i] == 0 && r.TooLarge? { NilNeverExceeds(origin, active, before, MAX_RESOLVED_NODES - mid); }
    }
  }

  lemma NilNeverExceeds(origin: Graph, active: set<nat>, copied: set<(nat, nat)>, room: int)
    requires 0 !in origin && Exceeds(origin, 0, active, copied, room)
    ensures room < 0
  {
    NilTakes(origin, 0, active, copied);
  }

  lemma ContentIsCounted(
      origin: Graph, g: Graph, h: Graph, first: nat, next: nat, active: set<nat>, id: nat, hint: Tree, n: nat,
      before: set<(nat, nat)>, after: set<(nat, nat)>, spent: nat, total: nat)
    requires Sound(origin, h, first, next) && id in h && h[id].link.Content? && n == |h[id].link.items| && id != 0
    requires id !in origin ==> Plain(h, id, hint)
    requires CountedEntries(origin, active, id, hint, n, before, after, spent + 1, total)
    ensures Counted(origin, active, id, hint, before, after, spent, total, Resolved(id))
  {
    hide Takes, TakesAll;
    if id in origin {
      ContentTakes(origin, id, active, before, Trip(total - (spent + 1), after, false));
    } else {
      assert hint.kids[..n] == hint.kids;
    }
  }

  lemma PromisedCycles(
      origin: Graph, g: Graph, h: Graph, next: nat, active: set<nat>, id: nat, hint: Tree, r: Result, t: Tree)
    requires Promised(origin, g, h, next, active, id, hint, r, t)
    ensures r.Cyclic? ==> id in origin
  {
  }

  lemma PromisedPlaces(
      origin: Graph, g: Graph, h: Graph, first: nat, next: nat, active: set<nat>, id: nat, hint: Tree, r: nat, t: Tree)
    requires Sound(origin, g, first, next) && Promised(origin, g, h, next, active, id, hint, Resolved(r), t)
    ensures if LiveAlias(g, id) then r >= first else r == id
  {
  }

  class Resolver {
    ghost const origin: Graph
    ghost const first: nat
    var nodes: Graph
    var next: nat
    var active: set<nat>
    var budget: nat

    /** The content entries copies stand in for. */
    ghost var copied: set<(nat, nat)>

    /** Ranks falling along content edges, as a parsed document has them; without, only the budget
        bounds the recursion. */
    ghost const ranks: Option<map<nat, nat>>

    constructor (g: Graph, free: nat, ghost ranks: Option<map<nat, nat>>)
      requires Closed(g) && 0 < free && (forall k | k in g :: k < free)
      requires ranks.Some? ==> Ranked(g, ranks.value)
      ensures Valid() && origin == nodes == g && active == {} && budget == 0 && copied == {}
    {
      MarksStart(g);
      origin, first, nodes, next, active, budget, copied := g, free, g, free, {}, 0, {};
      this.ranks := ranks;
    }

    ghost predicate Valid()
      reads this
    {
      && Sound(origin, nodes, first, next)
      && active <= origin.Keys
      && Marks(origin, nodes, copied)
      && (ranks.Some? ==> Ranked(origin, ranks.value))
    }

    /** How much recursion is left: fewer inactive originals, or less budget. */
    ghost function Depth(): int
      reads this
    {
      if ranks.Some? then |origin.Keys - active| else MAX_RESOLVED_NODES + 1 - budget
    }

    ghost function RankOf(id: nat): nat {
      if ranks.Some? && id in origin && id in ranks.value then ranks.value[id] else 0
    }

    method Allocate(n: Node) returns (id: nat)
      modifies `nodes, `next
      ensures id == old(next) && next == id + 1 && nodes == old(nodes)[id := n]
    {
      id := next;
      nodes, next := nodes[id := n], next + 1;
    }

    /** A copy of a resolved node, every node of it new and every anchor cleared. */
    method Clone(id: nat, ghost t: Tree) returns (r: Result)
      requires 0 < next && Closed(nodes) && (forall k | k in nodes :: k < next) && Plain(nodes, id, t)
      modifies `nodes, `next, `budget
      ensures next >= old(next) && budget >= old(budget) && !r.Cyclic?
      ensures Closed(nodes) && Grown(old(nodes), nodes, old(next), next)
      ensures r.Resolved? ==> Apart(nodes, r.id, Erased(t)) && (r.id == 0 <==> t.Nil?)
      ensures r.Resolved? ==> budget == old(budget) || budget <= MAX_RESOLVED_NODES
      ensures r.Resolved? && r.id != 0 ==> old(next) <= r.id < next
      ensures Placed(old(nodes)) ==> Placed(nodes) && (r.Resolved? && r.id != 0 ==> Unplaced(nodes, r.id))
      ensures r.Resolved? ==> budget == old(budget) + Size(t)
      ensures r.TooLarge? ==> budget > MAX_RESOLVED_NODES && old(budget) + Size(t) > MAX_RESOLVED_NODES
      decreases t
    {
      hide Plain, Erased, Closed, Grown, Apart, Copies, Placed, Loose, Unplaced, CopiesOf, Sizes;
      if id == 0 {
        NilIsAlone(nodes, t);
        GrownNow(nodes, next);
        return Resolved(0);
      }
      budget := budget + 1;
      KidsArePlain(nodes, id, t);
      KidsCost(nodes, id, t);
      if budget > MAX_RESOLVED_NODES {
        GrownNow(nodes, next);
        return TooLarge;
      }
      GrownNow(nodes, next);
      var out := nodes[id].(anchor := "");
      if out.link.Content? {
        var items := out.link.items;
        var copies: seq<nat> := [];
        NoCopies(nodes, t.kids, next);
        for i := 0 to |items|
          invariant next >= old(next) && budget >= old(budget) && budget <= MAX_RESOLVED_NODES
          invariant Closed(nodes) && Grown(old(nodes), nodes, old(next), next)
          invariant |copies| == i && CopiesOf(nodes, copies, t.kids, old(next))
          invariant Loose(nodes, copies, next) || !Placed(old(nodes))
          invariant Placed(old(nodes)) ==> Placed(nodes)
          invariant budget == old(budget) + 1 + Sizes(t.kids[..i])
        {
          OneMoreKid(t.kids, i);
          GrownKeeps(old(nodes), nodes, old(next), next, items[i], t.kids[i]);
          GrownBounds(old(nodes), nodes, old(next), next);
          label Before:
          var r' := Clone(items[i], t.kids[i]);
          GrownOn(old(nodes), old@Before(nodes), nodes, old(next), old@Before(next), next);
          if !r'.Resolved? { return r'; }
          CopiesKept(old@Before(nodes), nodes, old@Before(next), next, copies, t.kids, old(next));
          ErasedNil(t.kids[i]);
          PartIsPlain(nodes, r'.id, Erased(t.kids[i]));
          OneMoreCopy(old@Before(nodes), nodes, old@Before(next), next, copies, t.kids, old(next), r'.id);
          copies := copies + [r'.id];
        }
        assert t.kids[..|items|] == t.kids;
        out := out.(link := Content(copies));
      }
      label Last:
      GrownBounds(old(nodes), nodes, old(next), next);
      if Placed(old(nodes)) { AllocatedPlaced(nodes, next, out); }
      var copy := Allocate(out);
      AllocatedCopy(old(nodes), old@Last(nodes), old(next), old@Last(next), id, out, t);
      return Resolved(copy);
    }

    /** Resolves a node in place: the node itself, its live aliases replaced by copies, or for a live
        alias the copy. */
    method Resolve(id: nat, ghost hint: Tree) returns (r: Result, ghost t: Tree)
      requires Valid() && Refers(nodes, id)
      requires id != 0 && id !in origin ==> Plain(nodes, id, hint)
      modifies `nodes, `next, `active, `budget, `copied
      ensures Valid() && active == old(active) && next >= old(next) && budget >= old(budget)
      ensures Promised(origin, old(nodes), nodes, old(next), active, id, hint, r, t)
      ensures Counted(origin, active, id, hint, old(copied), copied, old(budget), budget, r)
      ensures !r.TooLarge? ==> budget == old(budget) || budget <= MAX_RESOLVED_NODES
      ensures r.TooLarge? ==> budget > MAX_RESOLVED_NODES
      decreases Depth(), if ranks.Some? && id in origin then 1 else 0, RankOf(id), hint, 1
    {
      if id == 0 {
        NilIsResolved(origin, nodes, next, active, hint);
        NilIsCounted(origin, active, hint, copied, budget);
        return Resolved(0), Nil;
      }
      budget := budget + 1;
      if budget > MAX_RESOLVED_NODES {
        TooLargeIsPromised(origin, nodes, next, active, id, hint);
        EnteringIsCounted(origin, nodes, active, id, hint, copied, old(budget));
        return TooLarge, Nil;
      }
      match nodes[id].link
      case Alias(target) =>
        if target == 0 {
          t := TreeOf(nodes[id], true, []);
          DanglingIsResolved(origin, nodes, first, next, active, id, hint);
          DanglingIsCounted(origin, nodes, first, active, id, hint, copied, old(budget));
          return Resolved(id), t;
        }
        r, t := ResolveAlias(id, hint);
      case Content(_) =>
        r, t := ResolveContent(id, hint);
    }

    /** A copy of a resolved node at an alias's position. */
    method CopyTo(id: nat, resolved: nat, ghost t: Tree) returns (r: Result)
      requires Valid() && id in origin && Plain(nodes, resolved, t) && t.Tree?
      modifies `nodes, `next, `budget
      ensures Valid() && next >= old(next) && budget >= old(budget) && !r.Cyclic?
      ensures Extends(old(nodes), nodes)
      ensures r.Resolved? ==>
        r.id >= old(next) && Plain(nodes, r.id, CopiedTo(t, origin[id].line, origin[id].column))
        && (budget == old(budget) || budget <= MAX_RESOLVED_NODES)
      ensures Placed(old(nodes)) ==> Placed(nodes) && (r.Resolved? ==> Unplaced(nodes, r.id))
      ensures r.Resolved? ==> budget == old(budget) + Size(t)
      ensures r.TooLarge? ==> budget > MAX_RESOLVED_NODES && old(budget) + Size(t) > MAX_RESOLVED_NODES
    {
      hide Sound, Marks, Closed, Grown, Apart, Plain, Placed, Unplaced, Erased, CopiedTo, Extends, Ranked;
      SoundParts(origin, nodes, first, next);
      r := Clone(resolved, t);
      GrownIsSound(origin, old(nodes), nodes, first, old(next), next);
      SoundParts(origin, nodes, first, next);
      MarksStay(origin, old(nodes), nodes, copied);
      if !r.Resolved? { return; }
      ErasedNil(t);
      ApartIsHere(nodes, r.id, Erased(t));
      Repositioned(origin, old(nodes), nodes, first, old(next), next, r.id, t, nodes[id].line, nodes[id].column);
      nodes := nodes[r.id := nodes[r.id].(line := nodes[id].line, column := nodes[id].column)];
      MarksStay(origin, old(nodes), nodes, copied);
    }

    /** A live alias: its target resolved in place, then a copy of that at the alias's position. */
    method ResolveAlias(id: nat, ghost hint: Tree) returns (r: Result, ghost t: Tree)
      requires Valid() && LiveAlias(nodes, id) && 1 <= budget <= MAX_RESOLVED_NODES
      modifies `nodes, `next, `active, `budget, `copied
      ensures Valid() && active == old(active) && next >= old(next) && budget >= old(budget)
      ensures Promised(origin, old(nodes), nodes, old(next), active, id, hint, r, t)
      ensures Counted(origin, active, id, hint, old(copied), copied, old(budget) - 1, budget, r)
      ensures !r.TooLarge? ==> budget <= MAX_RESOLVED_NODES
      ensures r.TooLarge? ==> budget > MAX_RESOLVED_NODES
      decreases Depth(), if ranks.None? || id in origin then 1 else 0, RankOf(id), hint, 0
    {
      hide Sound, Promised, Closed, Grown, Apart, Plain, Placed, Unplaced, Evolves, Erased, CopiedTo, Edge, Extends,
           Ranked, LiveAlias, Marks, Counted;
      SoundAlias(origin, nodes, first, next, id);
      SoundIsClosed(origin, nodes, first, next);
      var target := nodes[id].link.target;
      if target in active {
        CycleFound(origin, nodes, next, active, id, hint, target);
        CycleIsCounted(origin, active, id, hint, copied, budget - 1);
        return Cyclic, Nil;
      }
      ActivatingShrinks(origin.Keys, active, target);
      active := active + {target};
      ghost var within := active;
      r, t := Resolve(target, Nil);
      active := active - {target};
      if !r.Resolved? {
        TargetFails(origin, old(nodes), nodes, old(next), active, id, hint, target, r, t);
        FailedTargetIsCounted(origin, active, id, hint, old(copied), copied, old(budget) - 1, budget, r);
        return r, Nil;
      }
      TargetIsResolved(origin, old(nodes), nodes, old(next), within, target, r.id, t);
      label Done:
      var copy := CopyTo(id, r.id, t);
      CopyIsCounted(origin, active, id, hint, old(copied), copied, old(budget) - 1, old@Done(budget), budget, r.id, t,
        copy);
      if !copy.Resolved? {
        CopyFails(origin, old(nodes), old@Done(nodes), nodes, old(next), within, id, hint, target, r.id, t);
        return copy, Nil;
      }
      AliasIsResolved(origin, old(nodes), old@Done(nodes), nodes, old(next), within, id, hint, r.id, copy.id, t);
      return copy, CopiedTo(t, origin[id].line, origin[id].column);
    }

    /** Any other node: its content resolved entry by entry, each written back where it was. */
    method ResolveContent(id: nat, ghost hint: Tree) returns (r: Result, ghost t: Tree)
      requires Valid() && id != 0 && id in nodes && nodes[id].link.Content? && 1 <= budget <= MAX_RESOLVED_NODES
      requires id !in origin ==> Plain(nodes, id, hint)
      modifies `nodes, `next, `active, `budget, `copied
      ensures Valid() && active == old(active) && next >= old(next) && budget >= old(budget)
      ensures Promised(origin, old(nodes), nodes, old(next), active, id, hint, r, t)
      ensures Counted(origin, active, id, hint, old(copied), copied, old(budget) - 1, budget, r)
      ensures !r.TooLarge? ==> budget <= MAX_RESOLVED_NODES
      ensures r.TooLarge? ==> budget > MAX_RESOLVED_NODES
      decreases Depth(), if ranks.None? || id in origin then 1 else 0, RankOf(id), hint, 0
    {
      hide Sound, Promised, Progress, Entry, Closed, Plain, Edge, LiveAlias, Ranked, Refers, Marks, Counted,
           CountedEntries;
      var n := |nodes[id].link.items|;
      ghost var kids: seq<Tree> := [];
      ProgressStarts(origin, nodes, first, next, id, hint);
      NoEntriesCounted(origin, nodes, first, next, active, id, hint, copied, budget);
      SoundIsClosed(origin, nodes, first, next);
      for i := 0 to n
        invariant Valid() && active == old(active) && next >= old(next)
        invariant old(budget) <= budget <= MAX_RESOLVED_NODES
        invariant id in nodes && nodes[id].link.Content? && |nodes[id].link.items| == n
        invariant Progress(origin, old(nodes), nodes, id, hint, i, kids)
        invariant id !in origin ==> Plain(nodes, id, hint)
        invariant CountedEntries(origin, active, id, hint, i, old(copied), copied, old(budget), budget)
      {
        label Before:
        SoundIsClosed(origin, nodes, first, next);
        var e := nodes[id].link.items[i];
        ghost var kid := EntryAt(origin, nodes, first, next, id, hint, i);
        EntryIsLess(origin, nodes, id, hint, i, kid);
        if ranks.Some? && id in origin && e in origin { RankFalls(origin, ranks.value, id, e); }
        var c, k := Resolve(e, kid);
        if !c.Resolved? {
          PromisedCycles(origin, old@Before(nodes), nodes, old@Before(next), active, e, kid, c, k);
          EntryIn(origin, old@Before(nodes), id, hint, i, kid);
          FailedEntryIsCounted(
            origin, old@Before(nodes), first, old@Before(next), active, id, hint, i, kid, old(copied),
            old@Before(copied),
            copied, old(budget) - 1, old@Before(budget), budget, c);
          EntryFails(origin, old(nodes), old@Before(nodes), nodes, old(next), old@Before(next), active, id, hint, i,
            kids, kid, c, k);
          return c, Nil;
        }
        ProgressMade(origin, old(nodes), old@Before(nodes), nodes, first, old@Before(next), next, active, id, hint, i,
          kids, kid, c.id, k);
        EntryIsCounted(
          origin, old@Before(nodes), first, old@Before(next), active, id, hint, i, kid, old(copied), old@Before(copied),
          copied, old(budget), old@Before(budget), budget, c.id);
        PromisedPlaces(origin, old@Before(nodes), nodes, first, old@Before(next), active, e, kid, c.id, k);
        MarksWritten(origin, old@Before(nodes), nodes, first, old@Before(next), copied, id, hint, i, kid, c.id);
        if LiveAlias(old@Before(nodes), e) { copied := copied + {(id, i)}; }
        nodes := nodes[id := With(nodes[id], i, c.id)];
        kids := kids + [k];
        UncopiedStays(origin, old(nodes), nodes, id, hint, i + 1, kids);
      }
      ContentIsCounted(
        origin, old(nodes), nodes, first, next, active, id, hint, n, old(copied), copied, old(budget) - 1, budget);
      t := TreeOf(nodes[id], false, kids);
      ContentIsResolved(origin, old(nodes), nodes, first, next, old(next), active, id, hint, kids);
      return Resolved(id), t;
    }
  }

  // ---- the whole document ----

  lemma FiniteWhenUnfolded(g: Graph, id: nat, t: Tree)
    requires Closed(g) && Refers(g, id) && Unfolds(g, id, t)
    ensures !ReachesCycle(g, id)
  {
    FiniteExactlyWithoutCycles(g, id);
    var fuel: nat :| Unfold(g, id, fuel) == Some(t);
  }

  /** Resolves every alias of a document. It succeeds exactly when no cycle of content and alias edges is
      reachable and the visits resolving takes are within the bound, and then its result is, by content
      edges alone, the tree the document unfolds to. It reports a cycle exactly when one is reachable and
      finding it takes no more visits than that. Given ranks, as any parsed document has, the recursion
      ends whether or not the bound is there. */
  method ResolveAliases(g: Graph, root: nat, free: nat, ghost ranks: Option<map<nat, nat>>)
    returns (r: Result, h: Graph, visits: nat, ghost t: Tree)
    requires Closed(g) && Refers(g, root) && 0 < free && (forall k | k in g :: k < free)
    requires ranks.Some? ==> Ranked(g, ranks.value)
    ensures r.Resolved? <==> !ReachesCycle(g, root) && Ends(g, root) && Visits(g, root) <= 1_000_000
    ensures r.Cyclic? <==> ReachesCycle(g, root) && Ends(g, root) && Visits(g, root) <= 1_000_000
    ensures !r.TooLarge? ==> Ends(g, root) && visits == Visits(g, root)
    ensures r.Resolved? ==> Unfolds(g, root, t) && Plain(h, r.id, t) && (Placed(g) ==> Placed(h))
  {
    hide ReachesCycle, Unfolds, Plain, Placed, Returns, Takes, Ends, Visits;
    var resolver := new Resolver(g, free, ranks);
    r, t := resolver.Resolve(root, Nil);
    h, visits := resolver.nodes, resolver.budget;
    if r.Resolved? { FiniteWhenUnfolded(g, root, t); }
    if r.Cyclic? { ReturningIsACycle(g, root); }
    if r.TooLarge? {
      PastTheBound(g, root);
    } else {
      VisitsAre(g, root, Trip(visits, resolver.copied, r.Cyclic?));
    }
  }

  lemma PastTheBound(g: Graph, root: nat)
    requires Exceeds(g, root, {}, {}, MAX_RESOLVED_NODES)
    ensures Ends(g, root) ==> Visits(g, root) > MAX_RESOLVED_NODES
  {
    if Ends(g, root) {
      var trip :| Takes(g, root, {}, {}, trip);
      VisitsAre(g, root, trip);
    }
  }

  // ---- nothing is shared ----

  /** The node a path of content indices leads to, and its tree. */
  function At(g: Graph, id: nat, path: seq<nat>): nat {
    if path == [] then id
    else
      var parent := At(g, id, path[..|path| - 1]);
      var i := path[|path| - 1];
      if parent != 0 && parent in g && g[parent].link.Content? && i < |g[parent].link.items|
      then g[parent].link.items[i]
      else 0
  }

  function TreeAt(t: Tree, path: seq<nat>): Tree {
    if path == [] then t
    else
      var parent := TreeAt(t, path[..|path| - 1]);
      var i := path[|path| - 1];
      if parent.Tree? && i < |parent.kids| then parent.kids[i] else Nil
  }

  lemma {:induction false} PathsFollowTrees(g: Graph, id: nat, t: Tree, path: seq<nat>)
    requires Plain(g, id, t)
    ensures Plain(g, At(g, id, path), TreeAt(t, path))
    decreases |path|
  {
    if path != [] { PathsFollowTrees(g, id, t, path[..|path| - 1]); }
  }

  lemma {:induction false} PlainIsUnique(g: Graph, id: nat, t: Tree, u: Tree)
    requires Plain(g, id, t) && Plain(g, id, u)
    ensures t == u
    decreases t
  {
    if t.Tree? && g[id].link.Content? {
      forall i | 0 <= i < |t.kids| ensures t.kids[i] == u.kids[i] {
        PlainIsUnique(g, g[id].link.items[i], t.kids[i], u.kids[i]);
      }
      assert t.kids == u.kids;
    }
  }

  lemma KidsAreSmaller(ts: seq<Tree>, i: nat)
    requires i < |ts|
    ensures Size(ts[i]) <= Sizes(ts)
  {
    OneMoreKid(ts, i);
  }

  lemma {:induction false} SubtreesAreSmaller(t: Tree, path: seq<nat>)
    requires path != [] && TreeAt(t, path).Tree?
    ensures Size(TreeAt(t, path)) < Size(t)
    decreases |path|
  {
    var before, i := path[..|path| - 1], path[|path| - 1];
    var parent := TreeAt(t, before);
    KidsAreSmaller(parent.kids, i);
    if before != [] { SubtreesAreSmaller(t, before); }
  }

  lemma NeverItsOwnPart(g: Graph, id: nat, t: Tree, path: seq<nat>)
    requires Plain(g, id, t) && path != [] && id != 0
    ensures At(g, id, path) != id
  {
    PathsFollowTrees(g, id, t, path);
    if At(g, id, path) == id {
      PlainIsUnique(g, id, t, TreeAt(t, path));
      SubtreesAreSmaller(t, path);
      assert false;
    }
  }

  /** In a resolved document whose nodes each had one place, no node is at two positions. */
  lemma {:induction false} NothingIsShared(g: Graph, id: nat, t: Tree, p: seq<nat>, q: seq<nat>)
    requires Placed(g) && Plain(g, id, t) && At(g, id, p) == At(g, id, q) != 0
    ensures p == q
    decreases |p| + |q|
  {
    if p == [] {
      if q != [] { NeverItsOwnPart(g, id, t, q); }
    } else if q == [] {
      NeverItsOwnPart(g, id, t, p);
    } else {
      var a, b := At(g, id, p[..|p| - 1]), At(g, id, q[..|q| - 1]);
      assert g[a].link.items[p[|p| - 1]] == g[b].link.items[q[|q| - 1]];
      NothingIsShared(g, id, t, p[..|p| - 1], q[..|q| - 1]);
      assert p == p[..|p| - 1] + [p[|p| - 1]] && q == q[..|q| - 1] + [q[|q| - 1]];
    }
  }

  /** And it holds no alias, nor any copy of one that was alive. */
  lemma NoAliasIsLeft(g: Graph, id: nat, t: Tree, path: seq<nat>)
    requires Plain(g, id, t)
    ensures !LiveAlias(g, At(g, id, path))
  {
    PathsFollowTrees(g, id, t, path);
  }
}
