/** Document graphs with aliases, the tree each one stands for, and when it stands for any.  */
module Aliases {
  import opened Text

  /** Node 0 is the nil node; an alias to it is dangling. */
  datatype Link = Content(items: seq<nat>) | Alias(target: nat)

  datatype Node = Node(data: string, anchor: string, line: int, column: int, link: Link)

  type Graph = map<nat, Node>

  datatype Tree = Nil | Tree(data: string, anchor: string, line: int, column: int, dangling: bool, kids: seq<Tree>)

  /** A tree with every anchor cleared. */
  function Erased(t: Tree): Tree {
    if t.Nil? then t else t.(anchor := "", kids := seq(|t.kids|, i requires 0 <= i < |t.kids| => Erased(t.kids[i])))
  }

  /** A copied tree, at the position of the alias it stands for. */
  function CopiedTo(t: Tree, line: int, column: int): Tree {
    var copy := Erased(t);
    if copy.Nil? then copy else copy.(line := line, column := column)
  }

  predicate Refers(g: Graph, id: nat) { id == 0 || id in g }

  predicate Closed(g: Graph) {
    0 !in g && forall k | k in g ::
      match g[k].link
      case Alias(target) => Refers(g, target)
      case Content(items) => forall c | c in items :: Refers(g, c)
  }

  predicate LiveAlias(g: Graph, id: nat) { id != 0 && id in g && g[id].link.Alias? && g[id].link.target != 0 }

  function TreeOf(n: Node, dangling: bool, kids: seq<Tree>): Tree {
    Tree(n.data, n.anchor, n.line, n.column, dangling, kids)
  }

  /** The tree a node unfolds to when no path from it is longer than the fuel. */
  function Unfold(g: Graph, id: nat, fuel: nat): Option<Tree>
    decreases fuel, 0
  {
    if fuel == 0 then None
    else if id !in g then Some(Nil)
    else match g[id].link
      case Alias(target) =>
        if target == 0 then Some(TreeOf(g[id], true, []))
        else
          var t := Unfold(g, target, fuel - 1);
          if t.None? then None else Some(CopiedTo(t.value, g[id].line, g[id].column))
      case Content(items) =>
        var kids := UnfoldAll(g, items, fuel - 1);
        if kids.None? then None else Some(TreeOf(g[id], false, kids.value))
  }

  function UnfoldAll(g: Graph, ids: seq<nat>, fuel: nat): Option<seq<Tree>>
    decreases fuel, 1, |ids|
  {
    if ids == [] then Some([])
    else
      var n := |ids| - 1;
      var before, last := UnfoldAll(g, ids[..n], fuel), Unfold(g, ids[n], fuel);
      if before.None? || last.None? then None else Some(before.value + [last.value])
  }

  lemma {:induction false} AllMeansEach(g: Graph, ids: seq<nat>, fuel: nat)
    ensures UnfoldAll(g, ids, fuel).Some? <==> forall i | 0 <= i < |ids| :: Unfold(g, ids[i], fuel).Some?
    ensures UnfoldAll(g, ids, fuel).Some? ==>
      var kids := UnfoldAll(g, ids, fuel).value;
      |kids| == |ids| && forall i | 0 <= i < |ids| :: Unfold(g, ids[i], fuel) == Some(kids[i])
    decreases |ids|
  {
    if ids != [] {
      var n := |ids| - 1;
      AllMeansEach(g, ids[..n], fuel);
      assert forall i | 0 <= i < n :: ids[..n][i] == ids[i];
    }
  }

  /** More fuel changes nothing. */
  lemma {:induction false} FuelIsIrrelevant(g: Graph, id: nat, fuel: nat, more: nat)
    requires fuel <= more && Unfold(g, id, fuel).Some?
    ensures Unfold(g, id, more) == Unfold(g, id, fuel)
    decreases fuel
  {
    if id in g {
      match g[id].link
      case Alias(target) => if target != 0 { FuelIsIrrelevant(g, target, fuel - 1, more - 1); }
      case Content(items) =>
        AllMeansEach(g, items, fuel - 1);
        AllMeansEach(g, items, more - 1);
        forall i | 0 <= i < |items| ensures Unfold(g, items[i], more - 1) == Unfold(g, items[i], fuel - 1) {
          FuelIsIrrelevant(g, items[i], fuel - 1, more - 1);
        }
        assert UnfoldAll(g, items, more - 1).value == UnfoldAll(g, items, fuel - 1).value;
    }
  }

  /** The graph below a node unfolds to a finite tree. */
  ghost predicate Unfolds(g: Graph, id: nat, t: Tree) { exists fuel: nat :: Unfold(g, id, fuel) == Some(t) }

  ghost predicate Finite(g: Graph, id: nat) { exists fuel: nat :: Unfold(g, id, fuel).Some? }

  lemma UnfoldingIsUnique(g: Graph, id: nat, t: Tree, u: Tree)
    requires Unfolds(g, id, t) && Unfolds(g, id, u)
    ensures t == u
  {
    var m: nat :| Unfold(g, id, m) == Some(t);
    var n: nat :| Unfold(g, id, n) == Some(u);
    if m <= n { FuelIsIrrelevant(g, id, m, n); } else { FuelIsIrrelevant(g, id, n, m); }
  }

  /** How many nodes a tree has. */
  function Size(t: Tree): nat {
    if t.Nil? then 0 else 1 + Sizes(t.kids)
  }

  function Sizes(ts: seq<Tree>): nat {
    if ts == [] then 0 else Sizes(ts[..|ts| - 1]) + Size(ts[|ts| - 1])
  }

  lemma {:induction false} SomeAreFewer(ts: seq<Tree>, n: nat)
    requires n <= |ts|
    ensures Sizes(ts[..n]) <= Sizes(ts)
  {
    if n < |ts| {
      var most := ts[..|ts| - 1];
      assert most[..n] == ts[..n];
      SomeAreFewer(most, n);
    } else {
      assert ts[..n] == ts;
    }
  }

  lemma OneMoreKid(ts: seq<Tree>, n: nat)
    requires n < |ts|
    ensures Sizes(ts[..n + 1]) == Sizes(ts[..n]) + Size(ts[n]) <= Sizes(ts)
  {
    assert ts[..n + 1][..n] == ts[..n];
    SomeAreFewer(ts, n + 1);
  }

  // ---- cycles ----

  /** Content and alias edges. */
  predicate Edge(g: Graph, a: nat, b: nat) {
    a in g && b in g &&
    match g[a].link
    case Alias(target) => b == target
    case Content(items) => b in items
  }

  /** A nonempty walk along edges. */
  predicate Walk(g: Graph, path: seq<nat>) {
    |path| >= 2 && forall i | 0 <= i < |path| - 1 :: Edge(g, path[i], path[i + 1])
  }

  /** Some walk from a node comes back to a node it has been to. */
  ghost predicate ReachesCycle(g: Graph, id: nat) {
    exists path: seq<nat>, i: nat, j: nat ::
      |path| >= 2 && Walk(g, path) && path[0] == id && i < j < |path| && path[i] == path[j]
  }

  lemma EdgeSpendsFuel(g: Graph, a: nat, b: nat, fuel: nat)
    requires Closed(g) && Edge(g, a, b) && Unfold(g, a, fuel).Some?
    ensures fuel > 0 && Unfold(g, b, fuel - 1).Some?
  {
    match g[a].link
    case Alias(target) =>
    case Content(items) =>
      AllMeansEach(g, items, fuel - 1);
      var i :| 0 <= i < |items| && items[i] == b;
  }

  lemma {:induction false} WalkSpendsFuel(g: Graph, path: seq<nat>, i: nat, j: nat, fuel: nat)
    requires Closed(g) && Walk(g, path) && i <= j < |path| && Unfold(g, path[i], fuel).Some?
    ensures fuel > j - i && Unfold(g, path[j], fuel - (j - i)).Some?
    decreases j - i
  {
    if i < j {
      EdgeSpendsFuel(g, path[i], path[i + 1], fuel);
      WalkSpendsFuel(g, path, i + 1, j, fuel - 1);
    }
  }

  lemma {:induction false} LoopsNeverUnfold(g: Graph, path: seq<nat>, i: nat, j: nat, fuel: nat)
    requires Closed(g) && Walk(g, path) && i < j < |path| && path[i] == path[j]
    ensures Unfold(g, path[i], fuel).None?
    decreases fuel
  {
    if Unfold(g, path[i], fuel).Some? {
      WalkSpendsFuel(g, path, i, j, fuel);
      LoopsNeverUnfold(g, path, i, j, fuel - (j - i));
      assert false;
    }
  }

  function Elements(path: seq<nat>): set<nat> { set k | k in path }

  /** A walk so far, from its start to the node it has reached. */
  predicate Reached(g: Graph, path: seq<nat>) {
    path != [] && path[|path| - 1] in g && (|path| >= 2 ==> Walk(g, path))
  }

  lemma RepeatIsACycle(g: Graph, path: seq<nat>, i: nat)
    requires Reached(g, path) && i < |path| - 1
    ensures path[i] == path[|path| - 1] ==> ReachesCycle(g, path[0])
  {
    assert Walk(g, path);
  }

  lemma NeverRepeats(g: Graph, path: seq<nat>)
    requires Reached(g, path) && !ReachesCycle(g, path[0])
    ensures path[|path| - 1] !in Elements(path[..|path| - 1])
  {
    forall i | 0 <= i < |path| - 1 ensures path[i] != path[|path| - 1] {
      RepeatIsACycle(g, path, i);
    }
  }

  lemma OneStepFurther(g: Graph, path: seq<nat>, b: nat)
    requires Reached(g, path) && Edge(g, path[|path| - 1], b)
    ensures Reached(g, path + [b]) && (path + [b])[0] == path[0] && (path + [b])[..|path|] == path
    ensures Elements(path) == Elements(path[..|path| - 1]) + {path[|path| - 1]}
  {
    var n := |path| - 1;
    assert path == path[..n] + [path[n]];
    forall i | 0 <= i < |path| ensures Edge(g, (path + [b])[i], (path + [b])[i + 1]) {}
  }

  lemma ChildrenSuffice(g: Graph, id: nat, fuel: nat)
    requires Closed(g) && id in g && fuel > 0
    requires forall b | Edge(g, id, b) :: Unfold(g, b, fuel).Some?
    ensures Unfold(g, id, fuel + 1).Some?
  {
    match g[id].link
    case Alias(target) => if target != 0 { assert Edge(g, id, target); }
    case Content(items) =>
      forall i | 0 <= i < |items| ensures Unfold(g, items[i], fuel).Some? {
        assert items[i] in items && Refers(g, items[i]);
        if items[i] != 0 { assert Edge(g, id, items[i]); }
      }
      AllMeansEach(g, items, fuel);
  }

  /** Follows a walk that never repeats: it is never longer than the graph, which bounds the fuel. */
  lemma {:induction false} AcyclicUnfolds(g: Graph, path: seq<nat>)
    requires Closed(g) && Reached(g, path) && !ReachesCycle(g, path[0])
    requires Elements(path[..|path| - 1]) <= g.Keys
    ensures Unfold(g, path[|path| - 1], 1 + |g.Keys - Elements(path[..|path| - 1])|).Some?
    decreases |g.Keys - Elements(path[..|path| - 1])|
  {
    hide ReachesCycle, Walk, Unfold, Elements, Closed, Edge;
    var id := path[|path| - 1];
    var seen := Elements(path[..|path| - 1]);
    NeverRepeats(g, path);
    var fuel := |g.Keys - seen|;
    assert g.Keys - seen == (g.Keys - (seen + {id})) + {id};
    forall b | Edge(g, id, b) ensures Unfold(g, b, fuel).Some? {
      OneStepFurther(g, path, b);
      AcyclicUnfolds(g, path + [b]);
    }
    ChildrenSuffice(g, id, fuel);
  }

  /** A graph unfolds to a finite tree exactly when no cycle of content and alias edges is reachable. */
  lemma FiniteExactlyWithoutCycles(g: Graph, id: nat)
    requires Closed(g) && Refers(g, id)
    ensures Finite(g, id) <==> !ReachesCycle(g, id)
  {
    hide Unfold, Walk, Closed;
    if Finite(g, id) && ReachesCycle(g, id) {
      var fuel: nat :| Unfold(g, id, fuel).Some?;
      var path: seq<nat>, i: nat, j: nat :|
        |path| >= 2 && Walk(g, path) && path[0] == id && i < j < |path| && path[i] == path[j];
      WalkSpendsFuel(g, path, 0, i, fuel);
      LoopsNeverUnfold(g, path, i, j, fuel - i);
      assert false;
    }
    if !ReachesCycle(g, id) {
      if id in g {
        AcyclicUnfolds(g, [id]);
      } else {
        NilUnfolds(g, id);
      }
    }
  }

  lemma NilUnfolds(g: Graph, id: nat)
    requires id !in g
    ensures Finite(g, id)
  {
    assert Unfold(g, id, 1).Some?;
  }

  // ---- nodes that lead back to where they came from ----

  /** A node unfolds only if some active one does within less fuel: where an active node is a node on
      the current path, the node cannot unfold at all. */
  ghost predicate Returns(g: Graph, active: set<nat>, id: nat) {
    forall fuel: nat | Unfold(g, id, fuel).Some? ::
      fuel > 0 && exists a :: a in active && Unfold(g, a, fuel - 1).Some?
  }

  lemma ReturnsFromChild(g: Graph, active: set<nat>, id: nat, e: nat)
    requires Closed(g) && Edge(g, id, e) && (e in active || Returns(g, active, e))
    ensures Returns(g, active, id)
  {
    forall fuel: nat | Unfold(g, id, fuel).Some?
      ensures fuel > 0 && exists a :: a in active && Unfold(g, a, fuel - 1).Some?
    {
      EdgeSpendsFuel(g, id, e, fuel);
      if e !in active {
        var a :| a in active && Unfold(g, a, fuel - 2).Some?;
        FuelIsIrrelevant(g, a, fuel - 2, fuel - 1);
      }
    }
  }

  lemma {:induction false} ReturnsElsewhere(g: Graph, active: set<nat>, id: nat, fuel: nat)
    requires Returns(g, active + {id}, id) && Unfold(g, id, fuel).Some?
    ensures fuel > 0 && exists a :: a in active && Unfold(g, a, fuel - 1).Some?
    decreases fuel
  {
    var a :| a in active + {id} && Unfold(g, a, fuel - 1).Some?;
    if a == id {
      ReturnsElsewhere(g, active, id, fuel - 1);
      var b :| b in active && Unfold(g, b, fuel - 2).Some?;
      FuelIsIrrelevant(g, b, fuel - 2, fuel - 1);
    }
  }

  /** A node that returns to itself or an active node returns to an active node. */
  lemma ReturnsWithout(g: Graph, active: set<nat>, id: nat)
    requires Returns(g, active + {id}, id)
    ensures Returns(g, active, id)
  {
    forall fuel: nat | Unfold(g, id, fuel).Some?
      ensures fuel > 0 && exists a :: a in active && Unfold(g, a, fuel - 1).Some?
    {
      ReturnsElsewhere(g, active, id, fuel);
    }
  }

  /** With nothing active, only a node that reaches a cycle returns. */
  lemma ReturningIsACycle(g: Graph, id: nat)
    requires Closed(g) && Refers(g, id) && Returns(g, {}, id)
    ensures ReachesCycle(g, id)
  {
    FiniteExactlyWithoutCycles(g, id);
    forall fuel: nat ensures Unfold(g, id, fuel).None? {}
  }

  // ---- what the tree of a node is ----

  /** The tree at a path of positions. */
  function SubTree(t: Tree, path: seq<nat>): Option<Tree>
    decreases |path|
  {
    if path == [] then Some(t)
    else if t.Nil? || path[0] >= |t.kids| then None
    else SubTree(t.kids[path[0]], path[1..])
  }

  lemma {:induction false} ErasedAt(t: Tree, path: seq<nat>)
    ensures SubTree(Erased(t), path).Some? <==> SubTree(t, path).Some?
    ensures SubTree(t, path).Some? ==> SubTree(Erased(t), path).value == Erased(SubTree(t, path).value)
    decreases |path|
  {
    if path != [] && !t.Nil? && path[0] < |t.kids| {
      assert Erased(t).kids[path[0]] == Erased(t.kids[path[0]]);
      ErasedAt(t.kids[path[0]], path[1..]);
    }
  }

  /** A node with content is itself over the trees of its content, in order; a dangling alias is itself. */
  lemma NodesUnfoldAsThemselves(g: Graph, id: nat, t: Tree)
    requires Unfolds(g, id, t) && !LiveAlias(g, id) && 0 !in g
    ensures id !in g ==> t == Nil
    ensures id in g ==>
      && t.Tree? && t.data == g[id].data && t.anchor == g[id].anchor
      && t.line == g[id].line && t.column == g[id].column
      && (g[id].link.Alias? ==> t.dangling && t.kids == [])
      && (g[id].link.Content? ==>
           var items := g[id].link.items;
           !t.dangling && |t.kids| == |items| && forall i | 0 <= i < |items| :: Unfolds(g, items[i], t.kids[i]))
  {
    var fuel: nat :| Unfold(g, id, fuel) == Some(t);
    if id in g && g[id].link.Content? {
      var items := g[id].link.items;
      AllMeansEach(g, items, fuel - 1);
      forall i | 0 <= i < |items| ensures Unfolds(g, items[i], t.kids[i]) {
        assert Unfold(g, items[i], fuel - 1) == Some(t.kids[i]);
      }
    }
  }

  /** A live alias is its target's tree path by path, without an anchor anywhere, and at the alias's own
      line and column while everything beneath keeps its own. */
  lemma AliasesUnfoldAsCopies(g: Graph, id: nat, t: Tree, u: Tree, path: seq<nat>)
    requires LiveAlias(g, id) && Unfolds(g, id, t) && Unfolds(g, g[id].link.target, u)
    ensures
      var x, y := SubTree(t, path), SubTree(u, path);
      && (x.Some? <==> y.Some?)
      && (x.Some? ==> (x.value.Nil? <==> y.value.Nil?))
      && (x.Some? && x.value.Tree? ==>
           && x.value.data == y.value.data && x.value.dangling == y.value.dangling
           && |x.value.kids| == |y.value.kids| && x.value.anchor == ""
           && x.value.line == (if path == [] then g[id].line else y.value.line)
           && x.value.column == (if path == [] then g[id].column else y.value.column))
  {
    hide Unfold;
    AliasIsCopied(g, id, t, u);
    ErasedAt(u, path);
    if path != [] && u.Tree? {
      assert t.kids == Erased(u).kids;
      assert SubTree(t, path) == SubTree(Erased(u), path);
    }
  }

  lemma AliasIsCopied(g: Graph, id: nat, t: Tree, u: Tree)
    requires LiveAlias(g, id) && Unfolds(g, id, t) && Unfolds(g, g[id].link.target, u)
    ensures t == CopiedTo(u, g[id].line, g[id].column)
  {
    var fuel: nat :| Unfold(g, id, fuel) == Some(t);
    var v := Unfold(g, g[id].link.target, fuel - 1).value;
    UnfoldingIsUnique(g, g[id].link.target, u, v);
  }
}
