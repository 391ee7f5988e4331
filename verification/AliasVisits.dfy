/** How many nodes resolving a document visits, with nothing to stop it but a cycle: one for every node
    entered, and for a live alias its target's visits and then one for every node of the copy made. A
    content entry that a copy already stands in for costs that copy's nodes.  */
module AliasVisits {
  import opened Text
  import opened Aliases

  /** A walk that came to its end: the visits it took, the entries copies stand in for after it, and
      whether it ended because it found an anchor that contains itself. */
  datatype Trip = Trip(visits: nat, copied: set<(nat, nat)>, loops: bool)

  /** The nodes of the tree a node stands for. */
  ghost function Weight(g: Graph, id: nat): nat {
    if exists t :: Unfolds(g, id, t) then
      var t :| Unfolds(g, id, t);
      Size(t)
    else 0
  }

  lemma WeightOf(g: Graph, id: nat, t: Tree)
    requires Unfolds(g, id, t)
    ensures Weight(g, id) == Size(t)
  {
    forall u | Unfolds(g, id, u) ensures u == t { UnfoldingIsUnique(g, id, t, u); }
  }

  ghost function Travel(g: Graph, id: nat, active: set<nat>, copied: set<(nat, nat)>, fuel: nat): Option<Trip>
    decreases fuel, 0, 0
  {
    if id !in g then Some(Trip(0, copied, false))
    else if fuel == 0 then None
    else match g[id].link
      case Alias(target) =>
        if target == 0 then Some(Trip(1, copied, false))
        else if target in active then Some(Trip(1, copied, true))
        else
          var trip := Travel(g, target, active + {target}, copied, fuel - 1);
          if trip.None? then None
          else if trip.value.loops then Some(trip.value.(visits := 1 + trip.value.visits))
          else Some(trip.value.(visits := 1 + trip.value.visits + Weight(g, target)))
      case Content(items) =>
        var trip := TravelAll(g, id, |items|, active, copied, fuel - 1);
        if trip.None? then None else Some(trip.value.(visits := 1 + trip.value.visits))
  }

  /** The first n content entries of a node, in order, up to a cycle. */
  ghost function TravelAll(
      g: Graph, id: nat, n: nat, active: set<nat>, copied: set<(nat, nat)>, fuel: nat): Option<Trip>
    requires id in g && g[id].link.Content? && n <= |g[id].link.items|
    decreases fuel, 1, n
  {
    if n == 0 then Some(Trip(0, copied, false))
    else
      var before := TravelAll(g, id, n - 1, active, copied, fuel);
      if before.None? || before.value.loops then before
      else
        var trip := TravelEntry(g, id, n - 1, active, before.value.copied, fuel);
        if trip.None? then None else Some(trip.value.(visits := before.value.visits + trip.value.visits))
  }

  ghost function TravelEntry(
      g: Graph, id: nat, i: nat, active: set<nat>, copied: set<(nat, nat)>, fuel: nat): Option<Trip>
    requires id in g && g[id].link.Content? && i < |g[id].link.items|
    decreases fuel, 0, 1
  {
    var item := g[id].link.items[i];
    if (id, i) in copied then Some(Trip(Weight(g, item), copied, false))
    else
      var trip := Travel(g, item, active, copied, fuel);
      if trip.None? || trip.value.loops || !LiveAlias(g, item) then trip
      else Some(trip.value.(copied := trip.value.copied + {(id, i)}))
  }

  // ---- how far a walk goes does not depend on the fuel ----

  lemma {:induction false} FuelOnlyBounds(
      g: Graph, id: nat, active: set<nat>, copied: set<(nat, nat)>, fuel: nat, more: nat)
    requires fuel <= more && Travel(g, id, active, copied, fuel).Some?
    ensures Travel(g, id, active, copied, more) == Travel(g, id, active, copied, fuel)
    decreases fuel, 0, 0
  {
    if id in g {
      match g[id].link
      case Alias(target) =>
        if target != 0 && target !in active {
          FuelOnlyBounds(g, target, active + {target}, copied, fuel - 1, more - 1);
        }
      case Content(items) => FuelOnlyBoundsAll(g, id, |items|, active, copied, fuel - 1, more - 1);
    }
  }

  lemma {:induction false} FuelOnlyBoundsAll(
      g: Graph, id: nat, n: nat, active: set<nat>, copied: set<(nat, nat)>, fuel: nat, more: nat)
    requires id in g && g[id].link.Content? && n <= |g[id].link.items|
    requires fuel <= more && TravelAll(g, id, n, active, copied, fuel).Some?
    ensures TravelAll(g, id, n, active, copied, more) == TravelAll(g, id, n, active, copied, fuel)
    decreases fuel, 1, n
  {
    if n > 0 {
      FuelOnlyBoundsAll(g, id, n - 1, active, copied, fuel, more);
      var before := TravelAll(g, id, n - 1, active, copied, fuel).value;
      if !before.loops { FuelOnlyBoundsEntry(g, id, n - 1, active, before.copied, fuel, more); }
    }
  }

  lemma {:induction false} FuelOnlyBoundsEntry(
      g: Graph, id: nat, i: nat, active: set<nat>, copied: set<(nat, nat)>, fuel: nat, more: nat)
    requires id in g && g[id].link.Content? && i < |g[id].link.items|
    requires fuel <= more && TravelEntry(g, id, i, active, copied, fuel).Some?
    ensures TravelEntry(g, id, i, active, copied, more) == TravelEntry(g, id, i, active, copied, fuel)
    decreases fuel, 0, 1
  {
    if (id, i) !in copied { FuelOnlyBounds(g, g[id].link.items[i], active, copied, fuel, more); }
  }

  /** The walk from a node ends, and this is how. */
  ghost predicate Takes(g: Graph, id: nat, active: set<nat>, copied: set<(nat, nat)>, trip: Trip) {
    exists fuel: nat :: Travel(g, id, active, copied, fuel) == Some(trip)
  }

  ghost predicate TakesAll(g: Graph, id: nat, n: nat, active: set<nat>, copied: set<(nat, nat)>, trip: Trip)
    requires id in g && g[id].link.Content? && n <= |g[id].link.items|
  {
    exists fuel: nat :: TravelAll(g, id, n, active, copied, fuel) == Some(trip)
  }

  ghost predicate TakesEntry(g: Graph, id: nat, i: nat, active: set<nat>, copied: set<(nat, nat)>, trip: Trip)
    requires id in g && g[id].link.Content? && i < |g[id].link.items|
  {
    exists fuel: nat :: TravelEntry(g, id, i, active, copied, fuel) == Some(trip)
  }

  lemma TripIsUnique(g: Graph, id: nat, active: set<nat>, copied: set<(nat, nat)>, a: Trip, b: Trip)
    requires Takes(g, id, active, copied, a) && Takes(g, id, active, copied, b)
    ensures a == b
  {
    var m: nat :| Travel(g, id, active, copied, m) == Some(a);
    var n: nat :| Travel(g, id, active, copied, n) == Some(b);
    if m <= n { FuelOnlyBounds(g, id, active, copied, m, n); } else { FuelOnlyBounds(g, id, active, copied, n, m); }
  }

  // ---- one step of the walk ----

  lemma NilTakes(g: Graph, id: nat, active: set<nat>, copied: set<(nat, nat)>)
    requires id !in g
    ensures Takes(g, id, active, copied, Trip(0, copied, false))
  {
    assert Travel(g, id, active, copied, 0) == Some(Trip(0, copied, false));
  }

  /** A dangling alias, or one whose target is being resolved already. */
  lemma AliasStops(g: Graph, id: nat, active: set<nat>, copied: set<(nat, nat)>)
    requires id in g && g[id].link.Alias? && (g[id].link.target == 0 || g[id].link.target in active)
    ensures Takes(g, id, active, copied, Trip(1, copied, g[id].link.target != 0))
  {
    assert Travel(g, id, active, copied, 1) == Some(Trip(1, copied, g[id].link.target != 0));
  }

  /** A live alias's walk, given its target's. */
  function Copying(g: Graph, trip: Trip, weight: nat): Trip {
    trip.(visits := 1 + trip.visits + if trip.loops then 0 else weight)
  }

  lemma AliasTakes(g: Graph, id: nat, active: set<nat>, copied: set<(nat, nat)>, trip: Trip)
    requires LiveAlias(g, id) && g[id].link.target !in active
    requires Takes(g, g[id].link.target, active + {g[id].link.target}, copied, trip)
    ensures Takes(g, id, active, copied, Copying(g, trip, Weight(g, g[id].link.target)))
  {
    var target := g[id].link.target;
    var fuel: nat :| Travel(g, target, active + {target}, copied, fuel) == Some(trip);
    assert Travel(g, id, active, copied, fuel + 1) == Some(Copying(g, trip, Weight(g, target)));
  }

  lemma AliasTook(g: Graph, id: nat, active: set<nat>, copied: set<(nat, nat)>, trip: Trip) returns (inner: Trip)
    requires LiveAlias(g, id) && g[id].link.target !in active && Takes(g, id, active, copied, trip)
    ensures Takes(g, g[id].link.target, active + {g[id].link.target}, copied, inner)
    ensures trip == Copying(g, inner, Weight(g, g[id].link.target))
  {
    var target := g[id].link.target;
    var fuel: nat :| Travel(g, id, active, copied, fuel) == Some(trip);
    inner := Travel(g, target, active + {target}, copied, fuel - 1).value;
  }

  lemma ContentTakes(g: Graph, id: nat, active: set<nat>, copied: set<(nat, nat)>, trip: Trip)
    requires id in g && g[id].link.Content? && TakesAll(g, id, |g[id].link.items|, active, copied, trip)
    ensures Takes(g, id, active, copied, trip.(visits := 1 + trip.visits))
  {
    var n := |g[id].link.items|;
    var fuel: nat :| TravelAll(g, id, n, active, copied, fuel) == Some(trip);
    assert Travel(g, id, active, copied, fuel + 1) == Some(trip.(visits := 1 + trip.visits));
  }

  lemma NoEntriesTake(g: Graph, id: nat, active: set<nat>, copied: set<(nat, nat)>)
    requires id in g && g[id].link.Content?
    ensures TakesAll(g, id, 0, active, copied, Trip(0, copied, false))
  {
    assert TravelAll(g, id, 0, active, copied, 0) == Some(Trip(0, copied, false));
  }

  /** One entry more. */
  lemma EntryTakes(
      g: Graph, id: nat, i: nat, active: set<nat>, copied: set<(nat, nat)>, before: Trip, trip: Trip)
    requires id in g && g[id].link.Content? && i < |g[id].link.items| && !before.loops
    requires TakesAll(g, id, i, active, copied, before) && TakesEntry(g, id, i, active, before.copied, trip)
    ensures TakesAll(g, id, i + 1, active, copied, trip.(visits := before.visits + trip.visits))
  {
    var m: nat :| TravelAll(g, id, i, active, copied, m) == Some(before);
    var n: nat :| TravelEntry(g, id, i, active, before.copied, n) == Some(trip);
    var fuel := if m <= n then n else m;
    FuelOnlyBoundsAll(g, id, i, active, copied, m, fuel);
    FuelOnlyBoundsEntry(g, id, i, active, before.copied, n, fuel);
    assert TravelAll(g, id, i + 1, active, copied, fuel) == Some(trip.(visits := before.visits + trip.visits));
  }

  /** A cycle found at an entry ends the whole node. */
  lemma {:induction false} CycleEndsAll(
      g: Graph, id: nat, n: nat, m: nat, active: set<nat>, copied: set<(nat, nat)>, trip: Trip)
    requires id in g && g[id].link.Content? && n <= m <= |g[id].link.items|
    requires TakesAll(g, id, n, active, copied, trip) && trip.loops
    ensures TakesAll(g, id, m, active, copied, trip)
    decreases m - n
  {
    if n < m {
      var fuel: nat :| TravelAll(g, id, n, active, copied, fuel) == Some(trip);
      assert TravelAll(g, id, n + 1, active, copied, fuel) == Some(trip);
      CycleEndsAll(g, id, n + 1, m, active, copied, trip);
    }
  }

  lemma CopiedEntryTakes(g: Graph, id: nat, i: nat, active: set<nat>, copied: set<(nat, nat)>)
    requires id in g && g[id].link.Content? && i < |g[id].link.items| && (id, i) in copied
    ensures TakesEntry(g, id, i, active, copied, Trip(Weight(g, g[id].link.items[i]), copied, false))
  {
    assert TravelEntry(g, id, i, active, copied, 0) == Some(Trip(Weight(g, g[id].link.items[i]), copied, false));
  }

  /** An entry's walk, given its node's. */
  function Standing(g: Graph, id: nat, i: nat, item: nat, trip: Trip): Trip {
    if trip.loops || !LiveAlias(g, item) then trip else trip.(copied := trip.copied + {(id, i)})
  }

  lemma FreshEntryTakes(g: Graph, id: nat, i: nat, active: set<nat>, copied: set<(nat, nat)>, trip: Trip)
    requires id in g && g[id].link.Content? && i < |g[id].link.items| && (id, i) !in copied
    requires Takes(g, g[id].link.items[i], active, copied, trip)
    ensures TakesEntry(g, id, i, active, copied, Standing(g, id, i, g[id].link.items[i], trip))
  {
    var item := g[id].link.items[i];
    var fuel: nat :| Travel(g, item, active, copied, fuel) == Some(trip);
    assert TravelEntry(g, id, i, active, copied, fuel) == Some(Standing(g, id, i, item, trip));
  }

  // ---- a walk that goes past a bound ----

  /** However the walk from a node ends, it takes more than the room left. */
  ghost predicate Exceeds(g: Graph, id: nat, active: set<nat>, copied: set<(nat, nat)>, room: int) {
    forall trip | Takes(g, id, active, copied, trip) :: trip.visits > room
  }

  ghost predicate EntryExceeds(g: Graph, id: nat, i: nat, active: set<nat>, copied: set<(nat, nat)>, room: int)
    requires id in g && g[id].link.Content? && i < |g[id].link.items|
  {
    forall trip | TakesEntry(g, id, i, active, copied, trip) :: trip.visits > room
  }

  lemma EntersOne(g: Graph, id: nat, active: set<nat>, copied: set<(nat, nat)>)
    requires id in g
    ensures Exceeds(g, id, active, copied, 0)
  {
    forall trip | Takes(g, id, active, copied, trip) ensures trip.visits > 0 {
      var fuel: nat :| Travel(g, id, active, copied, fuel) == Some(trip);
    }
  }

  lemma AliasExceeds(g: Graph, id: nat, active: set<nat>, copied: set<(nat, nat)>, room: int)
    requires LiveAlias(g, id) && g[id].link.target !in active
    requires Exceeds(g, g[id].link.target, active + {g[id].link.target}, copied, room - 1)
    ensures Exceeds(g, id, active, copied, room)
  {
    forall trip | Takes(g, id, active, copied, trip) ensures trip.visits > room {
      var inner := AliasTook(g, id, active, copied, trip);
    }
  }

  lemma CopyExceeds(g: Graph, id: nat, active: set<nat>, copied: set<(nat, nat)>, trip: Trip, room: int)
    requires LiveAlias(g, id) && g[id].link.target !in active && !trip.loops
    requires Takes(g, g[id].link.target, active + {g[id].link.target}, copied, trip)
    requires 1 + trip.visits + Weight(g, g[id].link.target) > room
    ensures Exceeds(g, id, active, copied, room)
  {
    AliasTakes(g, id, active, copied, trip);
    forall other | Takes(g, id, active, copied, other) ensures other.visits > room {
      TripIsUnique(g, id, active, copied, other, Copying(g, trip, Weight(g, g[id].link.target)));
    }
  }

  lemma {:induction false} FewerTakeLess(
      g: Graph, id: nat, m: nat, n: nat, active: set<nat>, copied: set<(nat, nat)>, fuel: nat)
    requires id in g && g[id].link.Content? && m <= n <= |g[id].link.items|
    requires TravelAll(g, id, n, active, copied, fuel).Some?
    ensures var less := TravelAll(g, id, m, active, copied, fuel);
      less.Some? && less.value.visits <= TravelAll(g, id, n, active, copied, fuel).value.visits
    decreases n
  {
    if m < n { FewerTakeLess(g, id, m, n - 1, active, copied, fuel); }
  }

  lemma EntryTook(
      g: Graph, id: nat, i: nat, active: set<nat>, copied: set<(nat, nat)>, before: Trip, fuel: nat)
    returns (entry: Trip)
    requires id in g && g[id].link.Content? && i < |g[id].link.items| && !before.loops
    requires TakesAll(g, id, i, active, copied, before) && TravelAll(g, id, i + 1, active, copied, fuel).Some?
    ensures TakesEntry(g, id, i, active, before.copied, entry)
    ensures TravelAll(g, id, i + 1, active, copied, fuel).value.visits == before.visits + entry.visits
  {
    hide TravelEntry;
    var m: nat :| TravelAll(g, id, i, active, copied, m) == Some(before);
    FewerTakeLess(g, id, i, i + 1, active, copied, fuel);
    if m <= fuel {
      FuelOnlyBoundsAll(g, id, i, active, copied, m, fuel);
    } else {
      FuelOnlyBoundsAll(g, id, i, active, copied, fuel, m);
    }
    entry := TravelEntry(g, id, i, active, before.copied, fuel).value;
  }

  /** An entry that goes past the room left after the ones before it takes the whole node past it. */
  lemma ContentExceeds(
      g: Graph, id: nat, i: nat, active: set<nat>, copied: set<(nat, nat)>, before: Trip, room: int)
    requires id in g && g[id].link.Content? && i < |g[id].link.items| && !before.loops
    requires TakesAll(g, id, i, active, copied, before)
    requires EntryExceeds(g, id, i, active, before.copied, room - 1 - before.visits)
    ensures Exceeds(g, id, active, copied, room)
  {
    hide TravelAll;
    forall trip | Takes(g, id, active, copied, trip) ensures trip.visits > room {
      var fuel: nat :| Travel(g, id, active, copied, fuel) == Some(trip);
      FewerTakeLess(g, id, i + 1, |g[id].link.items|, active, copied, fuel - 1);
      var entry := EntryTook(g, id, i, active, copied, before, fuel - 1);
    }
  }

  lemma CopiedEntryExceeds(g: Graph, id: nat, i: nat, active: set<nat>, copied: set<(nat, nat)>, room: int)
    requires id in g && g[id].link.Content? && i < |g[id].link.items| && (id, i) in copied
    requires Weight(g, g[id].link.items[i]) > room
    ensures EntryExceeds(g, id, i, active, copied, room)
  {
  }

  lemma FreshEntryExceeds(g: Graph, id: nat, i: nat, active: set<nat>, copied: set<(nat, nat)>, room: int)
    requires id in g && g[id].link.Content? && i < |g[id].link.items| && (id, i) !in copied
    requires Exceeds(g, g[id].link.items[i], active, copied, room)
    ensures EntryExceeds(g, id, i, active, copied, room)
  {
    forall trip | TakesEntry(g, id, i, active, copied, trip) ensures trip.visits > room {
      var fuel: nat :| TravelEntry(g, id, i, active, copied, fuel) == Some(trip);
      assert Takes(g, g[id].link.items[i], active, copied, Travel(g, g[id].link.items[i], active, copied, fuel).value);
    }
  }

  // ---- which walks end ----

  /** Every walk through a graph that unfolds to a tree ends. */
  lemma {:induction false} FiniteGraphsAreWalked(
      g: Graph, id: nat, active: set<nat>, copied: set<(nat, nat)>, fuel: nat)
    requires Unfold(g, id, fuel).Some?
    ensures Travel(g, id, active, copied, fuel).Some?
    decreases fuel, 0
  {
    if id in g {
      match g[id].link
      case Alias(target) =>
        if target != 0 && target !in active {
          FiniteGraphsAreWalked(g, target, active + {target}, copied, fuel - 1);
        }
      case Content(items) =>
        AllMeansEach(g, items, fuel - 1);
        FiniteEntriesAreWalked(g, id, |items|, active, copied, fuel - 1);
    }
  }

  lemma {:induction false} FiniteEntriesAreWalked(
      g: Graph, id: nat, n: nat, active: set<nat>, copied: set<(nat, nat)>, fuel: nat)
    requires id in g && g[id].link.Content? && n <= |g[id].link.items|
    requires forall i | 0 <= i < n :: Unfold(g, g[id].link.items[i], fuel).Some?
    ensures TravelAll(g, id, n, active, copied, fuel).Some?
    decreases fuel, 1, n
  {
    if n > 0 {
      FiniteEntriesAreWalked(g, id, n - 1, active, copied, fuel);
      var before := TravelAll(g, id, n - 1, active, copied, fuel).value;
      FiniteGraphsAreWalked(g, g[id].link.items[n - 1], active, before.copied, fuel);
    }
  }

  /** Content edges go down, as in any parsed document, whatever its aliases do. */
  predicate Ranked(g: Graph, rank: map<nat, nat>) {
    forall k | k in g && g[k].link.Content? ::
      k in rank && forall c | c in g[k].link.items && c != 0 :: c in rank && rank[c] < rank[k]
  }

  function RankIn(rank: map<nat, nat>, id: nat): nat { if id in rank then rank[id] else 0 }

  /** Every walk through a parsed document ends, cyclic or not, with nothing to bound it: an alias's
      target becomes active, of which there are only so many, and content goes down. */
  lemma {:induction false} ParsedDocumentsAreWalked(
      g: Graph, rank: map<nat, nat>, id: nat, active: set<nat>, copied: set<(nat, nat)>) returns (trip: Trip)
    requires Closed(g) && Ranked(g, rank)
    ensures Takes(g, id, active, copied, trip)
    decreases |g.Keys - active|, if id in g && g[id].link.Content? then 1 else 0, RankIn(rank, id), 1, 0
  {
    if id !in g {
      trip := Trip(0, copied, false);
      NilTakes(g, id, active, copied);
    } else if g[id].link.Content? {
      var inner := ParsedEntriesAreWalked(g, rank, id, |g[id].link.items|, active, copied);
      ContentTakes(g, id, active, copied, inner);
      trip := inner.(visits := 1 + inner.visits);
    } else if g[id].link.target == 0 || g[id].link.target in active {
      AliasStops(g, id, active, copied);
      trip := Trip(1, copied, g[id].link.target != 0);
    } else {
      var target := g[id].link.target;
      assert Refers(g, target);
      assert g.Keys - active == (g.Keys - (active + {target})) + {target};
      var inner := ParsedDocumentsAreWalked(g, rank, target, active + {target}, copied);
      AliasTakes(g, id, active, copied, inner);
      trip := Copying(g, inner, Weight(g, target));
    }
  }

  lemma {:induction false} ParsedEntriesAreWalked(
      g: Graph, rank: map<nat, nat>, id: nat, n: nat, active: set<nat>, copied: set<(nat, nat)>) returns (trip: Trip)
    requires Closed(g) && Ranked(g, rank) && id in g && g[id].link.Content? && n <= |g[id].link.items|
    ensures TakesAll(g, id, n, active, copied, trip)
    decreases |g.Keys - active|, 1, RankIn(rank, id), 0, n
  {
    if n == 0 {
      NoEntriesTake(g, id, active, copied);
      trip := Trip(0, copied, false);
    } else {
      var before := ParsedEntriesAreWalked(g, rank, id, n - 1, active, copied);
      var item := g[id].link.items[n - 1];
      if before.loops {
        CycleEndsAll(g, id, n - 1, n, active, copied, before);
        trip := before;
      } else {
        var entry: Trip;
        if (id, n - 1) in before.copied {
          CopiedEntryTakes(g, id, n - 1, active, before.copied);
          entry := Trip(Weight(g, item), before.copied, false);
        } else {
          assert item in g[id].link.items;
          var inner := ParsedDocumentsAreWalked(g, rank, item, active, before.copied);
          FreshEntryTakes(g, id, n - 1, active, before.copied, inner);
          entry := Standing(g, id, n - 1, item, inner);
        }
        EntryTakes(g, id, n - 1, active, copied, before, entry);
        trip := entry.(visits := before.visits + entry.visits);
      }
    }
  }

  // ---- a whole document ----

  ghost predicate Ends(g: Graph, root: nat) { exists trip :: Takes(g, root, {}, {}, trip) }

  /** How many nodes resolving a document visits when nothing bounds it. */
  ghost function Visits(g: Graph, root: nat): nat
    requires Ends(g, root)
  {
    var trip :| Takes(g, root, {}, {}, trip);
    trip.visits
  }

  lemma VisitsAre(g: Graph, root: nat, trip: Trip)
    requires Takes(g, root, {}, {}, trip)
    ensures Ends(g, root) && Visits(g, root) == trip.visits
  {
    forall other | Takes(g, root, {}, {}, other) ensures other == trip {
      TripIsUnique(g, root, {}, {}, other, trip);
    }
  }

  /** Resolving ends of itself when no cycle is reachable, and on any parsed document. */
  lemma ResolvingEnds(g: Graph, root: nat, rank: map<nat, nat>)
    requires Closed(g) && Refers(g, root) && (!ReachesCycle(g, root) || Ranked(g, rank))
    ensures Ends(g, root)
  {
    if Ranked(g, rank) {
      var trip := ParsedDocumentsAreWalked(g, rank, root, {}, {});
    } else {
      FiniteExactlyWithoutCycles(g, root);
      var fuel: nat :| Unfold(g, root, fuel).Some?;
      FiniteGraphsAreWalked(g, root, {}, {}, fuel);
      assert Takes(g, root, {}, {}, Travel(g, root, {}, {}, fuel).value);
    }
  }

  // ---- the walk finds a cycle exactly when there is one ----

  lemma {:induction false} LoopingReturns(
      g: Graph, id: nat, active: set<nat>, copied: set<(nat, nat)>, fuel: nat)
    requires Closed(g) && Travel(g, id, active, copied, fuel).Some? && Travel(g, id, active, copied, fuel).value.loops
    ensures Returns(g, active, id)
    decreases fuel, 0
  {
    hide Returns;
    match g[id].link
    case Alias(target) =>
      assert Refers(g, target) && Edge(g, id, target);
      if target !in active {
        LoopingReturns(g, target, active + {target}, copied, fuel - 1);
        ReturnsWithout(g, active, target);
      }
      ReturnsFromChild(g, active, id, target);
    case Content(items) =>
      LoopingEntryReturns(g, id, |items|, active, copied, fuel - 1);
  }

  lemma {:induction false} LoopingEntryReturns(
      g: Graph, id: nat, n: nat, active: set<nat>, copied: set<(nat, nat)>, fuel: nat)
    requires Closed(g) && id in g && g[id].link.Content? && n <= |g[id].link.items|
    requires TravelAll(g, id, n, active, copied, fuel).Some? && TravelAll(g, id, n, active, copied, fuel).value.loops
    ensures Returns(g, active, id)
    decreases fuel, 1, n
  {
    hide Returns;
    var before := TravelAll(g, id, n - 1, active, copied, fuel).value;
    if before.loops {
      LoopingEntryReturns(g, id, n - 1, active, copied, fuel);
    } else {
      var item := g[id].link.items[n - 1];
      assert item in g[id].link.items && Refers(g, item);
      LoopingReturns(g, item, active, before.copied, fuel);
      ReturnsFromChild(g, active, id, item);
    }
  }

  /** Copies only ever stand in for nodes that unfold. */
  ghost predicate CopiesUnfold(g: Graph, copied: set<(nat, nat)>) {
    forall k: nat, i: nat | (k, i) in copied && k in g && g[k].link.Content? && i < |g[k].link.items| ::
      Finite(g, g[k].link.items[i])
  }

  lemma {:induction false} EndingUnfolds(
      g: Graph, id: nat, active: set<nat>, copied: set<(nat, nat)>, fuel: nat)
    requires CopiesUnfold(g, copied)
    requires Travel(g, id, active, copied, fuel).Some? && !Travel(g, id, active, copied, fuel).value.loops
    ensures Finite(g, id) && CopiesUnfold(g, Travel(g, id, active, copied, fuel).value.copied)
    decreases fuel, 0
  {
    hide CopiesUnfold;
    if id !in g {
      NilUnfolds(g, id);
    } else {
      match g[id].link
      case Alias(target) =>
        if target == 0 {
          assert Unfold(g, id, 1).Some?;
        } else {
          EndingUnfolds(g, target, active + {target}, copied, fuel - 1);
          var enough: nat :| Unfold(g, target, enough).Some?;
          assert Unfold(g, id, enough + 1).Some?;
        }
      case Content(items) =>
        var enough := EndingEntriesUnfold(g, id, |items|, active, copied, fuel - 1);
        AllMeansEach(g, items, enough);
        assert Unfold(g, id, enough + 1).Some?;
    }
  }

  lemma {:induction false} EndingEntriesUnfold(
      g: Graph, id: nat, n: nat, active: set<nat>, copied: set<(nat, nat)>, fuel: nat) returns (enough: nat)
    requires CopiesUnfold(g, copied) && id in g && g[id].link.Content? && n <= |g[id].link.items|
    requires TravelAll(g, id, n, active, copied, fuel).Some? && !TravelAll(g, id, n, active, copied, fuel).value.loops
    ensures forall i | 0 <= i < n :: Unfold(g, g[id].link.items[i], enough).Some?
    ensures CopiesUnfold(g, TravelAll(g, id, n, active, copied, fuel).value.copied)
    decreases fuel, 1, n
  {
    hide Unfold;
    if n == 0 {
      enough := 0;
    } else {
      var before := EndingEntriesUnfold(g, id, n - 1, active, copied, fuel);
      var item, marks := g[id].link.items[n - 1], TravelAll(g, id, n - 1, active, copied, fuel).value.copied;
      if (id, n - 1) !in marks { EndingUnfolds(g, item, active, marks, fuel); }
      var last: nat :| Unfold(g, item, last).Some?;
      enough := if before <= last then last else before;
      FuelIsIrrelevant(g, item, last, enough);
      forall i | 0 <= i < n - 1 ensures Unfold(g, g[id].link.items[i], enough).Some? {
        FuelIsIrrelevant(g, g[id].link.items[i], before, enough);
      }
    }
  }

  /** A walk that ends has found a cycle exactly when the document reaches one. */
  lemma LoopsExactlyOnCycles(g: Graph, root: nat, trip: Trip)
    requires Closed(g) && Refers(g, root) && Takes(g, root, {}, {}, trip)
    ensures trip.loops <==> ReachesCycle(g, root)
  {
    hide Returns, ReachesCycle;
    var fuel: nat :| Travel(g, root, {}, {}, fuel) == Some(trip);
    if trip.loops {
      LoopingReturns(g, root, {}, {}, fuel);
      ReturningIsACycle(g, root);
    } else {
      EndingUnfolds(g, root, {}, {}, fuel);
      FiniteExactlyWithoutCycles(g, root);
    }
  }

  // ---- visits pay for the result ----

  lemma {:induction false} WalksPayForTheirTrees(
      g: Graph, id: nat, active: set<nat>, copied: set<(nat, nat)>, fuel: nat, t: Tree)
    requires Unfold(g, id, fuel) == Some(t) && Travel(g, id, active, copied, fuel).Some?
    requires !Travel(g, id, active, copied, fuel).value.loops
    ensures Size(t) <= Travel(g, id, active, copied, fuel).value.visits
    decreases fuel, 0
  {
    if id in g {
      match g[id].link
      case Alias(target) =>
        if target != 0 {
          var original := Unfold(g, target, fuel - 1).value;
          WeightOf(g, target, original);
          CopiesWeighTheSame(original, g[id].line, g[id].column);
        }
      case Content(items) =>
        AllMeansEach(g, items, fuel - 1);
        EntriesPayForTheirTrees(g, id, |items|, active, copied, fuel - 1, t.kids);
        assert t.kids[..|items|] == t.kids;
    }
  }

  lemma {:induction false} EntriesPayForTheirTrees(
      g: Graph, id: nat, n: nat, active: set<nat>, copied: set<(nat, nat)>, fuel: nat, kids: seq<Tree>)
    requires id in g && g[id].link.Content? && n <= |g[id].link.items| == |kids|
    requires forall i | 0 <= i < |kids| :: Unfold(g, g[id].link.items[i], fuel) == Some(kids[i])
    requires TravelAll(g, id, n, active, copied, fuel).Some? && !TravelAll(g, id, n, active, copied, fuel).value.loops
    ensures Sizes(kids[..n]) <= TravelAll(g, id, n, active, copied, fuel).value.visits
    decreases fuel, 1, n
  {
    if n > 0 {
      var item, before := g[id].link.items[n - 1], TravelAll(g, id, n - 1, active, copied, fuel).value;
      EntriesPayForTheirTrees(g, id, n - 1, active, copied, fuel, kids);
      OneMoreKid(kids, n - 1);
      if (id, n - 1) in before.copied {
        WeightOf(g, item, kids[n - 1]);
      } else {
        WalksPayForTheirTrees(g, item, active, before.copied, fuel, kids[n - 1]);
      }
    }
  }

  lemma {:induction false} ErasingKeepsSize(t: Tree)
    ensures Size(Erased(t)) == Size(t)
    decreases t, 1
  {
    if t.Tree? { ErasingKeepsSizes(t, |t.kids|); }
  }

  lemma {:induction false} ErasingKeepsSizes(t: Tree, n: nat)
    requires t.Tree? && n <= |t.kids|
    ensures Sizes(Erased(t).kids[..n]) == Sizes(t.kids[..n])
    ensures n == |t.kids| ==> Sizes(Erased(t).kids) == Sizes(t.kids)
    decreases t, 0, n
  {
    if n > 0 {
      ErasingKeepsSizes(t, n - 1);
      ErasingKeepsSize(t.kids[n - 1]);
      OneMoreKid(t.kids, n - 1);
      OneMoreKid(Erased(t).kids, n - 1);
    }
    assert n == |t.kids| ==> Erased(t).kids[..n] == Erased(t).kids && t.kids[..n] == t.kids;
  }

  lemma CopiesWeighTheSame(t: Tree, line: int, column: int)
    ensures Size(CopiedTo(t, line, column)) == Size(t)
  {
    ErasingKeepsSize(t);
  }

  /** The tree a document resolves to has no more nodes than resolving it visits, so a document within the
      bound never resolves to a tree past it. */
  lemma ResultsAreWithinTheVisits(g: Graph, root: nat, t: Tree)
    requires Closed(g) && Refers(g, root) && Unfolds(g, root, t)
    ensures Ends(g, root) && Size(t) <= Visits(g, root)
  {
    var fuel: nat :| Unfold(g, root, fuel) == Some(t);
    FiniteGraphsAreWalked(g, root, {}, {}, fuel);
    var trip := Travel(g, root, {}, {}, fuel).value;
    assert Takes(g, root, {}, {}, trip);
    VisitsAre(g, root, trip);
    LoopsExactlyOnCycles(g, root, trip);
    FiniteExactlyWithoutCycles(g, root);
    WalksPayForTheirTrees(g, root, {}, {}, fuel, t);
  }
}
