/** The pacing assertions: finitely many windows standing for every window, and consecutive gaps for
    every pair.  */
module Rates {
  datatype Entry = Entry(number: nat, arrived: int)

  // ---- sorting by arrival ----

  predicate Ascending(s: seq<Entry>) { forall i, j | 0 <= i < j < |s| :: s[i].arrived <= s[j].arrived }

  /** Puts an entry after every one that arrived no later. */
  function Insert(s: seq<Entry>, e: Entry): seq<Entry> {
    if s == [] then [e]
    else
      var n := |s| - 1;
      if s[n].arrived <= e.arrived then s + [e] else Insert(s[..n], e) + [s[n]]
  }

  function SortedByArrival(s: seq<Entry>): seq<Entry> {
    if s == [] then [] else Insert(SortedByArrival(s[..|s| - 1]), s[|s| - 1])
  }

  lemma AscendingAppend(s: seq<Entry>, e: Entry)
    requires Ascending(s) && forall x | x in s :: x.arrived <= e.arrived
    ensures Ascending(s + [e])
  {
    forall i, j | 0 <= i < j < |s + [e]| ensures (s + [e])[i].arrived <= (s + [e])[j].arrived {
      assert (s + [e])[i] in s;
    }
  }

  lemma {:induction false} InsertKeepsOrder(s: seq<Entry>, e: Entry)
    requires Ascending(s)
    ensures Ascending(Insert(s, e)) && |Insert(s, e)| == |s| + 1
    ensures forall x :: x in Insert(s, e) <==> x in s || x == e
  {
    if s != [] {
      var n := |s| - 1;
      assert s == s[..n] + [s[n]];
      if s[n].arrived > e.arrived {
        InsertKeepsOrder(s[..n], e);
        AscendingAppend(Insert(s[..n], e), s[n]);
      } else {
        AscendingAppend(s, e);
      }
    }
  }

  lemma {:induction false} SortSorts(s: seq<Entry>)
    ensures Ascending(SortedByArrival(s)) && |SortedByArrival(s)| == |s|
    ensures forall x :: x in SortedByArrival(s) <==> x in s
  {
    if s != [] {
      var n := |s| - 1;
      SortSorts(s[..n]);
      InsertKeepsOrder(SortedByArrival(s[..n]), s[n]);
      assert s == s[..n] + [s[n]];
    }
  }

  /** The entries that arrived at one instant, in order. */
  function ArrivedAt(s: seq<Entry>, t: int): seq<Entry> {
    if s == [] then []
    else ArrivedAt(s[..|s| - 1], t) + if s[|s| - 1].arrived == t then [s[|s| - 1]] else []
  }

  lemma {:induction false} InsertIsStable(s: seq<Entry>, e: Entry, t: int)
    requires Ascending(s)
    ensures ArrivedAt(Insert(s, e), t) == ArrivedAt(s, t) + if e.arrived == t then [e] else []
  {
    if s != [] {
      var n := |s| - 1;
      if s[n].arrived <= e.arrived {
        assert (s + [e])[..|s|] == s;
      } else {
        InsertIsStable(s[..n], e, t);
        var rest := Insert(s[..n], e);
        assert (rest + [s[n]])[..|rest|] == rest;
      }
    }
  }

  /** Entries that arrived together keep the order the caller gave them. */
  lemma {:induction false} SortIsStable(s: seq<Entry>, t: int)
    ensures ArrivedAt(SortedByArrival(s), t) == ArrivedAt(s, t)
  {
    if s != [] {
      SortIsStable(s[..|s| - 1], t);
      SortSorts(s[..|s| - 1]);
      InsertIsStable(SortedByArrival(s[..|s| - 1]), s[|s| - 1], t);
    }
  }

  // ---- windows ----

  predicate Within(e: Entry, t: int, per: int) { t <= e.arrived < t + per }

  /** How many arrivals the half-open window anchored at an instant holds. */
  function Held(s: seq<Entry>, t: int, per: int): nat {
    if s == [] then 0 else Held(s[..|s| - 1], t, per) + if Within(s[|s| - 1], t, per) then 1 else 0
  }

  lemma {:induction false} InsertHolds(s: seq<Entry>, e: Entry, t: int, per: int)
    ensures Held(Insert(s, e), t, per) == Held(s, t, per) + if Within(e, t, per) then 1 else 0
  {
    if s != [] {
      var n := |s| - 1;
      if s[n].arrived <= e.arrived {
        assert (s + [e])[..|s|] == s;
      } else {
        InsertHolds(s[..n], e, t, per);
        var rest := Insert(s[..n], e);
        assert (rest + [s[n]])[..|rest|] == rest;
      }
    }
  }

  lemma {:induction false} SortHolds(s: seq<Entry>, t: int, per: int)
    ensures Held(SortedByArrival(s), t, per) == Held(s, t, per)
  {
    if s != [] {
      SortHolds(s[..|s| - 1], t, per);
      InsertHolds(SortedByArrival(s[..|s| - 1]), s[|s| - 1], t, per);
    }
  }

  lemma {:induction false} HeldAppend(a: seq<Entry>, b: seq<Entry>, t: int, per: int)
    ensures Held(a + b, t, per) == Held(a, t, per) + Held(b, t, per)
    decreases |b|
  {
    if b == [] {
      assert a + b == a;
    } else {
      var n := |b| - 1;
      HeldAppend(a, b[..n], t, per);
      assert (a + b)[..|a + b| - 1] == a + b[..n];
    }
  }

  lemma {:induction false} HeldAllOrNone(s: seq<Entry>, t: int, per: int)
    ensures Held(s, t, per) <= |s|
    ensures (forall e | e in s :: Within(e, t, per)) ==> Held(s, t, per) == |s|
    ensures (forall e | e in s :: !Within(e, t, per)) ==> Held(s, t, per) == 0
  {
    if s != [] { HeldAllOrNone(s[..|s| - 1], t, per); }
  }

  /** The window the loop collects at an anchor: up to the first arrival past its end. */
  ghost predicate Collected(s: seq<Entry>, i: nat, per: int, end: nat)
  {
    && i < end <= |s|
    && (forall j | i <= j < end :: s[j].arrived < s[i].arrived + per)
    && (end < |s| ==> s[end].arrived >= s[i].arrived + per)
  }

  /** It holds no more than the window at that instant. */
  lemma CollectedIsHeld(s: seq<Entry>, i: nat, per: int, end: nat)
    requires Ascending(s) && per > 0 && Collected(s, i, per, end)
    ensures end - i <= Held(s, s[i].arrived, per)
  {
    hide Held;
    var t := s[i].arrived;
    assert s == s[..i] + s[i..end] + s[end..];
    HeldAppend(s[..i] + s[i..end], s[end..], t, per);
    HeldAppend(s[..i], s[i..end], t, per);
    forall e | e in s[i..end] ensures Within(e, t, per) {
      var j :| i <= j < end && s[j] == e;
    }
    HeldAllOrNone(s[i..end], t, per);
  }

  lemma {:induction false} FirstFrom(s: seq<Entry>, t: int, i: nat) returns (first: nat)
    requires Ascending(s) && i <= |s| && forall j | 0 <= j < i :: s[j].arrived < t
    ensures i <= first <= |s| && (forall j | 0 <= j < first :: s[j].arrived < t)
    ensures first < |s| ==> s[first].arrived >= t
    decreases |s| - i
  {
    if i == |s| || s[i].arrived >= t { first := i; } else { first := FirstFrom(s, t, i + 1); }
  }

  /** Every arrival of a window is in the one collected at its first arrival. */
  lemma CollectedHolds(s: seq<Entry>, t: int, per: int, i: nat, end: nat)
    requires Ascending(s) && per > 0 && Collected(s, i, per, end)
    requires s[i].arrived >= t && forall j | 0 <= j < i :: s[j].arrived < t
    ensures Held(s, t, per) <= end - i
  {
    hide Held;
    assert s == s[..i] + s[i..end] + s[end..];
    HeldAppend(s[..i] + s[i..end], s[end..], t, per);
    HeldAppend(s[..i], s[i..end], t, per);
    forall e | e in s[..i] ensures !Within(e, t, per) {
      var j :| 0 <= j < i && s[j] == e;
    }
    forall e | e in s[end..] ensures !Within(e, t, per) {
      var j :| end <= j < |s| && s[j] == e;
    }
    HeldAllOrNone(s[..i], t, per);
    HeldAllOrNone(s[i..end], t, per);
    HeldAllOrNone(s[end..], t, per);
  }

  /** A window at any instant holds no more than the one anchored at its first arrival collects. */
  lemma AnchorsSuffice(s: seq<Entry>, t: int, per: int) returns (i: nat)
    requires Ascending(s) && per > 0 && Held(s, t, per) > 0
    ensures i < |s| && forall end: nat | Collected(s, i, per, end) :: Held(s, t, per) <= end - i
  {
    hide Held;
    i := FirstFrom(s, t, 0);
    if i == |s| {
      forall e | e in s ensures !Within(e, t, per) {}
      HeldAllOrNone(s, t, per);
    } else {
      forall end: nat | Collected(s, i, per, end) ensures Held(s, t, per) <= end - i {
        CollectedHolds(s, t, per, i, end);
      }
    }
  }

  datatype Report = BadLimit | BadPeriod | Busy(anchor: Entry, window: seq<Entry>) | Close(before: Entry, after: Entry)

  ghost predicate WithinBudget(s: seq<Entry>, limit: int, per: int) { forall t: int :: Held(s, t, per) <= limit }

  /** The window of the arrival at k, collected from it on, is over the limit. */
  ghost predicate IsBusy(s: seq<Entry>, limit: int, per: int, k: nat) {
    exists end: nat :: Collected(s, k, per, end) && end - k > limit
  }

  /** A report of that window: its arrival, and every later one that came before the period was over. */
  ghost predicate TellsBusy(s: seq<Entry>, limit: int, per: int, k: nat, r: Report) {
    && r.Busy? && k < |s| && r.anchor == s[k] && |r.window| > limit
    && var end := k + |r.window|; end <= |s| && Collected(s, k, per, end) && r.window == s[k..end]
  }

  /** One report for each busy arrival of the first n, in order of arrival. */
  ghost predicate BusyAt(s: seq<Entry>, limit: int, per: int, n: nat, reports: seq<Report>, anchors: seq<nat>) {
    && |anchors| == |reports| && (forall i, j | 0 <= i < j < |anchors| :: anchors[i] < anchors[j])
    && (forall i | 0 <= i < |anchors| :: anchors[i] < n && TellsBusy(s, limit, per, anchors[i], reports[i]))
    && (forall k: nat | k < n && IsBusy(s, limit, per, k) :: k in anchors)
  }

  lemma BusyOneMore(
      s: seq<Entry>, limit: int, per: int, n: nat, end: nat, reports: seq<Report>, anchors: seq<nat>)
    requires BusyAt(s, limit, per, n, reports, anchors) && n < |s| && Collected(s, n, per, end)
    ensures if end - n > limit
            then BusyAt(s, limit, per, n + 1, reports + [Busy(s[n], s[n..end])], anchors + [n])
            else BusyAt(s, limit, per, n + 1, reports, anchors)
  {
    hide TellsBusy, IsBusy;
    assert end - n <= limit ==> !IsBusy(s, limit, per, n) by { BusyIsOver(s, limit, per, n, end); }
    if end - n > limit {
      var r, all := Busy(s[n], s[n..end]), anchors + [n];
      assert TellsBusy(s, limit, per, n, r) by { BusyIsOver(s, limit, per, n, end); }
      assert all[|anchors|] == n;
      forall k: nat | k < n + 1 && IsBusy(s, limit, per, k) ensures k in all {
        if k < n { assert k in anchors; }
      }
    }
  }

  lemma BusyIsOver(s: seq<Entry>, limit: int, per: int, n: nat, end: nat)
    requires n < |s| && Collected(s, n, per, end)
    ensures IsBusy(s, limit, per, n) <==> end - n > limit
    ensures end - n > limit ==> TellsBusy(s, limit, per, n, Busy(s[n], s[n..end]))
  {
    OneCollection(s, n, per, end);
  }

  /** Reports nothing exactly when no half-open window of the period, at whatever instant it starts,
      holds more than the limit; and otherwise every arrival whose window does. */
  method AssertMaxRate(entries: seq<Entry>, limit: int, per: int)
    returns (reports: seq<Report>, ghost anchors: seq<nat>)
    ensures limit < 1 ==> reports == [BadLimit]
    ensures limit >= 1 && per <= 0 ==> reports == [BadPeriod]
    ensures limit >= 1 && per > 0 ==> (reports == [] <==> WithinBudget(entries, limit, per))
    ensures limit >= 1 && per > 0 ==> forall r | r in reports ::
      && r.Busy? && r.anchor in entries && limit < |r.window| <= Held(entries, r.anchor.arrived, per)
    ensures limit >= 1 && per > 0 ==> BusyAt(SortedByArrival(entries), limit, per, |entries|, reports, anchors)
  {
    hide Held, SortedByArrival, WithinBudget, BusyAt;
    anchors := [];
    if limit < 1 { return [BadLimit], anchors; }
    if per <= 0 { return [BadPeriod], anchors; }
    reports := [];
    SortSorts(entries);
    if |entries| < 2 {
      FewAreWithinBudget(entries, limit, per);
      FewAreNotBusy(SortedByArrival(entries), limit, per);
      return;
    }
    var sorted := SortedByArrival(entries);
    NobodyIsBusyYet(sorted, limit, per);
    for i := 0 to |sorted|
      invariant forall r | r in reports ::
          r.Busy? && r.anchor in sorted && limit < |r.window| <= Held(entries, r.anchor.arrived, per)
      invariant reports == [] <==> forall k: nat, e: nat | k < i && Collected(sorted, k, per, e) :: e - k <= limit
      invariant BusyAt(sorted, limit, per, i, reports, anchors)
    {
      var end := i;
      while end < |sorted| && sorted[end].arrived < sorted[i].arrived + per
        invariant i <= end <= |sorted|
        invariant forall j | i <= j < end :: sorted[j].arrived < sorted[i].arrived + per
      {
        end := end + 1;
      }
      assert Collected(sorted, i, per, end);
      OneCollection(sorted, i, per, end);
      CollectedIsHeld(sorted, i, per, end);
      SortHolds(entries, sorted[i].arrived, per);
      BusyOneMore(sorted, limit, per, i, end, reports, anchors);
      if end - i > limit {
        reports := reports + [Busy(sorted[i], sorted[i..end])];
        anchors := anchors + [i];
      }
    }
    BudgetIsAnchored(entries, limit, per, reports == []);
  }

  lemma FewAreWithinBudget(s: seq<Entry>, limit: int, per: int)
    requires |s| < 2 && limit >= 1
    ensures WithinBudget(s, limit, per)
  {
    forall t: int ensures Held(s, t, per) <= limit { HeldAllOrNone(s, t, per); }
  }

  lemma FewAreNotBusy(s: seq<Entry>, limit: int, per: int)
    requires |s| < 2 && limit >= 1
    ensures BusyAt(s, limit, per, |s|, [], [])
  {
  }

  lemma NobodyIsBusyYet(s: seq<Entry>, limit: int, per: int)
    ensures BusyAt(s, limit, per, 0, [], [])
  {
  }

  lemma OneCollection(s: seq<Entry>, i: nat, per: int, end: nat)
    requires Collected(s, i, per, end)
    ensures forall e: nat | Collected(s, i, per, e) :: e == end
  {
  }

  lemma {:induction false} CollectionExists(s: seq<Entry>, i: nat, per: int, end: nat) returns (e: nat)
    requires per > 0 && i < end <= |s| && forall j | i <= j < end :: s[j].arrived < s[i].arrived + per
    ensures Collected(s, i, per, e)
    decreases |s| - end
  {
    if end == |s| || s[end].arrived >= s[i].arrived + per {
      e := end;
    } else {
      e := CollectionExists(s, i, per, end + 1);
    }
  }

  /** The anchored windows of the sorted arrivals stand for every window. */
  lemma BudgetIsAnchored(entries: seq<Entry>, limit: int, per: int, quiet: bool)
    requires limit >= 1 && per > 0
    requires var s := SortedByArrival(entries);
      quiet <==> forall k: nat, e: nat | k < |s| && Collected(s, k, per, e) :: e - k <= limit
    ensures quiet <==> WithinBudget(entries, limit, per)
  {
    var s := SortedByArrival(entries);
    SortSorts(entries);
    if quiet {
      forall t: int ensures Held(entries, t, per) <= limit {
        SortHolds(entries, t, per);
        if Held(s, t, per) > 0 {
          var i := AnchorsSuffice(s, t, per);
          var e := CollectionExists(s, i, per, i + 1);
        }
      }
    } else {
      var k: nat, e: nat :| k < |s| && Collected(s, k, per, e) && e - k > limit;
      CollectedIsHeld(s, k, per, e);
      SortHolds(entries, s[k].arrived, per);
    }
  }

  // ---- gaps ----

  predicate FarFrom(a: Entry, b: Entry, gap: int) { b.arrived - a.arrived >= gap || a.arrived - b.arrived >= gap }

  /** Every pair of arrivals is at least the gap apart. */
  predicate Spaced(s: seq<Entry>, gap: int) { forall i, j | 0 <= i < j < |s| :: FarFrom(s[i], s[j], gap) }

  lemma SpacedAppend(s: seq<Entry>, e: Entry, gap: int)
    ensures Spaced(s + [e], gap) <==> Spaced(s, gap) && forall x | x in s :: FarFrom(x, e, gap)
  {
    if Spaced(s + [e], gap) {
      forall i, j | 0 <= i < j < |s| ensures FarFrom(s[i], s[j], gap) {
        assert FarFrom((s + [e])[i], (s + [e])[j], gap);
      }
      forall x | x in s ensures FarFrom(x, e, gap) {
        var i :| 0 <= i < |s| && s[i] == x;
        assert FarFrom((s + [e])[i], (s + [e])[|s|], gap);
      }
    }
  }

  lemma {:induction false} InsertSpaces(s: seq<Entry>, e: Entry, gap: int)
    requires Ascending(s)
    ensures Spaced(Insert(s, e), gap) <==> Spaced(s, gap) && forall x | x in s :: FarFrom(x, e, gap)
  {
    if s == [] {
    } else {
      var n := |s| - 1;
      assert s == s[..n] + [s[n]];
      if s[n].arrived <= e.arrived {
        SpacedAppend(s, e, gap);
      } else {
        InsertSpaces(s[..n], e, gap);
        InsertKeepsOrder(s[..n], e);
        SpacedAppend(Insert(s[..n], e), s[n], gap);
        SpacedAppend(s[..n], s[n], gap);
        assert forall x :: x in s <==> x in s[..n] || x == s[n];
        assert FarFrom(s[n], e, gap) == FarFrom(e, s[n], gap);
        assert e in Insert(s[..n], e);
      }
    }
  }

  lemma {:induction false} SortSpaces(s: seq<Entry>, gap: int)
    ensures Spaced(SortedByArrival(s), gap) <==> Spaced(s, gap)
  {
    if s != [] {
      var n := |s| - 1;
      SortSpaces(s[..n], gap);
      SortSorts(s[..n]);
      InsertSpaces(SortedByArrival(s[..n]), s[n], gap);
      SpacedAppend(s[..n], s[n], gap);
      assert s == s[..n] + [s[n]];
    }
  }

  predicate TooClose(s: seq<Entry>, i: nat, gap: int)
    requires 1 <= i < |s|
  {
    s[i].arrived - s[i - 1].arrived < gap
  }

  /** For sorted arrivals the consecutive gaps decide. */
  lemma ConsecutiveGapsSuffice(s: seq<Entry>, gap: int)
    requires Ascending(s)
    ensures Spaced(s, gap) <==> forall i | 1 <= i < |s| :: !TooClose(s, i, gap)
  {
    if forall i | 1 <= i < |s| :: !TooClose(s, i, gap) {
      forall i, j | 0 <= i < j < |s| ensures FarFrom(s[i], s[j], gap) {
        assert !TooClose(s, j, gap);
        assert s[i].arrived <= s[j - 1].arrived || i == j - 1;
      }
    } else {
      var i :| 1 <= i < |s| && TooClose(s, i, gap);
      assert s[i - 1].arrived <= s[i].arrived;
      if Spaced(s, gap) { assert FarFrom(s[i - 1], s[i], gap); }
    }
  }

  predicate PairIn(r: Report, s: seq<Entry>, gap: int) {
    r.Close? && r.before in s && r.after in s && 0 <= r.after.arrived - r.before.arrived < gap
  }

  /** One report for each of the first n arrivals that came too soon after the one before it, in order. */
  ghost predicate CloseAt(s: seq<Entry>, gap: int, n: nat, reports: seq<Report>, places: seq<nat>) {
    && |places| == |reports| && (forall i, j | 0 <= i < j < |places| :: places[i] < places[j])
    && (forall i | 0 <= i < |places| ::
          && 1 <= places[i] < n && places[i] < |s| && TooClose(s, places[i], gap)
          && reports[i] == Close(s[places[i] - 1], s[places[i]]))
    && (forall k: nat | 1 <= k < n && k < |s| && TooClose(s, k, gap) :: k in places)
  }

  lemma CloseOneMore(s: seq<Entry>, gap: int, n: nat, reports: seq<Report>, places: seq<nat>)
    requires CloseAt(s, gap, n, reports, places) && 1 <= n < |s|
    ensures if TooClose(s, n, gap) then CloseAt(s, gap, n + 1, reports + [Close(s[n - 1], s[n])], places + [n])
            else CloseAt(s, gap, n + 1, reports, places)
  {
    var all := places + [n];
    forall k: nat | 1 <= k < n + 1 && TooClose(s, k, gap) && TooClose(s, n, gap) ensures k in all {
      assert all[|places|] == n;
      if k < n { assert k in places; }
    }
  }

  /** Reports nothing exactly when every pair of arrivals, in whatever order the journal holds them, is
      at least the gap apart; and otherwise every arrival that came too soon after the one before it. */
  method AssertMinGap(entries: seq<Entry>, gap: int) returns (reports: seq<Report>, ghost places: seq<nat>)
    ensures reports == [] <==> Spaced(entries, gap)
    ensures forall r | r in reports :: PairIn(r, entries, gap)
    ensures CloseAt(SortedByArrival(entries), gap, |entries|, reports, places)
  {
    hide CloseAt;
    reports, places := [], [];
    SortSorts(entries);
    NobodyIsCloseYet(SortedByArrival(entries), gap, if |entries| < 2 then |entries| else 1);
    if |entries| < 2 { return; }
    var sorted := SortedByArrival(entries);
    for i := 1 to |sorted|
      invariant CloseAt(sorted, gap, i, reports, places)
      invariant reports == [] <==> forall k | 1 <= k < i :: !TooClose(sorted, k, gap)
      invariant forall r | r in reports :: PairIn(r, sorted, gap)
    {
      var prev, cur := sorted[i - 1], sorted[i];
      if cur.arrived - prev.arrived < gap {
        assert TooClose(sorted, i, gap);
        CloseOneMore(sorted, gap, i, reports, places);
        reports := reports + [Close(prev, cur)];
        places := places + [i];
      } else {
        CloseOneMore(sorted, gap, i, reports, places);
      }
    }
    ConsecutiveGapsSuffice(sorted, gap);
    SortSpaces(entries, gap);
  }

  lemma NobodyIsCloseYet(s: seq<Entry>, gap: int, n: nat)
    requires n < 2
    ensures CloseAt(s, gap, n, [], [])
  {
  }
}
