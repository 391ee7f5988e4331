/** The load-time check that a poll script never leaves a terminal snapshot: a sparse evaluation that
    stands for walking every poll.  */
module Regressions {
  import opened Text
  import opened Turns

  /** What each poll position is served. */
  type Service = int -> Option<nat>

  /** A profile's own judgement of a turn: whether it is terminal, when that is known at all. */
  type Judge = nat -> Option<bool>

  function ScriptOf(turns: seq<Turn>, route: string): Service { i => Served(turns, route, i) }

  predicate TerminalAt(script: Service, judge: Judge, i: int) {
    script(i).Some? && judge(script(i).value) == Some(true)
  }

  predicate LiveAt(script: Service, judge: Judge, i: int) {
    script(i).Some? && judge(script(i).value) == Some(false)
  }

  datatype Regression = Regression(poll: int, turn: nat, terminalPoll: int, terminalTurn: nat)

  /** What a walk over poll positions has seen: the first terminal snapshot, the turns already
      reported, and the reports. */
  datatype Walk = Walk(first: Option<(int, nat)>, reported: set<nat>, out: seq<Regression>)

  function Visit(w: Walk, poll: int, served: Option<nat>, judge: Judge): Walk {
    if served.None? then w
    else match judge(served.value)
      case None => w
      case Some(true) => if w.first.None? then w.(first := Some((poll, served.value))) else w
      case Some(false) =>
        if w.first.Some? && served.value !in w.reported then
          w.(reported := w.reported + {served.value},
             out := w.out + [Regression(poll, served.value, w.first.value.0, w.first.value.1)])
        else w
  }

  /** Visiting the given positions in order. */
  function WalkOver(script: Service, judge: Judge, polls: seq<int>): Walk {
    if polls == [] then BLANK
    else
      var last := polls[|polls| - 1];
      Visit(WalkOver(script, judge, polls[..|polls| - 1]), last, script(last), judge)
  }

  lemma WalkLast(script: Service, judge: Judge, s: seq<int>, q: int)
    ensures WalkOver(script, judge, s + [q]) == Visit(WalkOver(script, judge, s), q, script(q), judge)
  {
    assert (s + [q])[..|s + [q]| - 1] == s;
  }

  const BLANK: Walk := Walk(None, {}, [])

  function UpTo(n: nat): seq<int> { seq(n + 1, i => i) }

  lemma WalkUpTo(script: Service, judge: Judge, n: nat)
    ensures WalkOver(script, judge, UpTo(n))
         == Visit(if n == 0 then BLANK else WalkOver(script, judge, UpTo(n - 1)), n, script(n), judge)
  {
    var before := if n == 0 then [] else UpTo(n - 1);
    assert UpTo(n) == before + [n];
    WalkLast(script, judge, before, n);
  }

  /** The naive walk: every poll from 0 to n. */
  function NaiveWalk(script: Service, judge: Judge, n: nat): seq<Regression> {
    WalkOver(script, judge, UpTo(n)).out
  }

  // ---- what a report says ----

  /** A report names the first terminal poll and the turn served there, and a later poll that is served,
      live, the turn it blames, as no poll between them is. */
  ghost predicate IsRegression(script: Service, judge: Judge, r: Regression) {
    && 0 <= r.terminalPoll < r.poll
    && script(r.terminalPoll) == Some(r.terminalTurn) && TerminalAt(script, judge, r.terminalPoll)
    && (forall i: nat | i < r.terminalPoll :: !TerminalAt(script, judge, i))
    && script(r.poll) == Some(r.turn) && LiveAt(script, judge, r.poll)
    && (forall q: nat | r.terminalPoll < q < r.poll :: script(q) != Some(r.turn))
  }

  ghost predicate Blames(out: seq<Regression>, turn: nat) { exists i | 0 <= i < |out| :: out[i].turn == turn }

  /** Poll q is served live after some terminal one. */
  ghost predicate Regresses(script: Service, judge: Judge, q: nat) {
    LiveAt(script, judge, q) && exists i: nat | i < q :: TerminalAt(script, judge, i)
  }

  /** Exactly the regressions of the polls up to n, one a turn, in poll order. */
  ghost predicate ReportsUpTo(script: Service, judge: Judge, n: nat, out: seq<Regression>) {
    && (forall i | 0 <= i < |out| :: IsRegression(script, judge, out[i]) && out[i].poll <= n)
    && (forall i, j | 0 <= i < j < |out| :: out[i].poll < out[j].poll && out[i].turn != out[j].turn)
    && (forall q: nat | q <= n && Regresses(script, judge, q) :: Blames(out, script(q).value))
  }

  /** And those of all polls. */
  ghost predicate ReportsAll(script: Service, judge: Judge, out: seq<Regression>) {
    && (forall i | 0 <= i < |out| :: IsRegression(script, judge, out[i]))
    && (forall i, j | 0 <= i < j < |out| :: out[i].poll < out[j].poll && out[i].turn != out[j].turn)
    && (forall q: nat | Regresses(script, judge, q) :: Blames(out, script(q).value))
  }

  /** What a walk remembers is the first terminal poll, and the turns it has blamed. */
  ghost predicate Remembers(script: Service, judge: Judge, n: nat, w: Walk) {
    && (w.first.None? ==> forall i: nat | i <= n :: !TerminalAt(script, judge, i))
    && (w.first.Some? ==>
         && 0 <= w.first.value.0 <= n && script(w.first.value.0) == Some(w.first.value.1)
         && TerminalAt(script, judge, w.first.value.0)
         && forall i: nat | i < w.first.value.0 :: !TerminalAt(script, judge, i))
    && (forall turn: nat :: turn in w.reported <==> Blames(w.out, turn))
    && ReportsUpTo(script, judge, n, w.out)
  }

  lemma BlamesOneMore(out: seq<Regression>, r: Regression)
    ensures forall turn: nat :: Blames(out + [r], turn) <==> Blames(out, turn) || turn == r.turn
  {
    forall turn: nat ensures Blames(out + [r], turn) <==> Blames(out, turn) || turn == r.turn {
      if Blames(out, turn) {
        var i :| 0 <= i < |out| && out[i].turn == turn;
        assert (out + [r])[i].turn == turn;
      }
      assert (out + [r])[|out|] == r;
    }
  }

  lemma NothingRemembered(script: Service, judge: Judge)
    ensures Remembers(script, judge, 0, Visit(BLANK, 0, script(0), judge))
  {
  }

  /** A live poll after the first terminal one whose turn is not yet blamed is a regression. */
  lemma NewRegression(script: Service, judge: Judge, n: nat, w: Walk)
    requires n > 0 && Remembers(script, judge, n - 1, w) && LiveAt(script, judge, n) && w.first.Some?
    requires script(n).value !in w.reported
    ensures IsRegression(script, judge, Regression(n, script(n).value, w.first.value.0, w.first.value.1))
  {
    var turn := script(n).value;
    forall q: nat | w.first.value.0 < q < n ensures script(q) != Some(turn) {
      if script(q) == Some(turn) { assert Regresses(script, judge, q); }
    }
  }

  lemma ReportOneMore(script: Service, judge: Judge, n: nat, out: seq<Regression>, r: Regression)
    requires n > 0 && ReportsUpTo(script, judge, n - 1, out) && IsRegression(script, judge, r) && r.poll == n
    requires !Blames(out, r.turn)
    ensures ReportsUpTo(script, judge, n, out + [r])
  {
    hide IsRegression, Blames;
    BlamesOneMore(out, r);
    forall i | 0 <= i < |out| ensures out[i].turn != r.turn { Blamed(out, i); }
    RegressionServes(script, judge, r);
  }

  lemma Blamed(out: seq<Regression>, i: nat)
    requires i < |out|
    ensures Blames(out, out[i].turn)
  {
  }

  lemma RegressionServes(script: Service, judge: Judge, r: Regression)
    requires IsRegression(script, judge, r)
    ensures script(r.poll) == Some(r.turn)
  {
  }

  lemma ReportNoMore(script: Service, judge: Judge, n: nat, out: seq<Regression>)
    requires n > 0 && ReportsUpTo(script, judge, n - 1, out)
    requires Regresses(script, judge, n) ==> Blames(out, script(n).value)
    ensures ReportsUpTo(script, judge, n, out)
  {
    hide IsRegression, Regresses, Blames;
  }

  lemma StepRemembers(script: Service, judge: Judge, n: nat, w: Walk)
    requires n > 0 && Remembers(script, judge, n - 1, w)
    ensures Remembers(script, judge, n, Visit(w, n, script(n), judge))
  {
    hide IsRegression, Blames, ReportsUpTo;
    if LiveAt(script, judge, n) && w.first.Some? && script(n).value !in w.reported {
      NewRegression(script, judge, n, w);
      var r := Regression(n, script(n).value, w.first.value.0, w.first.value.1);
      ReportOneMore(script, judge, n, w.out, r);
      BlamesOneMore(w.out, r);
    } else {
      ReportNoMore(script, judge, n, w.out);
    }
  }

  lemma {:induction false} WalksRemember(script: Service, judge: Judge, n: nat)
    ensures Remembers(script, judge, n, WalkOver(script, judge, UpTo(n)))
  {
    hide Remembers, WalkOver, Visit;
    WalkUpTo(script, judge, n);
    if n == 0 {
      NothingRemembered(script, judge);
    } else {
      WalksRemember(script, judge, n - 1);
      StepRemembers(script, judge, n, WalkOver(script, judge, UpTo(n - 1)));
    }
  }

  /** The naive walk reports exactly the regressions of its polls. */
  lemma NaiveWalkReports(script: Service, judge: Judge, n: nat)
    ensures ReportsUpTo(script, judge, n, NaiveWalk(script, judge, n))
  {
    hide ReportsUpTo, IsRegression, Blames, WalkOver;
    WalksRemember(script, judge, n);
  }

  // ---- increasing sequences of positions ----

  predicate Increasing(s: seq<int>) { forall i, j | 0 <= i < j < |s| :: s[i] < s[j] }

  lemma IncreasingLast(a: seq<int>)
    requires Increasing(a) && a != []
    ensures var x, rest := a[|a| - 1], a[..|a| - 1];
      && a == rest + [x] && Increasing(rest) && x in a
      && (forall q | q in a :: q <= x)
      && (forall q :: q in rest <==> q in a && q != x)
  {
  }

  lemma {:induction false} IncreasingIsUnique(a: seq<int>, b: seq<int>)
    requires Increasing(a) && Increasing(b) && forall q :: q in a <==> q in b
    ensures a == b
  {
    assert a != [] ==> a[0] in a;
    assert b != [] ==> b[0] in b;
    if a != [] {
      IncreasingLast(a);
      IncreasingLast(b);
      IncreasingIsUnique(a[..|a| - 1], b[..|b| - 1]);
    }
  }

  /** The entries of an increasing sequence that do not exceed n. */
  function AtMost(s: seq<int>, n: int): (r: seq<int>)
    requires Increasing(s)
    ensures Increasing(r) && forall q :: q in r <==> q in s && q <= n
  {
    if s == [] || s[|s| - 1] <= n then s
    else
      IncreasingLast(s);
      AtMost(s[..|s| - 1], n)
  }

  lemma AtMostSplit(s: seq<int>, n: int)
    requires Increasing(s)
    ensures AtMost(s, n) == if n in s then AtMost(s, n - 1) + [n] else AtMost(s, n - 1)
  {
    var a, b := AtMost(s, n), AtMost(s, n - 1);
    assert forall i | 0 <= i < |b| :: b[i] in b;
    IncreasingIsUnique(a, if n in s then b + [n] else b);
  }

  lemma InsertFront(x: int, r: seq<int>)
    requires Increasing(r) && forall q | q in r :: x < q
    ensures Increasing([x] + r)
  {
    assert forall i | 0 <= i < |r| :: r[i] in r;
  }

  function Insert(s: seq<int>, x: int): (r: seq<int>)
    requires Increasing(s)
    ensures Increasing(r) && forall q :: q in r <==> q == x || q in s
  {
    if s == [] then [x]
    else if x < s[0] then [x] + s
    else if x == s[0] then s
    else
      assert s == [s[0]] + s[1..] && forall q | q in s[1..] :: s[0] < q;
      InsertFront(s[0], Insert(s[1..], x));
      [s[0]] + Insert(s[1..], x)
  }

  /** slices.Sort followed by slices.Compact. */
  function SortCompact(s: seq<int>): (r: seq<int>)
    ensures Increasing(r) && forall q :: q in r <==> q in s
  {
    if s == [] then []
    else
      assert s == [s[0]] + s[1..];
      Insert(SortCompact(s[1..]), s[0])
  }

  // ---- the sparse walk ----

  /** Positions that start at zero and miss only positions served what the one before was. */
  ghost predicate Covers(script: Service, positions: seq<int>) {
    && Increasing(positions) && 0 in positions && (forall q | q in positions :: q >= 0)
    && forall n: nat | n > 0 && n !in positions :: script(n) == script(n - 1)
  }

  lemma VisitTwice(w: Walk, p: int, q: int, served: Option<nat>, judge: Judge)
    ensures Visit(Visit(w, p, served, judge), q, served, judge) == Visit(w, p, served, judge)
  {
  }

  lemma RepeatedStep(script: Service, judge: Judge, n: nat)
    requires n > 0 && script(n) == script(n - 1)
    ensures WalkOver(script, judge, UpTo(n)) == WalkOver(script, judge, UpTo(n - 1))
  {
    WalkUpTo(script, judge, n);
    WalkUpTo(script, judge, n - 1);
    var before := if n == 1 then BLANK else WalkOver(script, judge, UpTo(n - 2));
    VisitTwice(before, n - 1, n, script(n), judge);
  }

  /** Skipping the positions a cover misses changes nothing the walk sees. */
  lemma {:induction false} SparseWalkIsExact(script: Service, judge: Judge, positions: seq<int>, n: nat)
    requires Covers(script, positions)
    ensures WalkOver(script, judge, AtMost(positions, n)) == WalkOver(script, judge, UpTo(n))
  {
    hide WalkOver, Visit;
    if n == 0 {
      assert UpTo(0) == [0];
      IncreasingIsUnique(AtMost(positions, 0), UpTo(0));
    } else {
      SparseWalkIsExact(script, judge, positions, n - 1);
      AtMostSplit(positions, n);
      if n in positions {
        WalkLast(script, judge, AtMost(positions, n - 1), n);
        WalkUpTo(script, judge, n);
      } else {
        RepeatedStep(script, judge, n);
      }
    }
  }

  // ---- the positions a script's call indexes name ----

  /** 0, every call index a turn names, and the one after it. */
  predicate Interesting(turns: seq<Turn>, q: int) {
    q == 0 || (q >= 0 && Named(turns, q)) || (q >= 1 && Named(turns, q - 1))
  }

  predicate BoundsCallIndexes(turns: seq<Turn>, high: int) {
    forall i | 0 <= i < |turns| && turns[i].when.Some? && turns[i].when.value.callIndex.Some? ::
      turns[i].when.value.callIndex.value <= high
  }

  lemma InterestingPositionsCover(turns: seq<Turn>, route: string, positions: seq<int>)
    requires Increasing(positions) && forall q :: q in positions <==> Interesting(turns, q)
    ensures Covers(ScriptOf(turns, route), positions)
  {
    assert Interesting(turns, 0);
    forall q | q in positions ensures q >= 0 { assert Interesting(turns, q); }
    var script := ScriptOf(turns, route);
    forall n: nat | n > 0 && n !in positions ensures script(n) == script(n - 1) {
      assert !Interesting(turns, n);
      UnnamedPollsAreAlike(turns, route, n, n - 1);
    }
  }

  lemma InterestingIsBounded(turns: seq<Turn>, high: nat, positions: seq<int>, n: nat)
    requires BoundsCallIndexes(turns, high) && n >= high + 1
    requires Increasing(positions) && forall q :: q in positions <==> Interesting(turns, q)
    ensures AtMost(positions, n) == positions
  {
    forall q | q in positions ensures q <= n { assert Interesting(turns, q); }
    IncreasingIsUnique(AtMost(positions, n), positions);
  }

  lemma NamedAppend(turns: seq<Turn>, i: nat, c: int)
    requires i < |turns|
    ensures Named(turns[..i + 1], c) <==> Named(turns[..i], c) || Names(turns[i], c)
  {
    if Names(turns[i], c) { assert Names(turns[..i + 1][i], c); }
    if Named(turns[..i], c) {
      var k :| 0 <= k < i && Names(turns[..i][k], c);
      assert Names(turns[..i + 1][k], c);
    }
  }

  /** The positions the check evaluates, before sorting. */
  method NamedPositions(turns: seq<Turn>) returns (positions: seq<int>)
    ensures forall q :: q in positions <==> Interesting(turns, q)
  {
    positions := [0];
    for i := 0 to |turns|
      invariant forall q :: q in positions <==> Interesting(turns[..i], q)
    {
      var w := turns[i].when;
      forall c ensures Named(turns[..i + 1], c) <==> Named(turns[..i], c) || Names(turns[i], c) {
        NamedAppend(turns, i, c);
      }
      if w.Some? && w.value.callIndex.Some? && w.value.callIndex.value >= 0 {
        positions := positions + [w.value.callIndex.value, w.value.callIndex.value + 1];
      }
    }
    assert turns[..|turns|] == turns;
  }

  /** The sparse evaluation returns exactly what walking every poll up to any position past the
      highest named call index would: same reports, same order. */
  method TerminalRegressions(turns: seq<Turn>, route: string, judge: Judge) returns (out: seq<Regression>)
    ensures forall high: nat, n: nat | BoundsCallIndexes(turns, high) && n >= high + 1 ::
              out == NaiveWalk(ScriptOf(turns, route), judge, n)
    ensures ReportsAll(ScriptOf(turns, route), judge, out)
  {
    hide ReportsAll;
    var positions := NamedPositions(turns);
    positions := SortCompact(positions);
    ghost var script := ScriptOf(turns, route);

    var reported: seq<bool> := seq(|turns|, i => false);
    out := [];
    var first: Option<(int, nat)> := None;
    for k := 0 to |positions|
      invariant |reported| == |turns|
      invariant var w := WalkOver(script, judge, positions[..k]);
        w.first == first && w.out == out && forall i: nat :: i in w.reported <==> i < |turns| && reported[i]
    {
      var poll := positions[k];
      assert positions[..k + 1] == positions[..k] + [poll];
      WalkLast(script, judge, positions[..k], poll);
      var at := SelectTurn(turns, poll, route, NO_BODY);
      if at.Some? {
        match judge(at.value) {
          case None =>
          case Some(isTerminal) =>
            if isTerminal {
              if first.None? { first := Some((poll, at.value)); }
            } else if first.Some? && !reported[at.value] {
              reported := reported[at.value := true];
              out := out + [Regression(poll, at.value, first.value.0, first.value.1)];
            }
        }
      }
    }
    assert positions[..|positions|] == positions;
    forall high: nat, n: nat | BoundsCallIndexes(turns, high) && n >= high + 1
      ensures out == NaiveWalk(script, judge, n)
    {
      InterestingIsBounded(turns, high, positions, n);
      InterestingPositionsCover(turns, route, positions);
      SparseWalkIsExact(script, judge, positions, n);
    }
    NaiveReportsAreAll(turns, route, judge, out);
  }

  // ---- what an empty report means ----

  /** A terminal snapshot is never followed by a live one, at any poll. */
  ghost predicate Absorbing(script: Service, judge: Judge) {
    forall i: nat, j: nat | i < j && TerminalAt(script, judge, i) :: !LiveAt(script, judge, j)
  }

  ghost predicate AbsorbingUpTo(script: Service, judge: Judge, n: nat) {
    forall i: nat, j: nat | i < j <= n && TerminalAt(script, judge, i) :: !LiveAt(script, judge, j)
  }

  ghost predicate TerminalBy(script: Service, judge: Judge, n: int) {
    exists i: nat | i <= n :: TerminalAt(script, judge, i)
  }

  lemma {:induction false} FirstTerminalIsRemembered(script: Service, judge: Judge, n: nat)
    ensures WalkOver(script, judge, UpTo(n)).first.Some? <==> TerminalBy(script, judge, n)
  {
    WalkUpTo(script, judge, n);
    assert TerminalBy(script, judge, n) <==> TerminalAt(script, judge, n) || TerminalBy(script, judge, n - 1);
    if n > 0 { FirstTerminalIsRemembered(script, judge, n - 1); }
  }

  lemma {:induction false} ReportedTurnsHaveReports(script: Service, judge: Judge, polls: seq<int>)
    ensures var w := WalkOver(script, judge, polls); w.reported == {} <==> w.out == []
  {
    if polls != [] { ReportedTurnsHaveReports(script, judge, polls[..|polls| - 1]); }
  }

  lemma AbsorbingSplit(script: Service, judge: Judge, n: nat)
    requires n > 0
    ensures AbsorbingUpTo(script, judge, n) <==>
      AbsorbingUpTo(script, judge, n - 1) && (LiveAt(script, judge, n) ==> !TerminalBy(script, judge, n - 1))
  {
    if AbsorbingUpTo(script, judge, n) {
      forall i: nat, j: nat | i < j <= n - 1 && TerminalAt(script, judge, i) ensures !LiveAt(script, judge, j) {
      }
    }
  }

  lemma {:induction false} NaiveWalkMeaning(script: Service, judge: Judge, n: nat)
    ensures NaiveWalk(script, judge, n) == [] <==> AbsorbingUpTo(script, judge, n)
  {
    WalkUpTo(script, judge, n);
    if n > 0 {
      NaiveWalkMeaning(script, judge, n - 1);
      FirstTerminalIsRemembered(script, judge, n - 1);
      ReportedTurnsHaveReports(script, judge, UpTo(n - 1));
      AbsorbingSplit(script, judge, n);
    }
  }

  /** Once nothing more is reported, however far one walks, all polls are accounted for. */
  lemma NaiveReportsAreAll(turns: seq<Turn>, route: string, judge: Judge, out: seq<Regression>)
    requires forall high: nat, n: nat | BoundsCallIndexes(turns, high) && n >= high + 1 ::
               out == NaiveWalk(ScriptOf(turns, route), judge, n)
    ensures ReportsAll(ScriptOf(turns, route), judge, out)
  {
    hide NaiveWalk, IsRegression, Blames, BoundsCallIndexes, ScriptOf;
    var high, script := HighestCallIndex(turns), ScriptOf(turns, route);
    assert out == NaiveWalk(script, judge, high + 1);
    NaiveWalkReports(script, judge, high + 1);
    forall q: nat | Regresses(script, judge, q) ensures Blames(out, script(q).value) {
      var n := if q > high + 1 then q else high + 1;
      assert out == NaiveWalk(script, judge, n);
      NaiveWalkReports(script, judge, n);
    }
  }

  function HighestCallIndex(turns: seq<Turn>): (high: nat)
    ensures BoundsCallIndexes(turns, high)
  {
    if turns == [] then 0
    else
      var rest := HighestCallIndex(turns[1..]);
      assert forall i | 1 <= i < |turns| :: turns[i] == turns[1..][i - 1];
      var w := turns[0].when;
      if w.Some? && w.value.callIndex.Some? && w.value.callIndex.value > rest
      then w.value.callIndex.value else rest
  }

  /** Nothing is reported exactly when no poll, however late, regresses. */
  lemma NothingReportedMeansAbsorbing(turns: seq<Turn>, route: string, judge: Judge, out: seq<Regression>)
    requires forall high: nat, n: nat | BoundsCallIndexes(turns, high) && n >= high + 1 ::
               out == NaiveWalk(ScriptOf(turns, route), judge, n)
    ensures out == [] <==> Absorbing(ScriptOf(turns, route), judge)
  {
    var high := HighestCallIndex(turns);
    var script := ScriptOf(turns, route);
    assert forall n: nat | n >= high + 1 :: out == NaiveWalk(script, judge, n);
    if out == [] {
      forall i: nat, j: nat | i < j && TerminalAt(script, judge, i) ensures !LiveAt(script, judge, j) {
        var n := if j > high + 1 then j else high + 1;
        NaiveWalkMeaning(script, judge, n);
        assert out == NaiveWalk(script, judge, n);
      }
    } else {
      NaiveWalkMeaning(script, judge, high + 1);
      assert out == NaiveWalk(script, judge, high + 1);
    }
  }
}
