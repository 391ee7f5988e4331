/** Turn scripts: which turn a call is served, and the check that a poll script never leaves a
    terminal snapshot.  */
module Turns {
  import opened Text
  import opened Routes

  /** A request body as a predicate sees it: its raw text and, when it decodes, the scalar every
      dotted path lands on. */
  datatype Body = Body(raw: string, json: Option<map<string, string>>)

  /** A poll carries no body at all. */
  const NO_BODY := Body("", None)

  datatype Match = Match(
    route: string, callIndex: Option<int>, bodyContains: string, bodyJSON: map<string, string>)

  datatype Turn = Turn(when: Option<Match>, respond: string)

  predicate OccursAt(s: string, sub: string, i: nat) { i <= |s| - |sub| && s[i..i + |sub|] == sub }

  predicate Contains(s: string, sub: string) { exists i: nat | i <= |s| :: OccursAt(s, sub, i) }

  predicate Matches(when: Option<Match>, callIndex: int, route: string, body: Body) {
    when.None? ||
    var m := when.value;
    && (m.route != "" ==> RouteMatches(m.route, route))
    && (m.callIndex.Some? ==> m.callIndex.value == callIndex)
    && (m.bodyContains != "" ==> Contains(body.raw, m.bodyContains))
    && (m.bodyJSON.Keys != {} ==>
          body.json.Some? &&
          forall p | p in m.bodyJSON.Keys :: p in body.json.value && body.json.value[p] == m.bodyJSON[p])
  }

  /** The first turn whose predicate matches. */
  function Select(turns: seq<Turn>, callIndex: int, route: string, body: Body): (at: Option<nat>)
    ensures at.Some? ==> at.value < |turns|
  {
    if turns == [] then None
    else if Matches(turns[0].when, callIndex, route, body) then Some(0)
    else match Select(turns[1..], callIndex, route, body)
      case Some(i) => Some(i + 1)
      case None => None
  }

  predicate MatchedBefore(turns: seq<Turn>, n: nat, callIndex: int, route: string, body: Body)
    requires n <= |turns|
  {
    exists i | 0 <= i < n :: Matches(turns[i].when, callIndex, route, body)
  }

  /** It is the first match, and there is none only when no turn matches. */
  lemma {:induction false} SelectIsFirst(turns: seq<Turn>, callIndex: int, route: string, body: Body)
    ensures match Select(turns, callIndex, route, body)
      case None => !MatchedBefore(turns, |turns|, callIndex, route, body)
      case Some(at) =>
        && Matches(turns[at].when, callIndex, route, body)
        && !MatchedBefore(turns, at, callIndex, route, body)
  {
    if turns != [] && !Matches(turns[0].when, callIndex, route, body) {
      SelectIsFirst(turns[1..], callIndex, route, body);
      assert forall i | 0 <= i < |turns[1..]| :: turns[1..][i] == turns[i + 1];
    }
  }

  /** The selection loop with its fallback to the last unconditional turn. The fallback never decides:
      a turn with no predicate already matched in the first loop. */
  method SelectTurn(turns: seq<Turn>, callIndex: int, route: string, body: Body) returns (at: Option<nat>)
    ensures at == Select(turns, callIndex, route, body)
  {
    SelectIsFirst(turns, callIndex, route, body);
    for n := 0 to |turns|
      invariant !MatchedBefore(turns, n, callIndex, route, body)
    {
      if Matches(turns[n].when, callIndex, route, body) { return Some(n); }
    }
    for n := |turns| downto 0 {
      if turns[n].when.None? { assert false; }  // it matched above
    }
    return None;
  }

  lemma ContainsExactly(s: string, sub: string)
    ensures Contains(s, sub) <==> exists before: string, after: string :: s == before + sub + after
  {
    if Contains(s, sub) {
      var i: nat :| i <= |s| && OccursAt(s, sub, i);
      assert s == s[..i] + sub + s[i + |sub|..];
    }
    if before: string, after: string :| s == before + sub + after {
      assert s[|before|..|before| + |sub|] == sub;
      assert OccursAt(s, sub, |before|);
    }
  }

  /** A predicate matches when the call has its index, its route answers to the name, the body reads
      around its text, and the decoded body holds each of its fields; what it leaves unsaid matches
      anything. */
  lemma MatchesExactly(m: Match, callIndex: int, route: string, body: Body)
    ensures Matches(Some(m), callIndex, route, body) <==>
      && (m.callIndex == None || m.callIndex == Some(callIndex))
      && (m.route == "" || RouteMatches(m.route, route))
      && (exists before: string, after: string :: body.raw == before + m.bodyContains + after)
      && (m.bodyJSON == map[] || (body.json.Some? && m.bodyJSON.Items <= body.json.value.Items))
  {
    ContainsExactly(body.raw, m.bodyContains);
    if m.bodyContains == "" { assert body.raw == "" + m.bodyContains + body.raw; }
    if body.json.Some? {
      var j := body.json.value;
      if forall p | p in m.bodyJSON.Keys :: p in j && j[p] == m.bodyJSON[p] {
        assert m.bodyJSON.Items <= j.Items;
      }
      if m.bodyJSON.Items <= j.Items {
        forall p | p in m.bodyJSON.Keys ensures p in j && j[p] == m.bodyJSON[p] {
          assert (p, m.bodyJSON[p]) in m.bodyJSON.Items;
        }
      }
    }
  }

  /** A poll carries no body, so a predicate on one never selects it. */
  lemma BodyPredicatesMatchNoPoll(m: Match, callIndex: int, route: string)
    requires Matches(Some(m), callIndex, route, NO_BODY)
    ensures m.bodyContains == "" && m.bodyJSON == map[]
  {
    MatchesExactly(m, callIndex, route, NO_BODY);
  }

  /** The turn serving poll position i. */
  function Served(turns: seq<Turn>, route: string, i: int): (at: Option<nat>)
    ensures at.Some? ==> at.value < |turns|
  {
    Select(turns, i, route, NO_BODY)
  }

  predicate Names(turn: Turn, c: int) {
    turn.when.Some? && turn.when.value.callIndex == Some(c)
  }

  predicate Named(turns: seq<Turn>, c: int) { exists i | 0 <= i < |turns| :: Names(turns[i], c) }

  /** The call index is the only thing that tells two polls apart. */
  lemma {:induction false} UnnamedPollsAreAlike(turns: seq<Turn>, route: string, i: int, j: int)
    requires !Named(turns, i) && !Named(turns, j)
    ensures Served(turns, route, i) == Served(turns, route, j)
  {
    if turns != [] {
      assert !Names(turns[0], i) && !Names(turns[0], j);
      assert forall k | 0 <= k < |turns[1..]| :: turns[1..][k] == turns[k + 1];
      UnnamedPollsAreAlike(turns[1..], route, i, j);
    }
  }
}
