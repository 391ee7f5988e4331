/** Route fault keys: how a listener that instances a shared kind qualifies them, which keys a
    registry hands the fault engine, and which authored `when.route` names select them.  */
module Routes {
  import opened Text

  datatype Profile = Profile(name: string, kind: string, faultKeys: seq<string>)

  /** A profile without a kind is its own kind. */
  function EffectiveKind(p: Profile): string {
    if p.kind != "" then p.kind else p.name
  }

  /** Names as registration admits them: no qualifier separator can appear in one. */
  predicate ValidName(name: string) {
    name != "" && 'a' <= name[0] <= 'z' &&
    forall c | c in name :: 'a' <= c <= 'z' || '0' <= c <= '9' || c == '-' || c == '_'
  }

  function NamespacedFaultKey(name: string, kind: string, key: string): string {
    if key == "" || kind == "" || kind == name then key else name + ":" + key
  }

  predicate Instanced(p: Profile) { EffectiveKind(p) != p.name }

  /** The fault keys a listener's own requests carry. */
  function NamespacedRoutes(p: Profile): (keys: seq<string>)
  {
    seq(|p.faultKeys|, i requires 0 <= i < |p.faultKeys| =>
      NamespacedFaultKey(p.name, EffectiveKind(p), p.faultKeys[i]))
  }

  /** Every fault key of every registered profile, in registration order: what an engine is built
      from. */
  function AllRoutes(profiles: seq<Profile>): seq<string> {
    if profiles == [] then [] else NamespacedRoutes(profiles[0]) + AllRoutes(profiles[1..])
  }

  /** The registry's loop over its profiles. */
  method Register(profiles: seq<Profile>) returns (out: seq<string>)
    ensures out == AllRoutes(profiles)
    ensures forall p, i | p in profiles && 0 <= i < |p.faultKeys| :: NamespacedRoutes(p)[i] in out
  {
    out := [];
    for n := 0 to |profiles|
      invariant out + AllRoutes(profiles[n..]) == AllRoutes(profiles)
    {
      assert profiles[n..][0] == profiles[n] && profiles[n..][1..] == profiles[n + 1..];
      out := out + NamespacedRoutes(profiles[n]);
    }
    forall p, i | p in profiles && 0 <= i < |p.faultKeys| ensures NamespacedRoutes(p)[i] in out {
      RequestKeysAreRegistered(profiles, p, i);
    }
  }

  /** A request's key is always one the engine registered a plan and a counter for. */
  lemma {:induction false} RequestKeysAreRegistered(profiles: seq<Profile>, p: Profile, i: nat)
    requires p in profiles && i < |p.faultKeys|
    ensures NamespacedRoutes(p)[i] in AllRoutes(profiles)
  {
    if profiles[0] == p {
      assert AllRoutes(profiles)[i] == NamespacedRoutes(p)[i];
    } else {
      RequestKeysAreRegistered(profiles[1..], p, i);
    }
  }

  /** Two instances of one kind never share a fault key, whatever keys they declare. */
  lemma InstancesAreDisjoint(p: Profile, q: Profile, i: nat, j: nat)
    requires ValidName(p.name) && ValidName(q.name) && p.name != q.name
    requires Instanced(p) && Instanced(q)
    requires i < |p.faultKeys| && j < |q.faultKeys| && "" !in p.faultKeys && "" !in q.faultKeys
    ensures NamespacedRoutes(p)[i] != NamespacedRoutes(q)[j]
  {
    var x, y := ":" + p.faultKeys[i], ":" + q.faultKeys[j];
    assert p.name + ":" + p.faultKeys[i] == p.name + x;
    assert q.name + ":" + q.faultKeys[j] == q.name + y;
    if NamespacedRoutes(p)[i] == NamespacedRoutes(q)[j] {
      HeadDetermined(p.name, q.name, ':', x, y);
    }
  }

  /** The kind's own listener and an instance of it share a key exactly when the former declares one
      that already spells the instance's qualifier. */
  lemma PrimaryMeetsInstance(p: Profile, q: Profile, i: nat, j: nat)
    requires !Instanced(p) && Instanced(q)
    requires i < |p.faultKeys| && j < |q.faultKeys| && "" !in p.faultKeys && "" !in q.faultKeys
    ensures NamespacedRoutes(p)[i] == NamespacedRoutes(q)[j]
       <==> p.faultKeys[i] == q.name + ":" + q.faultKeys[j]
  {
  }

  /** In particular they are disjoint when the primary qualifies its keys with its own name. */
  lemma QualifiedPrimaryIsDisjoint(p: Profile, q: Profile, i: nat, j: nat, rest: string)
    requires ValidName(p.name) && ValidName(q.name) && p.name != q.name
    requires !Instanced(p) && Instanced(q)
    requires i < |p.faultKeys| && j < |q.faultKeys| && "" !in p.faultKeys && "" !in q.faultKeys
    requires p.faultKeys[i] == p.name + ":" + rest
    ensures NamespacedRoutes(p)[i] != NamespacedRoutes(q)[j]
  {
    var x, y := ":" + rest, ":" + q.faultKeys[j];
    assert p.name + ":" + rest == p.name + x;
    assert q.name + ":" + q.faultKeys[j] == q.name + y;
    if NamespacedRoutes(p)[i] == NamespacedRoutes(q)[j] {
      HeadDetermined(p.name, q.name, ':', x, y);
    }
  }

  // ---- authored route names ----

  /** The position of the last colon, or -1. */
  function LastColon(key: string): (at: int)
    ensures -1 <= at < |key|
    ensures at >= 0 ==> key[at] == ':'
    ensures forall k | at < k < |key| :: key[k] != ':'
  {
    if key == "" then -1
    else if key[|key| - 1] == ':' then |key| - 1
    else LastColon(key[..|key| - 1])
  }

  function RouteKeySuffix(key: string): string { key[LastColon(key) + 1..] }

  predicate RouteMatches(authored: string, key: string) {
    if authored == key then true
    else if ':' in authored then
      var i := IndexOf(key, ':');
      i < |key| && ':' in key[i + 1..] && authored == key[i + 1..]
    else authored == RouteKeySuffix(key)
  }

  lemma LastColonIs(key: string, at: int)
    requires -1 <= at < |key| && (at >= 0 ==> key[at] == ':') && forall k | at < k < |key| :: key[k] != ':'
    ensures LastColon(key) == at
  {
    hide LastColon;
  }

  lemma SuffixOfQualified(name: string, key: string)
    ensures RouteKeySuffix(name + ":" + key) == RouteKeySuffix(key)
  {
    hide LastColon;
    var full, shift, at := name + ":" + key, |name| + 1, LastColon(key);
    forall k | shift + at < k < |full| ensures full[k] != ':' { assert full[k] == key[k - shift]; }
    assert full[shift + at] == if at >= 0 then key[at] else ':';
    LastColonIs(full, shift + at);
    assert full[shift..] == key && full[shift + at + 1..] == full[shift..][at + 1..];
  }

  /** Instancing a listener does not change which documented names select its routes: a `kind:route`
      key answers to exactly the names it answered to, plus its own full spelling. */
  lemma InstancingKeepsRouteMatching(authored: string, name: string, kind: string, route: string)
    requires ValidName(name) && ':' !in kind && ':' !in route
    ensures RouteMatches(authored, name + ":" + (kind + ":" + route))
       <==> RouteMatches(authored, kind + ":" + route) || authored == name + ":" + (kind + ":" + route)
  {
    var key := kind + ":" + route;
    var full := name + ":" + key;
    OneColon(kind, route);
    SuffixOfQualified(name, key);
    IndexOfPrefix(name, ':', key);
    assert full[|name| + 1..] == key;
    if authored != full && ':' in authored {
      assert RouteMatches(authored, full) <==> authored == key;
      assert RouteMatches(authored, key) <==> authored == key;
    }
  }

  lemma OneColon(kind: string, route: string)
    requires ':' !in kind && ':' !in route
    ensures var key := kind + ":" + route;
            var i := IndexOf(key, ':'); i == |kind| && ':' in key && key[i + 1..] == route
  {
    IndexOfPrefix(kind, ':', route);
    var key := kind + ":" + route;
    assert key[|kind| + 1..] == route && key[|kind|] == ':';
  }

  /** A qualified name never widens: it selects only keys that end in all of it. */
  lemma QualifiedNamesNeverWiden(authored: string, key: string)
    requires ':' in authored && RouteMatches(authored, key)
    ensures |authored| <= |key| && key[|key| - |authored|..] == authored
  {
    if authored != key {
      var i := IndexOf(key, ':');
      assert |key| - |authored| == i + 1;
    }
  }

  /** A name selects its own key, and otherwise a key that is the name behind a qualifier: one level of it
      for a qualified name, any for a bare one. */
  lemma RouteMatchesExactly(authored: string, key: string)
    ensures RouteMatches(authored, key) <==>
      || authored == key
      || exists head: string :: key == head + ":" + authored && (':' in authored ==> ':' !in head)
  {
    if RouteMatches(authored, key) && authored != key {
      MatchesBehind(authored, key);
    }
    if head: string :| key == head + ":" + authored && (':' in authored ==> ':' !in head) {
      if ':' in authored {
        IndexOfPrefix(head, ':', authored);
        assert (head + [':'] + authored)[|head| + 1..] == authored;
      } else {
        BareSuffix(head, authored);
      }
    }
  }

  lemma MatchesBehind(authored: string, key: string)
    requires RouteMatches(authored, key) && authored != key
    ensures exists head: string :: key == head + ":" + authored && (':' in authored ==> ':' !in head)
  {
    hide LastColon, IndexOf;
    var n := |key| - |authored|;
    if ':' in authored { QualifiedNamesNeverWiden(authored, key); }
    assert key == key[..n - 1] + ":" + authored;
  }

  lemma BareSuffix(head: string, name: string)
    requires ':' !in name
    ensures RouteKeySuffix(head + ":" + name) == name
  {
    SuffixOfQualified(head, name);
    assert LastColon(name) == -1;
  }
}
