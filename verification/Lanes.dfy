/** State lanes: the cursor key every per-lane counter is kept under, and the split that recovers
    the namespace and the route from it.  */
module Lanes {
  import opened Text

  const DEFAULT_NAMESPACE := "default"
  const MAX_NAMESPACE_NAME_LEN := 64
  const MAX_JOB_ID_LEN := 64
  const MAX_LANE_VALUE_LEN := 128

  predicate SafeChar(c: char) {
    'a' <= c <= 'z' || 'A' <= c <= 'Z' || '0' <= c <= '9' || c == '-' || c == '_'
  }

  predicate ValidNamespace(name: string) {
    1 <= |name| <= MAX_NAMESPACE_NAME_LEN && forall i | 0 <= i < |name| :: SafeChar(name[i])
  }

  predicate ValidJobID(id: string) {
    1 <= |id| <= MAX_JOB_ID_LEN && forall i | 0 <= i < |id| :: SafeChar(id[i])
  }

  lemma ValidNamesHaveNoSeparators(name: string)
    requires ValidNamespace(name) || ValidJobID(name)
    ensures '/' !in name && '|' !in name
  {
    forall c | c in name ensures c != '/' && c != '|' {
      var i :| 0 <= i < |name| && name[i] == c;
      assert SafeChar(name[i]);
    }
  }

  // ---- cursor keys ----

  datatype Lane = Lane(namespace: string, key: string) {
    function CursorKey(): string {
      if namespace == "" || namespace == DEFAULT_NAMESPACE then key else namespace + "/" + key
    }
  }

  /** An absent namespace is the default one. */
  function Effective(namespace: string): string {
    if namespace == "" then DEFAULT_NAMESPACE else namespace
  }

  /** Whether a key is read as a namespaced one: it has a '/' and what precedes it is a namespace. */
  predicate ReadsAsScoped(key: string) {
    var i := IndexOf(key, '/');
    i < |key| && ValidNamespace(key[..i])
  }

  /** The namespace a cursor key is counted in. */
  function NamespaceOf(key: string): string {
    if ReadsAsScoped(key) then key[..IndexOf(key, '/')] else DEFAULT_NAMESPACE
  }

  /** The extractor contributions that named the lane. */
  function PartsOf(key: string): seq<string> {
    var rest := if ReadsAsScoped(key) then key[IndexOf(key, '/') + 1..] else key;
    if rest == "" then [] else Split(rest, '|')
  }

  function SplitCursorKey(key: string): (string, seq<string>) { (NamespaceOf(key), PartsOf(key)) }

  /** The split recovers namespace and key of any lane, exactly unless the lane is unprefixed and its
      key itself opens with what could be a namespace. */
  lemma SplitRecoversExactly(lane: Lane)
    requires lane.namespace == "" || ValidNamespace(lane.namespace)
    ensures SplitCursorKey(lane.CursorKey())
         == (Effective(lane.namespace), if lane.key == "" then [] else Split(lane.key, '|'))
       <==> Effective(lane.namespace) != DEFAULT_NAMESPACE || !ReadsAsScoped(lane.key)
  {
    if Effective(lane.namespace) != DEFAULT_NAMESPACE {
      ValidNamesHaveNoSeparators(lane.namespace);
      IndexOfPrefix(lane.namespace, '/', lane.key);
      assert lane.CursorKey() == lane.namespace + ['/'] + lane.key;
      assert lane.CursorKey()[..|lane.namespace|] == lane.namespace;
      assert lane.CursorKey()[|lane.namespace| + 1..] == lane.key;
    } else if ReadsAsScoped(lane.key) {
      var i := IndexOf(lane.key, '/');
      var rest := lane.key[i + 1..];
      SplitThenJoin(lane.key, '|');
      if rest != "" { SplitThenJoin(rest, '|'); }
    }
  }

  // ---- composing a lane key ----

  /** One extractor of a route or an entry, together with what it found on this request. */
  datatype Extraction =
    | RouteItself
    | Scalar(name: string, found: Option<string>)   // body_json:<path> or header:<name>
    | PathValue(name: string, id: string)           // path:<wildcard>
    | Unrecognised

  function Contribution(e: Extraction): Option<string> {
    match e
    case Scalar(name, Some(value)) =>
      if |value| <= MAX_LANE_VALUE_LEN then Some(name + "=" + value) else None
    case PathValue(name, id) => if ValidJobID(id) then Some(name + "=" + id) else None
    case _ => None
  }

  /** An extractor contributes its name and its value: a scalar it found of at most 128 characters, or a
      path value that could be an identifier. */
  lemma ContributesExactly(e: Extraction, p: string)
    ensures Contribution(e) == Some(p) <==>
      exists name: string, value: string :: p == name + "=" + value
        && ((e == Scalar(name, Some(value)) && |value| <= 128) || (e == PathValue(name, value) && ValidJobID(value)))
  {
    hide ValidJobID;
    match e
    case Scalar(name, Some(value)) =>
      if Contribution(e) == Some(p) { assert p == name + "=" + value; }
    case PathValue(name, id) =>
      if Contribution(e) == Some(p) { assert p == name + "=" + id; }
    case _ =>
  }

  function Contributions(es: seq<Extraction>): seq<string> {
    if es == [] then []
    else (match Contribution(es[0]) case Some(p) => [p] case None => []) + Contributions(es[1..])
  }

  function Unresolved(es: seq<Extraction>): nat {
    if es == [] then 0
    else (if es[0].RouteItself? || Contribution(es[0]).Some? then 0 else 1) + Unresolved(es[1..])
  }

  /** How many extractors only restate the route. */
  function Restated(es: seq<Extraction>): nat {
    if es == [] then 0 else (if es[0].RouteItself? then 1 else 0) + Restated(es[1..])
  }

  /** Every extractor contributes, restates the route, or is warned about. */
  lemma {:induction false} ExtractorsAreAccountedFor(es: seq<Extraction>)
    ensures |Contributions(es)| + Restated(es) + Unresolved(es) == |es|
  {
    if es != [] { ExtractorsAreAccountedFor(es[1..]); }
  }

  function LaneKey(faultKey: string, es: seq<Extraction>): string {
    Join([faultKey] + Contributions(es), '|')
  }

  lemma {:induction false} ContributionsAppend(es: seq<Extraction>, n: nat)
    requires n < |es|
    ensures Contributions(es[..n + 1])
         == Contributions(es[..n]) + (match Contribution(es[n]) case Some(p) => [p] case None => [])
    ensures Unresolved(es[..n + 1])
         == Unresolved(es[..n]) + (if es[n].RouteItself? || Contribution(es[n]).Some? then 0 else 1)
  {
    if n > 0 {
      ContributionsAppend(es[1..], n - 1);
      assert es[..n + 1][1..] == es[1..][..n] && es[..n][1..] == es[1..][..n - 1];
    } else {
      assert es[..1][1..] == [];
    }
  }

  /** Composes the lane key a request's cursor is kept under, with one warning for every extractor
      that contributed nothing. */
  method TurnLaneKey(faultKey: string, es: seq<Extraction>) returns (key: string, warnings: nat)
    ensures key == LaneKey(faultKey, es)
    ensures warnings == Unresolved(es)
  {
    var discriminates := false;
    for i := 0 to |es|
      invariant discriminates <==> exists j | 0 <= j < i :: !es[j].RouteItself?
    {
      if !es[i].RouteItself? { discriminates := true; }
    }
    if !discriminates {
      NoDiscriminator(es);
      return faultKey, 0;
    }
    var parts := [faultKey];
    warnings := 0;
    for i := 0 to |es|
      invariant parts == [faultKey] + Contributions(es[..i])
      invariant warnings == Unresolved(es[..i])
    {
      ContributionsAppend(es, i);
      match es[i] {
        case RouteItself =>
        case Scalar(name, found) =>
          if found.Some? && |found.value| <= MAX_LANE_VALUE_LEN {
            parts := parts + [name + "=" + found.value];
          } else {
            warnings := warnings + 1;
          }
        case PathValue(name, id) =>
          if ValidJobID(id) {
            parts := parts + [name + "=" + id];
          } else {
            warnings := warnings + 1;
          }
        case Unrecognised =>
          warnings := warnings + 1;
      }
    }
    assert es[..|es|] == es;
    key := Join(parts, '|');
  }

  lemma {:induction false} NoDiscriminator(es: seq<Extraction>)
    requires forall j | 0 <= j < |es| :: es[j].RouteItself?
    ensures Contributions(es) == [] && Unresolved(es) == 0
  {
    if es != [] { NoDiscriminator(es[1..]); }
  }

  /** A fault key as routes declare them: it carries neither separator. */
  predicate PlainKey(faultKey: string) { faultKey != "" && '/' !in faultKey && '|' !in faultKey }

  function Tail(parts: seq<string>): string {
    if parts == [] then "" else "|" + Join(parts, '|')
  }

  lemma JoinCons(part: string, rest: seq<string>)
    ensures Join([part] + rest, '|') == part + Tail(rest)
  {
    assert ([part] + rest)[1..] == rest;
  }

  lemma LaneKeyShape(faultKey: string, es: seq<Extraction>)
    ensures LaneKey(faultKey, es) == faultKey + Tail(Contributions(es))
  {
    JoinCons(faultKey, Contributions(es));
  }

  /** A composed key is never read as a namespaced one: a '/' in it can only follow the '|' that ends
      the fault key, and no namespace contains a '|'. */
  lemma ComposedKeysAreUnscoped(faultKey: string, es: seq<Extraction>)
    requires PlainKey(faultKey)
    ensures !ReadsAsScoped(LaneKey(faultKey, es))
  {
    var key, n := LaneKey(faultKey, es), |faultKey|;
    LaneKeyShape(faultKey, es);
    var i := IndexOf(key, '/');
    if i < |key| {
      assert forall j | 0 <= j < n :: key[j] == faultKey[j];
      assert n < |key| && key[n] == '|' && n < i;
      assert !SafeChar(key[..i][n]);
    }
  }

  /** The split inverts the composition for every valid namespace and every composed lane key, even
      when extractor values carry both separators: the first part is the request's own fault key. */
  lemma SplitInvertsCursorKey(namespace: string, faultKey: string, es: seq<Extraction>)
    requires namespace == "" || ValidNamespace(namespace)
    requires PlainKey(faultKey)
    ensures
      var key := LaneKey(faultKey, es);
      var (ns, parts) := SplitCursorKey(Lane(namespace, key).CursorKey());
      ns == Effective(namespace) && Join(parts, '|') == key && parts != [] && parts[0] == faultKey
  {
    var key := LaneKey(faultKey, es);
    var tail := Tail(Contributions(es));
    LaneKeyShape(faultKey, es);
    ComposedKeysAreUnscoped(faultKey, es);
    SplitRecoversExactly(Lane(namespace, key));
    SplitThenJoin(key, '|');
    if tail == "" {
      assert key == faultKey;
    } else {
      assert key == faultKey + ['|'] + tail[1..];
      SplitCons(faultKey, '|', tail[1..]);
    }
  }

  /** Distinct namespaces, distinct routes and distinct lane keys never share a cursor key. */
  lemma CursorKeysAreInjective(n1: string, f1: string, es1: seq<Extraction>,
                               n2: string, f2: string, es2: seq<Extraction>)
    requires (n1 == "" || ValidNamespace(n1)) && (n2 == "" || ValidNamespace(n2))
    requires PlainKey(f1) && PlainKey(f2)
    requires Lane(n1, LaneKey(f1, es1)).CursorKey() == Lane(n2, LaneKey(f2, es2)).CursorKey()
    ensures Effective(n1) == Effective(n2) && f1 == f2 && LaneKey(f1, es1) == LaneKey(f2, es2)
  {
    SplitInvertsCursorKey(n1, f1, es1);
    SplitInvertsCursorKey(n2, f2, es2);
  }

  /** A job's own lane: a route whose extractors are all resolved path values. */
  predicate JobLane(es: seq<Extraction>) {
    forall e | e in es :: e.PathValue? && ValidJobID(e.id)
  }

  predicate SameExtractors(es1: seq<Extraction>, es2: seq<Extraction>) {
    |es1| == |es2| && forall i | 0 <= i < |es1| && es1[i].PathValue? && es2[i].PathValue? :: es1[i].name == es2[i].name
  }

  /** On a job's own lane the key determines the identifiers: two jobs never share a cursor. */
  lemma {:induction false} JobLanesAreInjective(faultKey: string, es1: seq<Extraction>, es2: seq<Extraction>)
    requires JobLane(es1) && JobLane(es2) && SameExtractors(es1, es2)
    requires LaneKey(faultKey, es1) == LaneKey(faultKey, es2)
    ensures es1 == es2
  {
    LaneKeyShape(faultKey, es1);
    LaneKeyShape(faultKey, es2);
    assert (faultKey + Tail(Contributions(es1)))[|faultKey|..] == Tail(Contributions(es1));
    assert (faultKey + Tail(Contributions(es2)))[|faultKey|..] == Tail(Contributions(es2));
    JobTailsAreInjective(es1, es2);
  }

  lemma {:induction false} JobTailsAreInjective(es1: seq<Extraction>, es2: seq<Extraction>)
    requires JobLane(es1) && JobLane(es2) && SameExtractors(es1, es2)
    requires Tail(Contributions(es1)) == Tail(Contributions(es2))
    ensures es1 == es2
  {
    if es1 != [] {
      var e1, e2 := es1[0], es2[0];
      assert e1 in es1 && e2 in es2;
      JobTail(es1);
      JobTail(es2);
      var t1, t2 := Tail(Contributions(es1[1..])), Tail(Contributions(es2[1..]));
      var head := "|" + e1.name + "=";
      assert (head + (e1.id + t1))[|head|..] == e1.id + t1;
      assert (head + (e2.id + t2))[|head|..] == e2.id + t2;
      ValidNamesHaveNoSeparators(e1.id);
      ValidNamesHaveNoSeparators(e2.id);
      HeadDetermined(e1.id, e2.id, '|', t1, t2);
      JobTailsAreInjective(es1[1..], es2[1..]);
      assert es1 == [e1] + es1[1..] && es2 == [e2] + es2[1..];
    }
  }

  lemma JobTail(es: seq<Extraction>)
    requires JobLane(es) && es != []
    ensures es[0].PathValue?
    ensures Tail(Contributions(es)) == ("|" + es[0].name + "=") + (es[0].id + Tail(Contributions(es[1..])))
  {
    assert es[0] in es;
    var part, rest := es[0].name + "=" + es[0].id, Contributions(es[1..]);
    assert Contributions(es) == [part] + rest;
    JoinCons(part, rest);
    Reassociate(es[0].name, es[0].id, Tail(rest));
  }

  lemma Reassociate(name: string, id: string, rest: string)
    ensures "|" + ((name + "=" + id) + rest) == ("|" + name + "=") + (id + rest)
  {
  }

  /** Extractor values are not so protected: one that spells a separator and a second extractor's
      name merges two lanes. */
  lemma ExtractorValuesCanMerge(faultKey: string, a: string, b: string, x: string, y: string, z: string)
    requires |x| + |b| + |y| + 2 <= MAX_LANE_VALUE_LEN && |y| + |b| + |z| + 2 <= MAX_LANE_VALUE_LEN
    ensures LaneKey(faultKey, [Scalar(a, Some(x + "|" + b + "=" + y)), Scalar(b, Some(z))])
         == LaneKey(faultKey, [Scalar(a, Some(x)), Scalar(b, Some(y + "|" + b + "=" + z))])
  {
    var es1 := [Scalar(a, Some(x + "|" + b + "=" + y)), Scalar(b, Some(z))];
    var es2 := [Scalar(a, Some(x)), Scalar(b, Some(y + "|" + b + "=" + z))];
    LaneKeyShape(faultKey, es1);
    LaneKeyShape(faultKey, es2);
    TwoContributions(es1);
    TwoContributions(es2);
    Regrouped(a, b, x, y, z);
  }

  lemma Regrouped(a: string, b: string, x: string, y: string, z: string)
    ensures (a + "=" + (x + "|" + b + "=" + y)) + "|" + (b + "=" + z)
         == (a + "=" + x) + "|" + (b + "=" + (y + "|" + b + "=" + z))
  {
    var ax, byz := a + "=" + x, b + "=" + (y + "|" + b + "=" + z);
    assert a + "=" + (x + "|" + b + "=" + y) == ax + "|" + b + "=" + y;
    assert byz == b + "=" + y + "|" + b + "=" + z;
  }

  lemma TwoContributions(es: seq<Extraction>)
    requires |es| == 2 && Contribution(es[0]).Some? && Contribution(es[1]).Some?
    ensures Tail(Contributions(es)) == "|" + (Contribution(es[0]).value + "|" + Contribution(es[1]).value)
  {
    var p, q := Contribution(es[0]).value, Contribution(es[1]).value;
    assert es[1..][0] == es[1] && es[1..][1..] == [];
    assert Contributions(es[1..]) == [q];
    assert Contributions(es) == [p, q];
    assert [p, q][1..] == [q];
    assert Join([p, q], '|') == p + "|" + q;
  }

  // ---- when two lanes are one ----

  lemma {:induction false} SplitAcross(a: string, b: string)
    ensures Split(a + ['|'] + b, '|') == Split(a, '|') + Split(b, '|')
    decreases |a|
  {
    hide Split;
    var i := IndexOf(a, '|');
    if i == |a| {
      SplitCons(a, '|', b);
      SplitNone(a, '|');
    } else {
      var head, rest := a[..i], a[i + 1..];
      SplitAcross(rest, b);
      assert a == head + ['|'] + rest;
      Nested(head, rest, b);
      SplitCons(head, '|', rest + ['|'] + b);
      SplitCons(head, '|', rest);
      assert [head] + Split(rest, '|') + Split(b, '|') == [head] + (Split(rest, '|') + Split(b, '|'));
    }
  }

  lemma Nested(head: string, rest: string, b: string)
    ensures (head + ['|'] + rest) + ['|'] + b == head + ['|'] + (rest + ['|'] + b)
  {
  }

  /** The separated fields of some contributions: more than one each where values carry separators. */
  function Fields(parts: seq<string>): seq<string> {
    if parts == [] then [] else Split(parts[0], '|') + Fields(parts[1..])
  }

  lemma {:induction false} SplitOfJoin(parts: seq<string>)
    requires parts != []
    ensures Split(Join(parts, '|'), '|') == Fields(parts)
  {
    hide Split;
    if |parts| == 1 {
      assert parts[1..] == [];
      assert Split(parts[0], '|') + [] == Split(parts[0], '|');
    } else {
      SplitOfJoin(parts[1..]);
      SplitAcross(parts[0], Join(parts[1..], '|'));
    }
  }

  lemma SplitIsInjective(a: string, b: string)
    requires Split(a, '|') == Split(b, '|')
    ensures a == b
  {
    SplitThenJoin(a, '|');
    SplitThenJoin(b, '|');
  }

  /** Two requests of a route share a lane exactly when their contributions have the same separated
      fields, whatever their extractors and values are. */
  lemma LanesMeetExactlyWhenFieldsDo(faultKey: string, es1: seq<Extraction>, es2: seq<Extraction>)
    ensures LaneKey(faultKey, es1) == LaneKey(faultKey, es2)
       <==> Fields(Contributions(es1)) == Fields(Contributions(es2))
  {
    hide Split, Join;
    var p1, p2 := [faultKey] + Contributions(es1), [faultKey] + Contributions(es2);
    SplitOfJoin(p1);
    SplitOfJoin(p2);
    assert p1[1..] == Contributions(es1) && p2[1..] == Contributions(es2);
    var n := |Split(faultKey, '|')|;
    assert Fields(p1)[n..] == Fields(Contributions(es1)) && Fields(p2)[n..] == Fields(Contributions(es2));
    if Fields(p1) == Fields(p2) { SplitIsInjective(LaneKey(faultKey, es1), LaneKey(faultKey, es2)); }
  }

  function Bars(s: string): nat { |Split(s, '|')| - 1 }

  /** Contribution by contribution, as many separators on either side. */
  predicate EvenlyBarred(p1: seq<string>, p2: seq<string>) {
    |p1| == |p2| && forall i | 0 <= i < |p1| :: Bars(p1[i]) == Bars(p2[i])
  }

  lemma {:induction false} EvenFieldsAreParts(p1: seq<string>, p2: seq<string>)
    requires EvenlyBarred(p1, p2) && Fields(p1) == Fields(p2)
    ensures p1 == p2
  {
    hide Split;
    if p1 != [] {
      var n := |Split(p1[0], '|')|;
      assert Bars(p1[0]) == Bars(p2[0]);
      assert Fields(p1)[..n] == Split(p1[0], '|') && Fields(p2)[..n] == Split(p2[0], '|');
      assert Fields(p1)[n..] == Fields(p1[1..]) && Fields(p2)[n..] == Fields(p2[1..]);
      SplitIsInjective(p1[0], p2[0]);
      forall i | 0 <= i < |p1[1..]| ensures Bars(p1[1..][i]) == Bars(p2[1..][i]) {
        assert Bars(p1[i + 1]) == Bars(p2[i + 1]);
      }
      EvenFieldsAreParts(p1[1..], p2[1..]);
    }
  }

  /** So lanes whose contributions carry as many separators, slot by slot, are shared only by requests
      that contribute the same. */
  lemma EvenLanesAreApart(faultKey: string, es1: seq<Extraction>, es2: seq<Extraction>)
    requires EvenlyBarred(Contributions(es1), Contributions(es2))
    ensures LaneKey(faultKey, es1) == LaneKey(faultKey, es2) <==> Contributions(es1) == Contributions(es2)
  {
    hide Bars;
    LanesMeetExactlyWhenFieldsDo(faultKey, es1, es2);
    if LaneKey(faultKey, es1) == LaneKey(faultKey, es2) {
      EvenFieldsAreParts(Contributions(es1), Contributions(es2));
    }
  }

  /** An extractor and what it contributed. */
  function NameOf(e: Extraction): string {
    match e
    case Scalar(name, _) => name
    case PathValue(name, _) => name
    case _ => ""
  }

  function ValueOf(e: Extraction): string {
    match e
    case Scalar(_, Some(value)) => value
    case PathValue(_, id) => id
    case _ => ""
  }

  /** The same extractors in the same order, each contributing on both requests or on neither. */
  predicate SameShape(es1: seq<Extraction>, es2: seq<Extraction>) {
    |es1| == |es2| && forall i | 0 <= i < |es1| ::
      NameOf(es1[i]) == NameOf(es2[i]) && (Contribution(es1[i]).Some? <==> Contribution(es2[i]).Some?)
  }

  /** Every contributing extractor found the same value. */
  predicate SameValues(es1: seq<Extraction>, es2: seq<Extraction>)
    requires |es1| == |es2|
  {
    forall i | 0 <= i < |es1| && Contribution(es1[i]).Some? :: ValueOf(es1[i]) == ValueOf(es2[i])
  }

  predicate Unbarred(es: seq<Extraction>) {
    forall i | 0 <= i < |es| && Contribution(es[i]).Some? :: '|' !in ValueOf(es[i])
  }

  lemma ContributionIs(e: Extraction)
    requires Contribution(e).Some?
    ensures Contribution(e).value == NameOf(e) + "=" + ValueOf(e)
  {
  }

  lemma {:induction false} ShapedContributions(es1: seq<Extraction>, es2: seq<Extraction>)
    requires SameShape(es1, es2)
    ensures |Contributions(es1)| == |Contributions(es2)|
    ensures Contributions(es1) == Contributions(es2) <==> SameValues(es1, es2)
    ensures Unbarred(es1) && Unbarred(es2) ==> EvenlyBarred(Contributions(es1), Contributions(es2))
  {
    hide Bars, Contribution, NameOf, ValueOf;
    if es1 != [] {
      var t1, t2 := es1[1..], es2[1..];
      forall i | 0 <= i < |t1| ensures t1[i] == es1[i + 1] && t2[i] == es2[i + 1] {}
      ShapedContributions(t1, t2);
      assert SameValues(es1, es2) <==>
        SameValues(t1, t2) && (Contribution(es1[0]).Some? ==> ValueOf(es1[0]) == ValueOf(es2[0])) by {
        ValuesPeel(es1, es2);
      }
      if Contribution(es1[0]).Some? {
        var p1, p2 := Contribution(es1[0]).value, Contribution(es2[0]).value;
        ContributionIs(es1[0]);
        ContributionIs(es2[0]);
        SameNameSameValue(NameOf(es1[0]), ValueOf(es1[0]), ValueOf(es2[0]));
        assert Contributions(es1) == [p1] + Contributions(t1) && Contributions(es2) == [p2] + Contributions(t2);
        assert Contributions(es1)[1..] == Contributions(t1) && Contributions(es2)[1..] == Contributions(t2);
      } else {
        assert Contributions(es1) == Contributions(t1) && Contributions(es2) == Contributions(t2);
      }
    }
  }

  lemma ValuesPeel(es1: seq<Extraction>, es2: seq<Extraction>)
    requires |es1| == |es2| > 0
    ensures SameValues(es1, es2) <==>
      SameValues(es1[1..], es2[1..]) && (Contribution(es1[0]).Some? ==> ValueOf(es1[0]) == ValueOf(es2[0]))
  {
    hide Contribution, ValueOf;
    var t1, t2 := es1[1..], es2[1..];
    if SameValues(es1, es2) {
      forall i | 0 <= i < |t1| && Contribution(t1[i]).Some? ensures ValueOf(t1[i]) == ValueOf(t2[i]) {
        assert t1[i] == es1[i + 1] && t2[i] == es2[i + 1];
      }
    }
    if SameValues(t1, t2) && (Contribution(es1[0]).Some? ==> ValueOf(es1[0]) == ValueOf(es2[0])) {
      forall i | 0 <= i < |es1| && Contribution(es1[i]).Some? ensures ValueOf(es1[i]) == ValueOf(es2[i]) {
        if i > 0 { assert t1[i - 1] == es1[i] && t2[i - 1] == es2[i]; }
      }
    }
  }

  /** A contribution determines its value, and its separators are its name's and its value's. */
  lemma SameNameSameValue(name: string, x: string, y: string)
    ensures name + "=" + x == name + "=" + y <==> x == y
    ensures '|' !in x && '|' !in y ==> Bars(name + "=" + x) == Bars(name + "=" + y)
  {
    var head := name + "=";
    assert (head + x)[|head|..] == x && (head + y)[|head|..] == y;
    if '|' !in x && '|' !in y {
      BarsOfHead(head, x);
      BarsOfHead(head, y);
    }
  }

  lemma {:induction false} BarsOfHead(head: string, x: string)
    requires '|' !in x
    ensures Bars(head + x) == Bars(head)
    decreases |head|
  {
    var i := IndexOf(head, '|');
    if i == |head| {
      SplitNone(head, '|');
      SplitNone(head + x, '|');
    } else {
      var first, rest := head[..i], head[i + 1..];
      BarsOfHead(rest, x);
      assert head == first + ['|'] + rest && head + x == first + ['|'] + (rest + x);
      SplitCons(first, '|', rest);
      SplitCons(first, '|', rest + x);
    }
  }

  /** Two requests of one shape whose values carry no '|' share a lane exactly when every extractor found
      the same value on both. */
  lemma SeparatorFreeLanesAreApart(faultKey: string, es1: seq<Extraction>, es2: seq<Extraction>)
    requires SameShape(es1, es2) && Unbarred(es1) && Unbarred(es2)
    ensures LaneKey(faultKey, es1) == LaneKey(faultKey, es2) <==> SameValues(es1, es2)
  {
    ShapedContributions(es1, es2);
    EvenLanesAreApart(faultKey, es1, es2);
  }

  // ---- exactly which values of two extractors merge ----

  /** What stands between the two values in the key. */
  function Between(b: string): string { "|" + b + "=" }

  /** The first value of one request spells the second extractor, and the second value of the other gives
      back what followed. */
  ghost predicate Spills(b: string, x1: string, y1: string, x2: string, y2: string) {
    exists w: string :: x1 == x2 + Between(b) + w && y2 == w + Between(b) + y1
  }

  lemma BarOnlyAtStart(b: string, n: nat)
    requires '|' !in b
    ensures 0 < n < |Between(b)| ==> Between(b)[n] != '|'
  {
    if 0 < n < |Between(b)| {
      assert Between(b)[1..] == b + "=";
      assert Between(b)[n] == (b + "=")[n - 1];
    }
  }

  lemma InTheHead(s: string, y: string, n: nat)
    ensures n < |s| ==> (s + y)[n] == s[n]
  {
  }

  lemma LongerHeadSpills(b: string, x1: string, y1: string, x2: string, y2: string)
    requires '|' !in b && |x1| > |x2| && x1 + Between(b) + y1 == x2 + Between(b) + y2
    ensures Spills(b, x1, y1, x2, y2)
  {
    var s := Between(b);
    var whole := x1 + s + y1;
    var u := x1[|x2|..];
    assert whole[..|x1|] == x1 && whole[..|x2|] == x2;
    assert x1 == x2 + u;
    assert whole[|x2|..] == u + s + y1 && whole[|x2|..] == s + y2;
    BarOnlyAtStart(b, |u|);
    assert (s + y2)[|u|] == (u + s + y1)[|u|] == '|';
    InTheHead(s, y2, |u|);
    var w := u[|s|..];
    assert u[..|s|] == (s + y2)[..|s|] == s;
    assert u == s + w;
    assert (s + y2)[|s|..] == y2 && (u + s + y1)[|s|..] == w + s + y1;
    assert x1 == x2 + s + w && y2 == w + s + y1;
  }

  /** Two requests keyed by two extractors share a lane exactly when they found the same two values, or
      the first value of one goes on from the other's with the text of the second extractor and what the
      other's second value opens with. */
  lemma TwoExtractorsMergeExactlyWhen(
      faultKey: string, a: string, b: string, x1: string, y1: string, x2: string, y2: string)
    requires '|' !in b
    requires |x1| <= MAX_LANE_VALUE_LEN && |y1| <= MAX_LANE_VALUE_LEN
    requires |x2| <= MAX_LANE_VALUE_LEN && |y2| <= MAX_LANE_VALUE_LEN
    ensures LaneKey(faultKey, [Scalar(a, Some(x1)), Scalar(b, Some(y1))])
         == LaneKey(faultKey, [Scalar(a, Some(x2)), Scalar(b, Some(y2))])
       <==> (x1 == x2 && y1 == y2) || Spills(b, x1, y1, x2, y2) || Spills(b, x2, y2, x1, y1)
  {
    var s := Between(b);
    TwoValuesKey(faultKey, a, b, x1, y1);
    TwoValuesKey(faultKey, a, b, x2, y2);
    var head := faultKey + "|" + a + "=";
    assert (head + (x1 + s + y1))[|head|..] == x1 + s + y1 && (head + (x2 + s + y2))[|head|..] == x2 + s + y2;
    if x1 + s + y1 == x2 + s + y2 {
      if |x1| == |x2| {
        assert (x1 + s + y1)[..|x1|] == x1 && (x2 + s + y2)[..|x1|] == x2;
        assert (x1 + s + y1)[|x1| + |s|..] == y1 && (x2 + s + y2)[|x1| + |s|..] == y2;
      } else if |x1| > |x2| {
        LongerHeadSpills(b, x1, y1, x2, y2);
      } else {
        LongerHeadSpills(b, x2, y2, x1, y1);
      }
    }
    if Spills(b, x1, y1, x2, y2) { SpillsMeet(b, x1, y1, x2, y2); }
    if Spills(b, x2, y2, x1, y1) { SpillsMeet(b, x2, y2, x1, y1); }
  }

  lemma SpillsMeet(b: string, x1: string, y1: string, x2: string, y2: string)
    requires Spills(b, x1, y1, x2, y2)
    ensures x1 + Between(b) + y1 == x2 + Between(b) + y2
  {
    var s := Between(b);
    var w :| x1 == x2 + s + w && y2 == w + s + y1;
    assert (x2 + s + w) + s + y1 == x2 + s + (w + s + y1);
  }

  lemma TwoValuesKey(faultKey: string, a: string, b: string, x: string, y: string)
    requires |x| <= MAX_LANE_VALUE_LEN && |y| <= MAX_LANE_VALUE_LEN
    ensures LaneKey(faultKey, [Scalar(a, Some(x)), Scalar(b, Some(y))])
         == (faultKey + "|" + a + "=") + (x + Between(b) + y)
  {
    hide LaneKey, Contributions, Join;
    var es := [Scalar(a, Some(x)), Scalar(b, Some(y))];
    LaneKeyShape(faultKey, es);
    TwoContributions(es);
    Sevenfold(faultKey, "|", a, "=", x, "|", b, y);
  }

  lemma Sevenfold(k: string, bar: string, a: string, eq: string, x: string, bar2: string, b: string, y: string)
    ensures k + (bar + ((a + eq + x) + bar2 + (b + eq + y))) == (k + bar + a + eq) + (x + (bar2 + b + eq) + y)
  {
  }
}
