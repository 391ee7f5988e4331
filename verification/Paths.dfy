/** The lane prefix of a request path: the two optional segments that select a scenario and a
    namespace, and the route left once they are taken off.  */
module Paths {
  import opened Text
  import opened Lanes

  datatype Prefix = Prefix(scenario: string, namespace: string, scenarioBad: bool, namespaceBad: bool)

  function Opening(segment: char): string { ['/', segment, '/'] }

  predicate Opens(path: string, segment: char) { |path| >= 3 && path[..3] == Opening(segment) }

  /** The value after a leading segment, and what remains. */
  datatype Cut = Cut(value: string, rest: string)

  function CutLaneSegment(path: string, segment: char): Option<Cut> {
    if !Opens(path, segment) then None
    else
      var rest := path[3..];
      var i := IndexOf(rest, '/');
      Some(Cut(rest[..i], rest[i..]))
  }

  /** Taking off one optional segment: what remains, the name it carried, and whether it was rejected. */
  datatype Taken = Taken(rest: string, name: string, bad: bool)

  function Take(path: string, segment: char): Taken {
    match CutLaneSegment(path, segment)
    case None => Taken(path, "", false)
    case Some(cut) => if ValidNamespace(cut.value) then Taken(cut.rest, cut.value, false) else Taken(cut.rest, "", true)
  }

  function RouteOr(rest: string): string { if rest == "" then "/" else rest }

  /** The route a path addresses and what its prefix carries. A rejected value is taken off too. */
  function SplitLanePath(path: string): (string, Prefix) {
    var x := Take(path, 'x');
    var n := Take(x.rest, 'n');
    (RouteOr(n.rest), Prefix(x.name, n.name, x.bad, n.bad))
  }

  /** The namespace a request is served in: the path's, else the header's, else the default; a rejected
      name is never one. */
  function RequestNamespace(p: Prefix, header: string): string {
    if p.namespaceBad then DEFAULT_NAMESPACE
    else if p.namespace != "" then p.namespace
    else if ValidNamespace(header) then header
    else DEFAULT_NAMESPACE
  }

  /** The path a client addresses a route by, under the prefixes its base URL carries. */
  function Addressed(scenario: Option<string>, namespace: Option<string>, route: string): string {
    (if scenario.Some? then Opening('x') + scenario.value else "")
    + (if namespace.Some? then Opening('n') + namespace.value else "") + route
  }

  predicate RouteLike(route: string) { route == "" || route[0] == '/' }

  lemma CutInverts(segment: char, value: string, rest: string)
    requires ValidNamespace(value) && RouteLike(rest)
    ensures CutLaneSegment(Opening(segment) + value + rest, segment) == Some(Cut(value, rest))
  {
    var path := Opening(segment) + value + rest;
    assert path[..3] == Opening(segment) && path[3..] == value + rest;
    ValidNamesHaveNoSeparators(value);
    IndexOfHead(value, rest, '/');
    assert (value + rest)[..|value|] == value && (value + rest)[|value|..] == rest;
  }

  function NameOr(name: Option<string>): string { if name.Some? then name.value else "" }

  function Prefixed(segment: char, name: Option<string>, rest: string): string {
    if name.Some? then Opening(segment) + name.value + rest else rest
  }

  lemma TakeInverts(segment: char, name: Option<string>, rest: string)
    requires (name.Some? ==> ValidNamespace(name.value)) && RouteLike(rest)
    requires name.Some? || !Opens(rest, segment)
    ensures Take(Prefixed(segment, name, rest), segment) == Taken(rest, NameOr(name), false)
  {
    if name.Some? { CutInverts(segment, name.value, rest); }
  }

  lemma TakeShortens(path: string, segment: char)
    ensures |Take(path, segment).rest| + (if Opens(path, segment) then 3 else 0) <= |path|
  {
  }

  lemma Addresses(scenario: Option<string>, namespace: Option<string>, route: string)
    ensures Addressed(scenario, namespace, route) == Prefixed('x', scenario, Prefixed('n', namespace, route))
  {
    if scenario.Some? && namespace.Some? {
      assert Opening('x') + scenario.value + (Opening('n') + namespace.value) + route
          == Opening('x') + scenario.value + (Opening('n') + namespace.value + route);
    }
  }

  lemma NamespacesAreNotScenarios(namespace: string, route: string)
    ensures !Opens(Prefixed('n', Some(namespace), route), 'x') && RouteLike(Prefixed('n', Some(namespace), route))
  {
    var path := Prefixed('n', Some(namespace), route);
    assert path[0] == '/' && path[1] == 'n';
    assert Opening('x')[1] == 'x';
    if |path| >= 3 { assert path[..3][1] == 'n'; }
  }

  /** Splitting recovers route and names of any path a client can address, exactly unless an absent
      prefix is what the route itself opens with. */
  lemma SplitInvertsAddressing(scenario: Option<string>, namespace: Option<string>, route: string)
    requires scenario.Some? ==> ValidNamespace(scenario.value)
    requires namespace.Some? ==> ValidNamespace(namespace.value)
    requires RouteLike(route)
    ensures SplitLanePath(Addressed(scenario, namespace, route))
         == (RouteOr(route), Prefix(NameOr(scenario), NameOr(namespace), false, false))
       <==> namespace.Some? || (!Opens(route, 'n') && (scenario.Some? || !Opens(route, 'x')))
  {
    hide ValidNamespace, Take, Prefixed, Opens, Addressed, RouteOr;
    var inner := Prefixed('n', namespace, route);
    Addresses(scenario, namespace, route);
    if namespace.Some? {
      NamespacesAreNotScenarios(namespace.value, route);
      TakeInverts('x', scenario, inner);
      TakeInverts('n', namespace, route);
    } else {
      BareRoutes(scenario, route);
    }
  }

  /** Without a namespace prefix. */
  lemma BareRoutes(scenario: Option<string>, route: string)
    requires (scenario.Some? ==> ValidNamespace(scenario.value)) && RouteLike(route)
    ensures Prefixed('n', None, route) == route
    ensures SplitLanePath(Prefixed('x', scenario, route))
         == (RouteOr(route), Prefix(NameOr(scenario), "", false, false))
       <==> !Opens(route, 'n') && (scenario.Some? || !Opens(route, 'x'))
  {
    hide ValidNamespace, Take;
    var x := Take(Prefixed('x', scenario, route), 'x');
    if scenario.Some? || !Opens(route, 'x') { TakeInverts('x', scenario, route); }
    TakeShortens(route, 'x');
    TakeShortens(x.rest, 'n');
    if !Opens(route, 'n') { TakeInverts('n', None, route); }
    if Opens(route, 'n') || (scenario.None? && Opens(route, 'x')) {
      ShorterRoutesDiffer(Take(x.rest, 'n').rest, route);
    }
  }

  lemma ShorterRoutesDiffer(rest: string, route: string)
    requires |rest| < |route| && |route| >= 3
    ensures RouteOr(rest) != RouteOr(route)
  {
  }

  /** A request to a namespace's base URL matches the plain route and is served in that namespace,
      whatever its header says. */
  lemma BaseURLsSelectTheirNamespace(namespace: string, route: string, header: string)
    requires ValidNamespace(namespace) && RouteLike(route) && route != ""
    ensures var split := SplitLanePath(Addressed(None, Some(namespace), route));
      split.0 == route && RequestNamespace(split.1, header) == namespace
  {
    SplitInvertsAddressing(None, Some(namespace), route);
  }

  /** Every request is served in one namespace: its path's if that names one; the default if the path names
      one that cannot be; else its header's, if that is one; else the default. */
  lemma RequestsAreServedIn(p: Prefix, header: string)
    ensures var ns := RequestNamespace(p, header);
      && (p.namespaceBad || (p.namespace == "" && !ValidNamespace(header)) ==> ns == DEFAULT_NAMESPACE)
      && (!p.namespaceBad && p.namespace != "" ==> ns == p.namespace)
      && (!p.namespaceBad && p.namespace == "" && ValidNamespace(header) ==> ns == header)
  {
    hide ValidNamespace;
  }

  /** Any request at all is served in a namespace that can be one. */
  lemma RequestNamespacesAreValid(path: string, header: string)
    ensures ValidNamespace(RequestNamespace(SplitLanePath(path).1, header))
  {
    DefaultIsValid();
    hide CutLaneSegment;
  }

  lemma DefaultIsValid()
    ensures ValidNamespace(DEFAULT_NAMESPACE)
  {
    assert forall i | 0 <= i < |DEFAULT_NAMESPACE| :: SafeChar(DEFAULT_NAMESPACE[i]);
  }

  /** A value that can be no name is taken off its path like one that can, and reported: the request is
      served in the default namespace, on the route behind it. */
  lemma BadNamespacesAreTakenOff(value: string, route: string, header: string)
    requires '/' !in value && !ValidNamespace(value) && RouteLike(route)
    ensures var split := SplitLanePath(Opening('n') + value + route);
      && split == (RouteOr(route), Prefix("", "", false, true))
      && RequestNamespace(split.1, header) == DEFAULT_NAMESPACE
  {
    hide ValidNamespace;
    var path := Opening('n') + value + route;
    assert path[..3] == Opening('n') && path[3..] == value + route;
    assert Opening('n')[1] != Opening('x')[1];
    IndexOfHead(value, route, '/');
    assert (value + route)[..|value|] == value && (value + route)[|value|..] == route;
    assert CutLaneSegment(path, 'x') == None && CutLaneSegment(path, 'n') == Some(Cut(value, route));
  }

  /** What a path addresses is never empty: a bare base URL addresses the root. */
  lemma BareBaseURLsAddressTheRoot(scenario: Option<string>, namespace: Option<string>, path: string)
    requires scenario.Some? ==> ValidNamespace(scenario.value)
    requires namespace.Some? ==> ValidNamespace(namespace.value)
    ensures SplitLanePath(Addressed(scenario, namespace, "")).0 == "/" && SplitLanePath(path).0 != ""
  {
    SplitInvertsAddressing(scenario, namespace, "");
    hide Take;
  }
}
