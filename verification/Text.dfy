/** The string operations the simulator's key and frame grammars rest on: cutting at the first
    separator, splitting at every separator, and joining back.  */
module Text {

  datatype Option<+T> = None | Some(value: T)

  /** The position of the first c in s, or |s| when there is none. */
  function IndexOf(s: string, c: char): (i: nat)
    ensures i <= |s| && c !in s[..i]
    ensures i < |s| <==> c in s
    ensures i < |s| ==> s[i] == c
  {
    if s == [] then 0 else if s[0] == c then 0 else 1 + IndexOf(s[1..], c)
  }

  /** strings.Split for a one-character separator: always at least one part. */
  function Split(s: string, c: char): (parts: seq<string>)
    ensures |parts| >= 1
    ensures forall p :: p in parts ==> c !in p
    decreases |s|
  {
    var i := IndexOf(s, c);
    if i == |s| then [s] else [s[..i]] + Split(s[i + 1..], c)
  }

  /** strings.Join for a one-character separator. */
  function Join(parts: seq<string>, c: char): string
  {
    if |parts| == 0 then ""
    else if |parts| == 1 then parts[0]
    else parts[0] + [c] + Join(parts[1..], c)
  }

  lemma {:induction false} IndexOfPrefix(a: string, c: char, b: string)
    requires c !in a
    ensures IndexOf(a + [c] + b, c) == |a|
  {
    if a != [] {
      IndexOfPrefix(a[1..], c, b);
      assert (a + [c] + b)[1..] == a[1..] + [c] + b;
    }
  }

  /** A separator-free head followed by nothing or by the separator is found by searching for it. */
  lemma IndexOfHead(a: string, x: string, c: char)
    requires c !in a && (x == [] || x[0] == c)
    ensures IndexOf(a + x, c) == |a|
  {
    if x == [] {
      assert a + x == a;
    } else {
      IndexOfPrefix(a, c, x[1..]);
      assert a + [c] + x[1..] == a + x;
    }
  }

  lemma SplitNone(a: string, c: char)
    requires c !in a
    ensures Split(a, c) == [a]
  {
  }

  /** Splitting peels the text before the first separator. */
  lemma SplitCons(a: string, c: char, b: string)
    requires c !in a
    ensures Split(a + [c] + b, c) == [a] + Split(b, c)
  {
    IndexOfPrefix(a, c, b);
    var s := a + [c] + b;
    assert s[..|a|] == a && s[|a| + 1..] == b;
  }

  lemma JoinPeels(a: string, c: char, rest: seq<string>)
    requires rest != []
    ensures Join([a] + rest, c) == a + [c] + Join(rest, c)
  {
    assert ([a] + rest)[1..] == rest;
  }

  lemma {:induction false} SplitThenJoin(s: string, c: char)
    ensures Join(Split(s, c), c) == s
    decreases |s|
  {
    hide Join;
    var i := IndexOf(s, c);
    if i < |s| {
      SplitThenJoin(s[i + 1..], c);
      JoinPeels(s[..i], c, Split(s[i + 1..], c));
      assert s == s[..i] + [c] + s[i + 1..];
    } else {
      JoinOne(s, c);
    }
  }

  lemma JoinOne(a: string, c: char)
    ensures Join([a], c) == a
  {
  }

  lemma {:induction false} JoinThenSplit(parts: seq<string>, c: char)
    requires |parts| >= 1 && forall p :: p in parts ==> c !in p
    ensures Split(Join(parts, c), c) == parts
  {
    if |parts| == 1 {
      SplitNone(parts[0], c);
    } else {
      JoinThenSplit(parts[1..], c);
      SplitCons(parts[0], c, Join(parts[1..], c));
      assert parts == [parts[0]] + parts[1..];
    }
  }

  /** A separator-free head is determined by the joined text. */
  lemma HeadDetermined(a: string, b: string, c: char, x: string, y: string)
    requires c !in a && c !in b
    requires a + x == b + y
    requires (x == [] || x[0] == c) && (y == [] || y[0] == c)
    ensures a == b && x == y
  {
    IndexOfHead(a, x, c);
    IndexOfHead(b, y, c);
    assert (a + x)[..|a|] == a && (b + y)[..|b|] == b;
    assert (a + x)[|a|..] == x && (b + y)[|b|..] == y;
  }
}
