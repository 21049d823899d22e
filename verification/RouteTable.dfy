// The trie set against a flat table of routes.
module RouteTable {
  import opened Options
  import opened Trie

  datatype Route = Route(path: seq<string>, pattern: string)

  function Under(part: string, rs: seq<Route>): seq<Route> {
    if rs == [] then [] else [Route([part] + rs[0].path, rs[0].pattern)] + Under(part, rs[1..])
  }

  // The routes of a node in the order of getRoutes, each with its path from the node.
  function Routes(n: Tree): seq<Route> {
    (if n.pattern != "" then [Route([], n.pattern)] else []) + RoutesBelow(n.children)
  }

  function RoutesBelow(ns: seq<Tree>): seq<Route> {
    if ns == [] then [] else Under(ns[0].part, Routes(ns[0])) + RoutesBelow(ns[1..])
  }

  // Whether a path of parts matches the parts of a request: ':' parts stand for
  // one part, a '*' part for all that is left, of which there must be some.
  predicate Matches(path: seq<string>, parts: seq<string>) {
    if path == [] then parts == []
    else
      && parts != []
      && (path[0] == parts[0] || WildPart(path[0]))
      && (StarPart(path[0]) || Matches(path[1..], parts[1..]))
  }

  function FirstMatch(rs: seq<Route>, parts: seq<string>): Option<Route> {
    if rs == [] then None
    else if Matches(rs[0].path, parts) then Some(rs[0])
    else FirstMatch(rs[1..], parts)
  }

  // ---- what insertion keeps, whether absorbed or not ----

  // `isWild` is what the part says; a '*' node has a pattern; a pattern has as
  // many parts as its node is deep.
  ghost predicate Sound(n: Tree, depth: nat, count: string -> nat) {
    && (StarPart(n.part) ==> n.pattern != "")
    && (n.pattern != "" ==> count(n.pattern) == depth)
    && (forall i :: 0 <= i < |n.children| ==> n.children[i].isWild == WildPart(n.children[i].part))
    && SoundAll(n.children, depth + 1, count)
  }

  ghost predicate SoundAll(ns: seq<Tree>, depth: nat, count: string -> nat) {
    forall i :: 0 <= i < |ns| ==> Sound(ns[i], depth, count)
  }

  // Only the last part of a pattern can be a '*' part.
  ghost predicate StarLast(parts: seq<string>) {
    forall i :: 0 <= i < |parts| - 1 ==> !StarPart(parts[i])
  }

  // Part for part: a path matches if each part is the request's own or begins with
  // ':' or '*', and the request has as many parts, or at least as many if the last
  // part of the path begins with '*'.
  lemma {:induction false} MatchesIs(path: seq<string>, parts: seq<string>)
    requires StarLast(path)
    ensures Matches(path, parts) <==>
      && (|path| == |parts| || (0 < |path| <= |parts| && path[|path| - 1] != "" && path[|path| - 1][0] == '*'))
      && forall i :: 0 <= i < |path| ==>
           (path[i] != "" && (path[i][0] == ':' || path[i][0] == '*')) || path[i] == parts[i]
  {
    if path != [] && parts != [] && !StarPart(path[0]) {
      MatchesIs(path[1..], parts[1..]);
      assert forall i :: 0 < i < |path| ==> path[i] == path[1..][i - 1];
      assert forall i :: 0 < i < |parts| ==> parts[i] == parts[1..][i - 1];
    }
  }

  lemma {:induction false} InsertKeepsSound(n: Tree, pattern: string, parts: seq<string>, depth: nat,
                                            count: string -> nat)
    requires Sound(n, depth, count) || (n.pattern == "" && n.children == [] && (parts == [] || !StarPart(n.part)))
    requires pattern != "" ==> count(pattern) == depth + |parts|
    requires StarLast(parts) && (parts != [] || StarPart(n.part) ==> pattern != "")
    ensures Sound(Insert(n, pattern, parts), depth, count)
    ensures Insert(n, pattern, parts).part == n.part && Insert(n, pattern, parts).isWild == n.isWild
    decreases |parts|
  {
    if parts != [] {
      var part, rest := parts[0], parts[1..];
      match MatchChild(n.children, part)
      case None => InsertKeepsSound(NewTree(part), pattern, rest, depth + 1, count);
      case Some(i) => InsertKeepsSound(n.children[i], pattern, rest, depth + 1, count);
    }
  }

  // What a search finds is no deeper than the parts of the path allow, and has a pattern.
  lemma {:induction false} FoundIsWithinPath(n: Tree, parts: seq<string>, depth: nat, count: string -> nat)
    requires Sound(n, depth, count) && Search(n, parts).Some?
    ensures var found := Search(n, parts).value;
      found.pattern != "" && depth <= count(found.pattern) <= depth + |parts|
    decreases |parts|, 0
  {
    if parts != [] && !StarPart(n.part) {
      var ns := MatchChildren(n.children, parts[0]);
      MatchChildrenAreChildren(n.children, parts[0]);
      forall i | 0 <= i < |ns|
        ensures Sound(ns[i], depth + 1, count)
      {
        assert ns[i] in n.children;
      }
      FoundFirstIsWithinPath(ns, parts[1..], depth + 1, count);
    }
  }

  lemma {:induction false} FoundFirstIsWithinPath(ns: seq<Tree>, parts: seq<string>, depth: nat, count: string -> nat)
    requires SoundAll(ns, depth, count) && SearchFirst(ns, parts).Some?
    ensures var found := SearchFirst(ns, parts).value;
      found.pattern != "" && depth <= count(found.pattern) <= depth + |parts|
    decreases |parts|, 1 + |ns|
  {
    if Search(ns[0], parts).Some? {
      FoundIsWithinPath(ns[0], parts, depth, count);
    } else {
      FoundFirstIsWithinPath(ns[1..], parts, depth, count);
    }
  }

  lemma {:induction false} MatchChildrenAreChildren(ns: seq<Tree>, part: string)
    ensures forall n :: n in MatchChildren(ns, part) ==> n in ns
  {
    if ns != [] {
      MatchChildrenAreChildren(ns[1..], part);
    }
  }

  // ---- search is the first match in the order of getRoutes ----

  lemma {:induction false} FirstMatchConcat(a: seq<Route>, b: seq<Route>, parts: seq<string>)
    ensures FirstMatch(a + b, parts) ==
      if FirstMatch(a, parts).Some? then FirstMatch(a, parts) else FirstMatch(b, parts)
  {
    if a == [] {
      assert a + b == b;
    } else {
      FirstMatchConcat(a[1..], b, parts);
      assert (a + b)[1..] == a[1..] + b;
    }
  }

  // Below a ':' or plain part the matching goes on with the rest ...
  lemma {:induction false} FirstMatchUnder(part: string, rs: seq<Route>, parts: seq<string>)
    requires parts != [] && (part == parts[0] || WildPart(part)) && !StarPart(part)
    ensures match FirstMatch(rs, parts[1..])
      case None => FirstMatch(Under(part, rs), parts) == None
      case Some(r) => FirstMatch(Under(part, rs), parts) == Some(Route([part] + r.path, r.pattern))
  {
    if rs != [] {
      FirstMatchUnder(part, rs[1..], parts);
      assert ([part] + rs[0].path)[1..] == rs[0].path;
    }
  }

  // ... and below any other part nothing matches.
  lemma {:induction false} NoMatchUnder(part: string, rs: seq<Route>, parts: seq<string>)
    requires parts == [] || !(part == parts[0] || WildPart(part))
    ensures FirstMatch(Under(part, rs), parts) == None
  {
    if rs != [] {
      NoMatchUnder(part, rs[1..], parts);
    }
  }

  lemma {:induction false} NothingBelowMatchesNothing(ns: seq<Tree>)
    ensures FirstMatch(RoutesBelow(ns), []) == None
  {
    if ns != [] {
      NoMatchUnder(ns[0].part, Routes(ns[0]), []);
      FirstMatchConcat(Under(ns[0].part, Routes(ns[0])), RoutesBelow(ns[1..]), []);
      NothingBelowMatchesNothing(ns[1..]);
    }
  }

  // Searching, with full backtracking, finds the first route in the order of
  // getRoutes that matches, or nothing if none does.
  lemma {:induction false} SearchIsFirstMatch(n: Tree, parts: seq<string>, depth: nat, count: string -> nat)
    requires Sound(n, depth, count) && !StarPart(n.part)
    ensures match FirstMatch(Routes(n), parts)
      case None => Search(n, parts) == None
      case Some(r) => Search(n, parts).Some? && Search(n, parts).value.pattern == r.pattern
    decreases |parts|, 0
  {
    var own := if n.pattern != "" then [Route([], n.pattern)] else [];
    FirstMatchConcat(own, RoutesBelow(n.children), parts);
    if parts == [] {
      NothingBelowMatchesNothing(n.children);
    } else {
      SearchBelowIsFirstMatch(n.children, parts, depth + 1, count);
    }
  }

  lemma {:induction false} SearchBelowIsFirstMatch(ns: seq<Tree>, parts: seq<string>, depth: nat, count: string -> nat)
    requires SoundAll(ns, depth, count) && parts != []
    requires forall i :: 0 <= i < |ns| ==> ns[i].isWild == WildPart(ns[i].part)
    ensures var found := SearchFirst(MatchChildren(ns, parts[0]), parts[1..]);
      match FirstMatch(RoutesBelow(ns), parts)
      case None => found == None
      case Some(r) => found.Some? && found.value.pattern == r.pattern
    decreases |parts| - 1, 1 + |ns|
  {
    if ns != [] {
      var child := ns[0];
      SearchBelowIsFirstMatch(ns[1..], parts, depth, count);
      FirstMatchConcat(Under(child.part, Routes(child)), RoutesBelow(ns[1..]), parts);
      var rest := MatchChildren(ns[1..], parts[0]);
      if !Accepts(child, parts[0]) {
        NoMatchUnder(child.part, Routes(child), parts);
        assert MatchChildren(ns, parts[0]) == rest;
      } else {
        assert MatchChildren(ns, parts[0]) == [child] + rest;
        assert ([child] + rest)[1..] == rest;
        if StarPart(child.part) {
          StarMatchesItself(child, parts, depth, count);
        } else {
          FirstMatchUnder(child.part, Routes(child), parts);
          SearchIsFirstMatch(child, parts[1..], depth, count);
        }
      }
    }
  }

  lemma StarMatchesItself(child: Tree, parts: seq<string>, depth: nat, count: string -> nat)
    requires Sound(child, depth, count) && StarPart(child.part) && parts != []
    ensures Search(child, parts[1..]) == Some(child)
    ensures FirstMatch(Under(child.part, Routes(child)), parts) == Some(Route([child.part], child.pattern))
  {
    assert Routes(child)[0] == Route([], child.pattern);
    assert [child.part] + [] == [child.part];
  }

  // ---- the trie as a table from paths to patterns ----

  ghost predicate Unique(n: Tree) {
    && (forall i, j :: 0 <= i < j < |n.children| ==> n.children[i].part != n.children[j].part)
    && forall i :: 0 <= i < |n.children| ==> Unique(n.children[i])
  }

  function ChildAt(ns: seq<Tree>, part: string): (r: Option<nat>)
    ensures r.Some? ==> r.value < |ns| && ns[r.value].part == part
    ensures r.None? ==> forall i :: 0 <= i < |ns| ==> ns[i].part != part
  {
    if ns == [] then None
    else if ns[0].part == part then Some(0)
    else
      match ChildAt(ns[1..], part)
      case None => None
      case Some(i) => Some(i + 1)
  }

  // The pattern stored at exactly this path, or "".
  function PatternAt(n: Tree, path: seq<string>): string
    decreases |path|
  {
    if path == [] then n.pattern
    else
      match ChildAt(n.children, path[0])
      case None => ""
      case Some(i) => PatternAt(n.children[i], path[1..])
  }

  // Where an insertion ends up: a wild sibling may absorb a part.
  function Landing(n: Tree, parts: seq<string>): seq<string>
    decreases |parts|
  {
    if parts == [] then []
    else
      match MatchChild(n.children, parts[0])
      case None => parts
      case Some(i) => [n.children[i].part] + Landing(n.children[i], parts[1..])
  }

  // At each level the chosen child is new or has the very part.
  predicate Unabsorbed(n: Tree, parts: seq<string>)
    decreases |parts|
  {
    parts == [] ||
    match MatchChild(n.children, parts[0])
    case None => true
    case Some(i) => n.children[i].part == parts[0] && Unabsorbed(n.children[i], parts[1..])
  }

  lemma {:induction false} UnabsorbedIffLands(n: Tree, parts: seq<string>)
    ensures Unabsorbed(n, parts) <==> Landing(n, parts) == parts
    ensures |Landing(n, parts)| == |parts|
    decreases |parts|
  {
    if parts != [] {
      match MatchChild(n.children, parts[0])
      case None =>
      case Some(i) =>
        UnabsorbedIffLands(n.children[i], parts[1..]);
        assert Landing(n, parts)[1..] == Landing(n.children[i], parts[1..]);
        assert parts == [parts[0]] + parts[1..];
    }
  }

  lemma {:induction false} InsertKeepsUnique(n: Tree, pattern: string, parts: seq<string>)
    requires Unique(n)
    ensures Unique(Insert(n, pattern, parts)) && Insert(n, pattern, parts).part == n.part
    decreases |parts|
  {
    if parts != [] {
      match MatchChild(n.children, parts[0])
      case None => InsertKeepsUnique(NewTree(parts[0]), pattern, parts[1..]);
      case Some(i) => InsertKeepsUnique(n.children[i], pattern, parts[1..]);
    }
  }

  lemma ChildAtIs(ns: seq<Tree>, i: nat)
    requires i < |ns| && forall j, k :: 0 <= j < k < |ns| ==> ns[j].part != ns[k].part
    ensures ChildAt(ns, ns[i].part) == Some(i)
  {
  }

  lemma {:induction false} NewBranchAt(part: string, pattern: string, parts: seq<string>, path: seq<string>)
    ensures PatternAt(Insert(NewTree(part), pattern, parts), path) == if path == parts then pattern else ""
    decreases |parts|
  {
    if parts != [] && path != [] {
      var child := Insert(NewTree(parts[0]), pattern, parts[1..]);
      InsertKeepsUnique(NewTree(parts[0]), pattern, parts[1..]);
      assert Insert(NewTree(part), pattern, parts).children == [child];
      NewBranchAt(parts[0], pattern, parts[1..], path[1..]);
      assert path == [path[0]] + path[1..] && parts == [parts[0]] + parts[1..];
    }
  }

  // An insertion writes its pattern at its landing place and nowhere else.
  lemma {:induction false} InsertWritesLanding(n: Tree, pattern: string, parts: seq<string>, path: seq<string>)
    requires Unique(n)
    ensures PatternAt(Insert(n, pattern, parts), path) ==
      if path == Landing(n, parts) then pattern else PatternAt(n, path)
    decreases |parts|
  {
    if parts != [] && path != [] {
      var ns := n.children;
      match MatchChild(ns, parts[0])
      case None =>
        InsertKeepsUnique(NewTree(parts[0]), pattern, parts[1..]);
        AppendedChildAt(ns, Insert(NewTree(parts[0]), pattern, parts[1..]), path[0]);
        NewBranchAt(parts[0], pattern, parts[1..], path[1..]);
        assert path == [path[0]] + path[1..] && parts == [parts[0]] + parts[1..];
      case Some(i) =>
        InsertKeepsUnique(ns[i], pattern, parts[1..]);
        UpdatedChildAt(ns, i, Insert(ns[i], pattern, parts[1..]), path[0]);
        ChildAtIs(ns, i);
        InsertWritesLanding(ns[i], pattern, parts[1..], path[1..]);
        assert path == [path[0]] + path[1..];
        assert Landing(n, parts)[1..] == Landing(ns[i], parts[1..]);
    }
  }

  lemma {:induction false} AppendedChildAt(ns: seq<Tree>, child: Tree, part: string)
    ensures ChildAt(ns + [child], part) ==
      if ChildAt(ns, part).Some? then ChildAt(ns, part) else if child.part == part then Some(|ns|) else None
  {
    if ns != [] {
      AppendedChildAt(ns[1..], child, part);
      assert (ns + [child])[1..] == ns[1..] + [child];
    }
  }

  lemma {:induction false} UpdatedChildAt(ns: seq<Tree>, i: nat, child: Tree, part: string)
    requires i < |ns| && child.part == ns[i].part
    ensures ChildAt(ns[i := child], part) == ChildAt(ns, part)
  {
    if i > 0 {
      UpdatedChildAt(ns[1..], i - 1, child, part);
      assert ns[i := child][1..] == ns[1..][i - 1 := child];
    } else {
      assert ns[i := child][1..] == ns[1..];
    }
  }

  // ---- the flat table ----

  // Later registrations of the same parts replace earlier ones.
  type Table = map<seq<string>, string>

  ghost predicate Agrees(n: Tree, table: Table) {
    forall path :: PatternAt(n, path) == if path in table then table[path] else ""
  }

  // A registration keeps trie and table in agreement exactly if it is not absorbed.
  lemma AgreesIffUnabsorbed(n: Tree, table: Table, pattern: string, parts: seq<string>, split: string -> seq<string>)
    requires Unique(n) && Agrees(n, table)
    requires split(pattern) == parts && (parts != [] ==> pattern != "")
    requires forall path :: path in table && table[path] != "" ==> split(table[path]) == path
    ensures Agrees(Insert(n, pattern, parts), table[parts := pattern]) <==> Unabsorbed(n, parts)
  {
    UnabsorbedIffLands(n, parts);
    var m, landing := Insert(n, pattern, parts), Landing(n, parts);
    forall path
      ensures PatternAt(m, path) == if path == landing then pattern else PatternAt(n, path)
    {
      InsertWritesLanding(n, pattern, parts, path);
    }
    if landing != parts {
      assert PatternAt(m, landing) == pattern != "";
    }
  }

  // ---- an absorbed path stays without a node ----

  // No child accepts the part of a later one.
  ghost predicate Unshadowed(n: Tree) {
    && (forall i, j :: 0 <= i < j < |n.children| ==> !Accepts(n.children[i], n.children[j].part))
    && forall i :: 0 <= i < |n.children| ==> Unshadowed(n.children[i])
  }

  lemma InsertKeepsPart(n: Tree, pattern: string, parts: seq<string>)
    ensures Insert(n, pattern, parts).part == n.part && Insert(n, pattern, parts).isWild == n.isWild
  {
  }

  lemma {:induction false} InsertKeepsUnshadowed(n: Tree, pattern: string, parts: seq<string>)
    requires Unshadowed(n)
    ensures Unshadowed(Insert(n, pattern, parts))
    decreases |parts|
  {
    if parts != [] {
      match MatchChild(n.children, parts[0])
      case None =>
        InsertKeepsUnshadowed(NewTree(parts[0]), pattern, parts[1..]);
        InsertKeepsPart(NewTree(parts[0]), pattern, parts[1..]);
      case Some(i) =>
        InsertKeepsUnshadowed(n.children[i], pattern, parts[1..]);
        InsertKeepsPart(n.children[i], pattern, parts[1..]);
    }
  }

  lemma {:induction false} AbsorbedHasNoPattern(n: Tree, path: seq<string>)
    requires Unshadowed(n) && !Unabsorbed(n, path)
    ensures PatternAt(n, path) == ""
    decreases |path|
  {
    var i := MatchChild(n.children, path[0]).value;
    var j := ChildAt(n.children, path[0]);
    if j.Some? {
      assert Accepts(n.children[j.value], path[0]);
      assert i == j.value;
      AbsorbedHasNoPattern(n.children[i], path[1..]);
    }
  }

  lemma {:induction false} MatchChildKept(ns: seq<Tree>, ms: seq<Tree>, part: string)
    requires MatchChild(ns, part).Some? && |ns| <= |ms|
    requires forall j :: 0 <= j < |ns| ==> ms[j].part == ns[j].part && ms[j].isWild == ns[j].isWild
    ensures MatchChild(ms, part) == MatchChild(ns, part)
  {
    if !Accepts(ns[0], part) {
      MatchChildKept(ns[1..], ms[1..], part);
    }
  }

  lemma {:induction false} InsertKeepsAbsorbed(n: Tree, pattern: string, parts: seq<string>, path: seq<string>)
    requires !Unabsorbed(n, path)
    ensures !Unabsorbed(Insert(n, pattern, parts), path)
    decreases |path|
  {
    if parts != [] {
      var m := Insert(n, pattern, parts);
      var i := MatchChild(n.children, path[0]).value;
      match MatchChild(n.children, parts[0])
      case None => MatchChildKept(n.children, m.children, path[0]);
      case Some(k) =>
        InsertKeepsPart(n.children[k], pattern, parts[1..]);
        MatchChildKept(n.children, m.children, path[0]);
        if k == i && n.children[i].part == path[0] {
          InsertKeepsAbsorbed(n.children[i], pattern, parts[1..], path[1..]);
        }
    }
  }

  // ---- routes and patterns ----

  lemma {:induction false} InUnder(part: string, rs: seq<Route>, r: Route)
    ensures r in Under(part, rs) <==> r.path != [] && r.path[0] == part && Route(r.path[1..], r.pattern) in rs
  {
    if rs != [] {
      InUnder(part, rs[1..], r);
      assert ([part] + rs[0].path)[1..] == rs[0].path;
      assert r.path != [] ==> r.path == [r.path[0]] + r.path[1..];
    }
  }

  lemma {:induction false} RoutesArePatterns(n: Tree, r: Route)
    requires Unique(n)
    ensures r in Routes(n) <==> r.pattern != "" && PatternAt(n, r.path) == r.pattern
    decreases |r.path|, |n.children| + 1
  {
    BelowArePatterns(n.children, r);
  }

  lemma {:induction false} BelowArePatterns(ns: seq<Tree>, r: Route)
    requires forall i, j :: 0 <= i < j < |ns| ==> ns[i].part != ns[j].part
    requires forall i :: 0 <= i < |ns| ==> Unique(ns[i])
    ensures r in RoutesBelow(ns) <==>
      r.path != [] && r.pattern != "" && ChildAt(ns, r.path[0]).Some? &&
      PatternAt(ns[ChildAt(ns, r.path[0]).value], r.path[1..]) == r.pattern
    decreases |r.path|, |ns|
  {
    if ns != [] {
      var below, rest := Under(ns[0].part, Routes(ns[0])), RoutesBelow(ns[1..]);
      assert r in RoutesBelow(ns) <==> r in below || r in rest;
      InUnder(ns[0].part, Routes(ns[0]), r);
      BelowArePatterns(ns[1..], r);
      if r.path != [] && ns[0].part == r.path[0] {
        RoutesArePatterns(ns[0], Route(r.path[1..], r.pattern));
        assert ChildAt(ns[1..], r.path[0]).None?;
      }
    }
  }

  function TreePatterns(ns: seq<Tree>): seq<string> {
    seq(|ns|, i requires 0 <= i < |ns| => ns[i].pattern)
  }

  function RoutePatterns(rs: seq<Route>): seq<string> {
    seq(|rs|, i requires 0 <= i < |rs| => rs[i].pattern)
  }

  // What travel collects are the nodes of the routes, in their order.
  lemma {:induction false} TravelListsRoutes(n: Tree)
    ensures TreePatterns(Travel(n)) == RoutePatterns(Routes(n))
  {
    TravelAllListsRoutes(n.children);
    var ns, rs := TravelAll(n.children), RoutesBelow(n.children);
    assert TreePatterns([n] + ns) == [n.pattern] + TreePatterns(ns);
    assert RoutePatterns([Route([], n.pattern)] + rs) == [n.pattern] + RoutePatterns(rs);
    assert [] + ns == ns && [] + rs == rs;
  }

  lemma {:induction false} TravelAllListsRoutes(ns: seq<Tree>)
    ensures TreePatterns(TravelAll(ns)) == RoutePatterns(RoutesBelow(ns))
  {
    if ns != [] {
      TravelListsRoutes(ns[0]);
      TravelAllListsRoutes(ns[1..]);
      UnderKeepsPatterns(ns[0].part, Routes(ns[0]));
      var a, b := Travel(ns[0]), TravelAll(ns[1..]);
      var c, d := Under(ns[0].part, Routes(ns[0])), RoutesBelow(ns[1..]);
      assert TreePatterns(a + b) == TreePatterns(a) + TreePatterns(b);
      assert RoutePatterns(c + d) == RoutePatterns(c) + RoutePatterns(d);
    }
  }

  lemma {:induction false} UnderKeepsPatterns(part: string, rs: seq<Route>)
    ensures RoutePatterns(Under(part, rs)) == RoutePatterns(rs)
  {
    if rs != [] {
      UnderKeepsPatterns(part, rs[1..]);
      var u := Under(part, rs[1..]);
      assert RoutePatterns([Route([part] + rs[0].path, rs[0].pattern)] + u) == [rs[0].pattern] + RoutePatterns(u);
      assert RoutePatterns(rs) == [rs[0].pattern] + RoutePatterns(rs[1..]);
    }
  }

  lemma {:induction false} FirstMatchIs(rs: seq<Route>, parts: seq<string>)
    ensures match FirstMatch(rs, parts)
      case None => forall r :: r in rs ==> !Matches(r.path, parts)
      case Some(r) => r in rs && Matches(r.path, parts)
  {
    if rs != [] {
      FirstMatchIs(rs[1..], parts);
    }
  }

  // ---- which match comes first ----

  // In the order of getRoutes: a node before its descendants, and these by the
  // order of the children at the first difference.
  predicate Before(n: Tree, a: seq<string>, b: seq<string>)
    decreases |a|
  {
    if a == [] || b == [] then a == [] && b != []
    else
      match (ChildAt(n.children, a[0]), ChildAt(n.children, b[0]))
      case (Some(i), Some(j)) => if i == j then Before(n.children[i], a[1..], b[1..]) else i < j
      case _ => false
  }

  lemma {:induction false} FirstMatchIsBefore(
    n: Tree, parts: seq<string>, path: seq<string>, depth: nat, count: string -> nat)
    requires Unique(n) && Sound(n, depth, count) && FirstMatch(Routes(n), parts).Some?
    requires PatternAt(n, path) != "" && Matches(path, parts)
    requires path != FirstMatch(Routes(n), parts).value.path
    ensures Before(n, FirstMatch(Routes(n), parts).value.path, path)
    decreases |path|, |n.children| + 2
  {
    var own := if n.pattern != "" then [Route([], n.pattern)] else [];
    FirstMatchConcat(own, RoutesBelow(n.children), parts);
    if path != [] && FirstMatch(own, parts).None? {
      FirstBelowIsBefore(n, n.children, parts, path, 0, depth, count);
    }
  }

  // The same among the children from the k-th on, if `path` is below one of them.
  lemma {:induction false} FirstBelowIsBefore(
    n: Tree, ns: seq<Tree>, parts: seq<string>, path: seq<string>, k: nat, depth: nat, count: string -> nat)
    requires Unique(n) && Sound(n, depth, count) && k <= |n.children| && ns == n.children[k..]
    requires path != [] && PatternAt(n, path) != "" && Matches(path, parts)
    requires ChildAt(n.children, path[0]).Some? && k <= ChildAt(n.children, path[0]).value
    requires FirstMatch(RoutesBelow(ns), parts).Some? ==> path != FirstMatch(RoutesBelow(ns), parts).value.path
    ensures FirstMatch(RoutesBelow(ns), parts).Some?
    ensures Before(n, FirstMatch(RoutesBelow(ns), parts).value.path, path)
    decreases |path|, 1 + |ns|
  {
    var child := ns[0];
    var below := Under(child.part, Routes(child));
    var j := ChildAt(n.children, path[0]).value;
    FirstMatchConcat(below, RoutesBelow(ns[1..]), parts);
    FirstMatchIs(below, parts);
    ChildAtIs(n.children, k);
    if FirstMatch(below, parts).Some? {
      var first := FirstMatch(below, parts).value;
      InUnder(child.part, Routes(child), first);
      if j == k {
        FirstUnderIsBefore(n, child, parts, path, first, depth, count);
      }
    } else {
      if j == k {
        RoutesArePatterns(child, Route(path[1..], PatternAt(n, path)));
        InUnder(child.part, Routes(child), Route(path, PatternAt(n, path)));
      }
      FirstBelowIsBefore(n, ns[1..], parts, path, k + 1, depth, count);
    }
  }

  lemma FirstUnderIsBefore(
    n: Tree, child: Tree, parts: seq<string>, path: seq<string>, first: Route, depth: nat, count: string -> nat)
    requires Unique(n) && Sound(n, depth, count) && parts != [] && child in n.children
    requires path != [] && path[0] == child.part
    requires PatternAt(n, path) != "" && Matches(path, parts) && path != first.path
    requires FirstMatch(Under(child.part, Routes(child)), parts) == Some(first)
    requires first.path != [] && first.path[0] == child.part
    ensures Before(n, first.path, path)
    decreases |path|, 0
  {
    var i :| 0 <= i < |n.children| && n.children[i] == child;
    ChildAtIs(n.children, i);
    assert path == [path[0]] + path[1..] && first.path == [first.path[0]] + first.path[1..];
    if StarPart(child.part) {
      StarMatchesItself(child, parts, depth + 1, count);
    } else {
      FirstMatchUnder(child.part, Routes(child), parts);
      FirstMatchIsBefore(child, parts[1..], path[1..], depth + 1, count);
    }
  }

  // ---- the order by registrations alone ----

  // Index of the first registration whose parts start with q; |regs| if there is none.
  function First(regs: seq<seq<string>>, q: seq<string>): nat {
    if regs == [] then 0 else if q <= regs[0] then 0 else 1 + First(regs[1..], q)
  }

  lemma {:induction false} FirstAppend(regs: seq<seq<string>>, x: seq<string>, q: seq<string>)
    ensures First(regs, q) <= |regs|
    ensures First(regs + [x], q) ==
      if First(regs, q) < |regs| then First(regs, q) else if q <= x then |regs| else |regs| + 1
  {
    if regs != [] {
      FirstAppend(regs[1..], x, q);
      assert (regs + [x])[1..] == regs[1..] + [x];
    }
  }

  function PartsOf(ns: seq<Tree>): (ps: seq<string>)
    ensures |ps| == |ns| && forall i :: 0 <= i < |ns| ==> ps[i] == ns[i].part
  {
    seq(|ns|, i requires 0 <= i < |ns| => ns[i].part)
  }

  // ps are the parts that f dates before `now`, in the order of their dates.
  ghost predicate Dated(ps: seq<string>, f: string -> nat, now: nat) {
    && (forall i :: 0 <= i < |ps| ==> f(ps[i]) < now)
    && (forall i, j :: 0 <= i < j < |ps| ==> f(ps[i]) < f(ps[j]))
    && (forall p :: p !in ps ==> f(p) == now)
  }

  // When each part was first registered below `prefix`.
  ghost function Dates(regs: seq<seq<string>>, prefix: seq<string>): string -> nat {
    part => First(regs, prefix + [part])
  }

  // The children of the node at `prefix` are what was registered below it, in
  // the order in which their parts first occurred there.
  ghost predicate Grown(n: Tree, prefix: seq<string>, regs: seq<seq<string>>)
    decreases n
  {
    && Dated(PartsOf(n.children), Dates(regs, prefix), |regs|)
    && forall i :: 0 <= i < |n.children| ==> Grown(n.children[i], prefix + [n.children[i].part], regs)
  }

  // How one more registration changes the dates below `prefix`; `part` is what it has there.
  ghost predicate OneMore(f: string -> nat, f': string -> nat, now: nat, part: Option<string>) {
    forall p :: f'(p) == if f(p) < now then f(p) else if part == Some(p) then now else now + 1
  }

  lemma DatedOldPart(ps: seq<string>, f: string -> nat, f': string -> nat, now: nat, part: Option<string>)
    requires Dated(ps, f, now) && OneMore(f, f', now, part) && (part.None? || part.value in ps)
    ensures Dated(ps, f', now + 1)
  {
  }

  lemma DatedNewPart(ps: seq<string>, f: string -> nat, f': string -> nat, now: nat, part: string)
    requires Dated(ps, f, now) && OneMore(f, f', now, Some(part)) && part !in ps
    ensures Dated(ps + [part], f', now + 1)
  {
  }

  lemma DatesMove(regs: seq<seq<string>>, x: seq<string>, prefix: seq<string>)
    requires prefix <= x
    ensures OneMore(Dates(regs, prefix), Dates(regs + [x], prefix), |regs|,
                    if x == prefix then None else Some(x[|prefix|]))
  {
    forall p
      ensures prefix + [p] <= x <==> x != prefix && x[|prefix|] == p
      ensures First(regs, prefix + [p]) <= |regs|
      ensures First(regs + [x], prefix + [p]) ==
        if First(regs, prefix + [p]) < |regs| then First(regs, prefix + [p])
        else if prefix + [p] <= x then |regs| else |regs| + 1
    {
      FirstAppend(regs, x, prefix + [p]);
      assert (prefix + [p])[|prefix|] == p;
    }
  }

  lemma DatesStay(regs: seq<seq<string>>, x: seq<string>, prefix: seq<string>)
    requires !(prefix <= x)
    ensures OneMore(Dates(regs, prefix), Dates(regs + [x], prefix), |regs|, None)
  {
    forall p
      ensures !(prefix + [p] <= x)
      ensures First(regs, prefix + [p]) <= |regs|
      ensures First(regs + [x], prefix + [p]) ==
        if First(regs, prefix + [p]) < |regs| then First(regs, prefix + [p]) else |regs| + 1
    {
      FirstAppend(regs, x, prefix + [p]);
      assert prefix <= prefix + [p];
    }
  }

  // A registration elsewhere changes nothing here.
  lemma {:induction false} ElsewhereKeepsGrown(n: Tree, prefix: seq<string>, regs: seq<seq<string>>, x: seq<string>)
    requires Grown(n, prefix, regs) && !(prefix <= x)
    ensures Grown(n, prefix, regs + [x])
    decreases n
  {
    DatesStay(regs, x, prefix);
    DatedOldPart(PartsOf(n.children), Dates(regs, prefix), Dates(regs + [x], prefix), |regs|, None);
    forall i | 0 <= i < |n.children|
      ensures Grown(n.children[i], prefix + [n.children[i].part], regs + [x])
    {
      assert prefix <= prefix + [n.children[i].part];
      ElsewhereKeepsGrown(n.children[i], prefix + [n.children[i].part], regs, x);
    }
  }

  // A new node, where nothing was registered before.
  lemma NewTreeGrown(part: string, prefix: seq<string>, regs: seq<seq<string>>)
    requires First(regs, prefix) == |regs|
    ensures Grown(NewTree(part), prefix, regs)
  {
    forall p
      ensures Dates(regs, prefix)(p) == |regs|
    {
      LongerIsLater(regs, prefix, prefix + [p]);
    }
  }

  lemma {:induction false} LongerIsLater(regs: seq<seq<string>>, q: seq<string>, longer: seq<string>)
    requires q <= longer
    ensures First(regs, q) <= First(regs, longer) <= |regs|
  {
    if regs != [] {
      LongerIsLater(regs[1..], q, longer);
    }
  }

  lemma OtherChildrenGrown(n: Tree, prefix: seq<string>, regs: seq<seq<string>>, x: seq<string>, i: nat)
    requires Grown(n, prefix, regs) && prefix <= x && i < |n.children|
    requires x == prefix || x[|prefix|] != n.children[i].part
    ensures Grown(n.children[i], prefix + [n.children[i].part], regs + [x])
  {
    var q := prefix + [n.children[i].part];
    assert q[|prefix|] == n.children[i].part;
    ElsewhereKeepsGrown(n.children[i], q, regs, x);
  }

  lemma AppendKeepsGrown(n: Tree, child: Tree, prefix: seq<string>, regs: seq<seq<string>>, x: seq<string>)
    requires Grown(n, prefix, regs) && prefix + [child.part] <= x
    requires child.part !in PartsOf(n.children) && Grown(child, prefix + [child.part], regs + [x])
    ensures Grown(n.(children := n.children + [child]), prefix, regs + [x])
  {
    assert x[|prefix|] == (prefix + [child.part])[|prefix|] && prefix <= prefix + [child.part];
    DatesMove(regs, x, prefix);
    DatedNewPart(PartsOf(n.children), Dates(regs, prefix), Dates(regs + [x], prefix), |regs|, child.part);
    var m := n.(children := n.children + [child]);
    assert PartsOf(m.children) == PartsOf(n.children) + [child.part];
    forall i | 0 <= i < |m.children|
      ensures Grown(m.children[i], prefix + [m.children[i].part], regs + [x])
    {
      if i < |n.children| {
        assert PartsOf(n.children)[i] == n.children[i].part;
        OtherChildrenGrown(n, prefix, regs, x, i);
      }
    }
  }

  lemma ReplaceKeepsGrown(n: Tree, k: nat, child: Tree, prefix: seq<string>, regs: seq<seq<string>>, x: seq<string>)
    requires Unique(n) && Grown(n, prefix, regs) && k < |n.children| && child.part == n.children[k].part
    requires prefix + [child.part] <= x && Grown(child, prefix + [child.part], regs + [x])
    ensures Grown(n.(children := n.children[k := child]), prefix, regs + [x])
  {
    assert x[|prefix|] == (prefix + [child.part])[|prefix|] && prefix <= prefix + [child.part];
    var m, ps := n.(children := n.children[k := child]), PartsOf(n.children);
    assert PartsOf(m.children) == ps && ps[k] == child.part;
    DatesMove(regs, x, prefix);
    DatedOldPart(ps, Dates(regs, prefix), Dates(regs + [x], prefix), |regs|, Some(child.part));
    forall i | 0 <= i < |m.children|
      ensures Grown(m.children[i], prefix + [m.children[i].part], regs + [x])
    {
      if i != k {
        OtherChildrenGrown(n, prefix, regs, x, i);
      }
    }
  }

  lemma RepatternKeepsGrown(n: Tree, pattern: string, prefix: seq<string>, regs: seq<seq<string>>)
    requires Grown(n, prefix, regs)
    ensures Grown(n.(pattern := pattern), prefix, regs + [prefix])
  {
    DatesMove(regs, prefix, prefix);
    DatedOldPart(PartsOf(n.children), Dates(regs, prefix), Dates(regs + [prefix], prefix), |regs|, None);
    forall i | 0 <= i < |n.children|
      ensures Grown(n.children[i], prefix + [n.children[i].part], regs + [prefix])
    {
      OtherChildrenGrown(n, prefix, regs, prefix, i);
    }
  }

  lemma {:induction false} InsertKeepsGrown(n: Tree, pattern: string, parts: seq<string>, prefix: seq<string>,
                                            regs: seq<seq<string>>)
    requires Unique(n) && Grown(n, prefix, regs) && Unabsorbed(n, parts)
    ensures Grown(Insert(n, pattern, parts), prefix, regs + [prefix + parts])
    decreases |parts|
  {
    var x := prefix + parts;
    if parts == [] {
      assert x == prefix;
      RepatternKeepsGrown(n, pattern, prefix, regs);
    } else {
      var q, rest := prefix + [parts[0]], parts[1..];
      assert q + rest == x;
      match MatchChild(n.children, parts[0])
      case None =>
        InsertKeepsUnique(NewTree(parts[0]), pattern, rest);
        assert parts[0] !in PartsOf(n.children);
        assert Dates(regs, prefix)(parts[0]) == First(regs, q);
        NewTreeGrown(parts[0], q, regs);
        InsertKeepsGrown(NewTree(parts[0]), pattern, rest, q, regs);
        AppendKeepsGrown(n, Insert(NewTree(parts[0]), pattern, rest), prefix, regs, x);
      case Some(i) =>
        InsertKeepsUnique(n.children[i], pattern, rest);
        InsertKeepsGrown(n.children[i], pattern, rest, q, regs);
        ReplaceKeepsGrown(n, i, Insert(n.children[i], pattern, rest), prefix, regs, x);
    }
  }

  // The order of two paths by the registrations alone: at the first place where
  // they differ, the one whose part was registered there first.
  ghost predicate Earlier(regs: seq<seq<string>>, prefix: seq<string>, a: seq<string>, b: seq<string>)
    decreases |a|
  {
    if a == [] || b == [] then a == [] && b != []
    else if a[0] == b[0] then Earlier(regs, prefix + [a[0]], a[1..], b[1..])
    else First(regs, prefix + [a[0]]) < First(regs, prefix + [b[0]])
  }

  lemma {:induction false} BeforeIsEarlier(n: Tree, prefix: seq<string>, regs: seq<seq<string>>, a: seq<string>,
                                           b: seq<string>)
    requires Grown(n, prefix, regs) && Before(n, a, b)
    ensures Earlier(regs, prefix, a, b)
    decreases |a|
  {
    if a != [] && b != [] {
      var i, j := ChildAt(n.children, a[0]).value, ChildAt(n.children, b[0]).value;
      if i == j {
        BeforeIsEarlier(n.children[i], prefix + [a[0]], regs, a[1..], b[1..]);
      } else {
        var f := Dates(regs, prefix);
        assert f(PartsOf(n.children)[i]) < f(PartsOf(n.children)[j]);
      }
    }
  }
}
