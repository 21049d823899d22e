// The router: one trie per method, and the handlers by method and pattern.
module Router {
  import opened Options
  import opened Trie
  import opened RouteTable
  import opened Paths
  import opened Params
  import Context

  type Handler = Context.Handler

  function Key(verb: string, pattern: string): string {
    verb + "-" + pattern
  }

  // The trie after these registrations, in order.
  function Build(patterns: seq<string>): Tree {
    if patterns == [] then Tree("", "", false, [])
    else
      var last := patterns[|patterns| - 1];
      Insert(Build(patterns[..|patterns| - 1]), last, ParsePattern(last))
  }

  function PartCount(): string -> nat {
    pattern => |ParsePattern(pattern)|
  }

  lemma ParseOfNothing()
    ensures ParsePattern("") == []
  {
    assert Split("") == [""];
    assert Parts([""]) == Parts([""][1..]);
  }

  // Whatever was registered, absorbed or not.
  lemma {:induction false} BuildIsSound(patterns: seq<string>)
    ensures Sound(Build(patterns), 0, PartCount()) && Unique(Build(patterns)) && Build(patterns).part == ""
    decreases |patterns|
  {
    if patterns != [] {
      var front, last := patterns[..|patterns| - 1], patterns[|patterns| - 1];
      BuildIsSound(front);
      ParseIsClean(last);
      ParseOfNothing();
      InsertKeepsUnique(Build(front), last, ParsePattern(last));
      InsertKeepsSound(Build(front), last, ParsePattern(last), 0, PartCount());
    }
  }

  // A stored pattern was registered.
  lemma {:induction false} StoredWasRegistered(patterns: seq<string>, path: seq<string>)
    ensures PatternAt(Build(patterns), path) != "" ==> PatternAt(Build(patterns), path) in patterns
    decreases |patterns|
  {
    if patterns != [] {
      var front, last := patterns[..|patterns| - 1], patterns[|patterns| - 1];
      BuildIsSound(front);
      StoredWasRegistered(front, path);
      InsertWritesLanding(Build(front), last, ParsePattern(last), path);
    }
  }

  lemma FoundIsRegistered(patterns: seq<string>, sp: seq<string>)
    requires Search(Build(patterns), sp).Some?
    ensures var found := Search(Build(patterns), sp).value;
      found.pattern in patterns && found.pattern != "" && |ParsePattern(found.pattern)| <= |sp|
  {
    var root := Build(patterns);
    BuildIsSound(patterns);
    FoundIsWithinPath(root, sp, 0, PartCount());
    SearchIsFirstMatch(root, sp, 0, PartCount());
    FirstMatchIs(Routes(root), sp);
    var r := FirstMatch(Routes(root), sp).value;
    RoutesArePatterns(root, r);
    StoredWasRegistered(patterns, r.path);
  }

  // The patterns of each method, in the order of their registration.
  function Registered(registered: map<string, seq<string>>, verb: string, pattern: string): map<string, seq<string>> {
    registered[verb := (if verb in registered then registered[verb] else []) + [pattern]]
  }

  // One call of addRoute.
  datatype Registration = Registration(verb: string, pattern: string, handler: Handler)

  function HandlersOf(log: seq<Registration>): map<string, Handler> {
    if log == [] then map[]
    else
      var last := log[|log| - 1];
      HandlersOf(log[..|log| - 1])[Key(last.verb, last.pattern) := last.handler]
  }

  // The handler registered last for this method and pattern.
  function LastHandler(log: seq<Registration>, verb: string, pattern: string): Option<Handler> {
    if log == [] then None
    else
      var last := log[|log| - 1];
      if last.verb == verb && last.pattern == pattern then Some(last.handler)
      else LastHandler(log[..|log| - 1], verb, pattern)
  }

  // `log` is where the registered patterns and the handlers come from.
  ghost predicate Logged(log: seq<Registration>, registered: map<string, seq<string>>, handlers: map<string, Handler>) {
    && handlers == HandlersOf(log)
    && forall verb, p :: verb in registered && p in registered[verb] ==> LastHandler(log, verb, p).Some?
  }

  // Each trie is the one that the method's patterns give.
  ghost predicate Built(roots: map<string, Tree>, registered: map<string, seq<string>>) {
    roots.Keys == registered.Keys && forall verb :: verb in roots ==> roots[verb] == Build(registered[verb])
  }

  lemma BuiltOneMore(roots: map<string, Tree>, registered: map<string, seq<string>>, verb: string, pattern: string)
    requires Built(roots, registered)
    ensures var root := if verb in roots then roots[verb] else NewTree("");
      Built(roots[verb := Insert(root, pattern, ParsePattern(pattern))], Registered(registered, verb, pattern))
  {
    var before := if verb in registered then registered[verb] else [];
    assert (before + [pattern])[..|before|] == before;
  }

  lemma SetTwice<V>(m: map<string, V>, k: string, v: V, w: V)
    ensures m[k := v][k := w] == m[k := w]
  {
  }

  lemma LoggedOneMore(log: seq<Registration>, registered: map<string, seq<string>>, handlers: map<string, Handler>,
                      r: Registration)
    requires Logged(log, registered, handlers)
    ensures Logged(log + [r], Registered(registered, r.verb, r.pattern), handlers[Key(r.verb, r.pattern) := r.handler])
  {
    assert (log + [r])[..|log|] == log;
  }

  // Each trie is kept as the value that TrieNode.Node is proved to hold.
  class Router {
    var roots: map<string, Tree>
    var handlers: map<string, Handler>
    ghost var registered: map<string, seq<string>>
    ghost var log: seq<Registration>

    ghost predicate Valid()
      reads this
    {
      Built(roots, registered) && Logged(log, registered, handlers)
    }

    constructor ()
      ensures Valid() && registered == map[] && handlers == map[] && log == []
    {
      roots, handlers, registered, log := map[], map[], map[], [];
    }

    method AddRoute(verb: string, pattern: string, handler: Handler)
      requires Valid()
      modifies this
      ensures Valid() && handlers == old(handlers)[Key(verb, pattern) := handler]
      ensures registered == Registered(old(registered), verb, pattern)
      ensures log == old(log) + [Registration(verb, pattern, handler)]
    {
      var parts := ParsePatternLoop(pattern);
      var key := Key(verb, pattern);
      LoggedOneMore(log, registered, handlers, Registration(verb, pattern, handler));
      BuiltOneMore(roots, registered, verb, pattern);
      SetTwice(roots, verb, NewTree(""), Insert(NewTree(""), pattern, parts));
      if verb !in roots {
        roots := roots[verb := NewTree("")];
      }
      roots := roots[verb := Insert(roots[verb], pattern, parts)];
      handlers := handlers[key := handler];
      registered := Registered(registered, verb, pattern);
      log := log + [Registration(verb, pattern, handler)];
    }

    // No index is ever out of range, whatever was registered.
    method GetRoute(verb: string, path: string) returns (found: Option<Tree>, params: Values)
      requires Valid()
      ensures found == if verb in roots then Search(roots[verb], ParsePattern(path)) else None
      ensures found.Some? ==>
        && verb in registered && found.value.pattern in registered[verb]
        && |ParsePattern(found.value.pattern)| <= |ParsePattern(path)|
        && params == Collect(ParsePattern(found.value.pattern), ParsePattern(path), 0, map[])
    {
      var searchParts := ParsePatternLoop(path);
      params := map[];
      if verb !in roots {
        return None, params;
      }
      found := Search(roots[verb], searchParts);
      if found.Some? {
        FoundIsRegistered(registered[verb], searchParts);
        var parts := ParsePatternLoop(found.value.pattern);
        ParseIsClean(found.value.pattern);
        var index := 0;
        while index < |parts|
          invariant index <= |parts|
          invariant Collect(parts, searchParts, index, params) == Collect(parts, searchParts, 0, map[])
        {
          var part := parts[index];
          assert part in parts;
          if part[0] == ':' {
            params := params[part[1..] := searchParts[index]];
          }
          if part[0] == '*' && |part| > 1 {
            params := params[part[1..] := Join(searchParts[index..])];
            break;
          }
          index := index + 1;
        }
      }
    }

    // The nodes listed are those of registered routes, and of all that are not
    // replaced by a later one if none was absorbed.
    method GetRoutes(verb: string) returns (nodes: seq<Tree>)
      requires Valid()
      ensures nodes == if verb in roots then Travel(roots[verb]) else []
      ensures forall n :: n in nodes ==> verb in registered && n.pattern != "" && n.pattern in registered[verb]
      ensures verb in registered && NoneAbsorbed(registered[verb]) ==>
        forall pattern :: pattern in TreePatterns(nodes) <==> Current(registered[verb], pattern)
    {
      if verb !in roots {
        return [];
      }
      nodes := Travel(roots[verb]);
      ListedIsRegistered(registered[verb]);
      if NoneAbsorbed(registered[verb]) {
        forall pattern
          ensures pattern in TreePatterns(nodes) <==> Current(registered[verb], pattern)
        {
          ListingIsTable(registered[verb], pattern);
        }
      }
    }

    // The handler that handle appends to the chain: None stands for the 404
    // handler. A found route always has one, and it is the one registered last
    // for this method and pattern.
    method Handle(verb: string, path: string) returns (handler: Option<Handler>, params: Values)
      requires Valid()
      ensures handler.Some? <==> verb in roots && Search(roots[verb], ParsePattern(path)).Some?
      ensures handler.Some? ==>
        var pattern := Search(roots[verb], ParsePattern(path)).value.pattern;
        && Key(verb, pattern) in handlers && handler.value == handlers[Key(verb, pattern)]
        && (Plain(log) ==> handler == LastHandler(log, verb, pattern))
    {
      var n;
      n, params := GetRoute(verb, path);
      if n.Some? {
        HandlerIsLast(log, verb, n.value.pattern);
        return Some(handlers[Key(verb, n.value.pattern)]), params;
      }
      return None, params;
    }
  }

  // ---- the router as a flat table ----

  // The last pattern registered for each sequence of parts.
  function TableOf(patterns: seq<string>): Table {
    if patterns == [] then map[]
    else
      var last := patterns[|patterns| - 1];
      TableOf(patterns[..|patterns| - 1])[ParsePattern(last) := last]
  }

  function PartsOfAll(patterns: seq<string>): seq<seq<string>> {
    if patterns == [] then []
    else PartsOfAll(patterns[..|patterns| - 1]) + [ParsePattern(patterns[|patterns| - 1])]
  }

  // No registration was absorbed by a wild sibling.
  ghost predicate NoneAbsorbed(patterns: seq<string>)
    decreases |patterns|
  {
    patterns != [] ==>
      var front, last := patterns[..|patterns| - 1], patterns[|patterns| - 1];
      NoneAbsorbed(front) && Unabsorbed(Build(front), ParsePattern(last))
  }

  lemma {:induction false} TableParses(patterns: seq<string>)
    ensures forall path :: path in TableOf(patterns) ==> ParsePattern(TableOf(patterns)[path]) == path
    decreases |patterns|
  {
    if patterns != [] {
      TableParses(patterns[..|patterns| - 1]);
    }
  }

  // One more registration keeps trie and table the same exactly if it is not absorbed.
  lemma RegistrationKeepsTableIffUnabsorbed(patterns: seq<string>, pattern: string)
    requires Agrees(Build(patterns), TableOf(patterns))
    ensures Agrees(Build(patterns + [pattern]), TableOf(patterns + [pattern])) <==>
            Unabsorbed(Build(patterns), ParsePattern(pattern))
  {
    assert (patterns + [pattern])[..|patterns|] == patterns;
    BuildIsSound(patterns);
    TableParses(patterns);
    ParseOfNothing();
    AgreesIffUnabsorbed(Build(patterns), TableOf(patterns), pattern, ParsePattern(pattern), p => ParsePattern(p));
  }

  lemma {:induction false} BuildIsTable(patterns: seq<string>)
    requires NoneAbsorbed(patterns)
    ensures Agrees(Build(patterns), TableOf(patterns))
    decreases |patterns|
  {
    if patterns != [] {
      var front, last := patterns[..|patterns| - 1], patterns[|patterns| - 1];
      BuildIsTable(front);
      RegistrationKeepsTableIffUnabsorbed(front, last);
      assert front + [last] == patterns;
    }
  }

  lemma {:induction false} BuildIsUnshadowed(patterns: seq<string>)
    ensures Unshadowed(Build(patterns))
    decreases |patterns|
  {
    if patterns != [] {
      var front, last := patterns[..|patterns| - 1], patterns[|patterns| - 1];
      BuildIsUnshadowed(front);
      InsertKeepsUnshadowed(Build(front), last, ParsePattern(last));
    }
  }

  // A path that was absorbed once is absorbed ever after.
  lemma {:induction false} AbsorbedPath(patterns: seq<string>) returns (path: seq<string>)
    requires !NoneAbsorbed(patterns)
    ensures path in TableOf(patterns) && !Unabsorbed(Build(patterns), path)
    decreases |patterns|
  {
    var front, last := patterns[..|patterns| - 1], patterns[|patterns| - 1];
    if NoneAbsorbed(front) {
      path := ParsePattern(last);
    } else {
      path := AbsorbedPath(front);
    }
    InsertKeepsAbsorbed(Build(front), last, ParsePattern(last), path);
  }

  // Trie and table agree after a sequence of registrations if and only if none
  // of these was absorbed: no later one makes up for it.
  lemma TableIffNoneAbsorbed(patterns: seq<string>)
    ensures Agrees(Build(patterns), TableOf(patterns)) <==> NoneAbsorbed(patterns)
  {
    if NoneAbsorbed(patterns) {
      BuildIsTable(patterns);
    } else {
      var path := AbsorbedPath(patterns);
      BuildIsUnshadowed(patterns);
      AbsorbedHasNoPattern(Build(patterns), path);
      TableParses(patterns);
      ParseOfNothing();
    }
  }

  // Siblings stand in the order in which their parts were first registered.
  lemma {:induction false} BuildIsGrown(patterns: seq<string>)
    requires NoneAbsorbed(patterns)
    ensures Grown(Build(patterns), [], PartsOfAll(patterns))
    decreases |patterns|
  {
    if patterns != [] {
      var front, last := patterns[..|patterns| - 1], patterns[|patterns| - 1];
      BuildIsGrown(front);
      BuildIsSound(front);
      assert [] + ParsePattern(last) == ParsePattern(last);
      InsertKeepsGrown(Build(front), last, ParsePattern(last), [], PartsOfAll(front));
    } else {
      NewTreeGrown("", [], []);
    }
  }

  // A route of the table that matches the path.
  ghost predicate Candidate(table: Table, path: seq<string>, sp: seq<string>) {
    path in table && table[path] != "" && Matches(path, sp)
  }

  // Without absorption a lookup is a lookup in the flat table: it fails exactly
  // if no registered pattern matches, and otherwise gives, of those that do,
  // the one whose parts were registered first at the first place where they differ.
  lemma LookupIsTableLookup(patterns: seq<string>, sp: seq<string>)
    requires NoneAbsorbed(patterns)
    ensures var table := TableOf(patterns);
      match Search(Build(patterns), sp)
      case None => forall path :: !Candidate(table, path, sp)
      case Some(n) =>
        var found := ParsePattern(n.pattern);
        && Candidate(table, found, sp) && table[found] == n.pattern
        && forall path :: Candidate(table, path, sp) && path != found ==> Earlier(PartsOfAll(patterns), [], found, path)
  {
    var root, table := Build(patterns), TableOf(patterns);
    BuildIsSound(patterns);
    BuildIsTable(patterns);
    BuildIsGrown(patterns);
    TableParses(patterns);
    SearchIsFirstMatch(root, sp, 0, PartCount());
    FirstMatchIs(Routes(root), sp);
    if FirstMatch(Routes(root), sp).None? {
      forall path
        ensures !Candidate(table, path, sp)
      {
        RoutesArePatterns(root, Route(path, PatternAt(root, path)));
      }
    } else {
      var r := FirstMatch(Routes(root), sp).value;
      RoutesArePatterns(root, r);
      forall path | Candidate(table, path, sp) && path != r.path
        ensures Earlier(PartsOfAll(patterns), [], r.path, path)
      {
        FirstMatchIsBefore(root, sp, path, 0, PartCount());
        BeforeIsEarlier(root, [], PartsOfAll(patterns), r.path, path);
      }
    }
  }

  // The table's route for the parts of this pattern is this pattern.
  ghost predicate Current(patterns: seq<string>, pattern: string) {
    pattern != "" && ParsePattern(pattern) in TableOf(patterns) && TableOf(patterns)[ParsePattern(pattern)] == pattern
  }

  // Whatever is listed was registered, absorbed or not.
  lemma ListedIsRegistered(patterns: seq<string>)
    ensures forall n :: n in Travel(Build(patterns)) ==> n.pattern != "" && n.pattern in patterns
  {
    var root := Build(patterns);
    BuildIsSound(patterns);
    TravelListsRoutes(root);
    forall n | n in Travel(root)
      ensures n.pattern != "" && n.pattern in patterns
    {
      var i :| 0 <= i < |Travel(root)| && Travel(root)[i] == n;
      var r := Routes(root)[i];
      assert TreePatterns(Travel(root))[i] == n.pattern && RoutePatterns(Routes(root))[i] == r.pattern;
      RoutesArePatterns(root, r);
      StoredWasRegistered(patterns, r.path);
    }
  }

  // Without absorption the routes listed for a method are those of its table.
  lemma ListingIsTable(patterns: seq<string>, pattern: string)
    requires NoneAbsorbed(patterns)
    ensures pattern in TreePatterns(Travel(Build(patterns))) <==> Current(patterns, pattern)
  {
    var root := Build(patterns);
    BuildIsSound(patterns);
    BuildIsTable(patterns);
    TableParses(patterns);
    TravelListsRoutes(root);
    var route := Route(ParsePattern(pattern), pattern);
    RoutesArePatterns(root, route);
    if route in Routes(root) {
      var i :| 0 <= i < |Routes(root)| && Routes(root)[i] == route;
      assert RoutePatterns(Routes(root))[i] == pattern;
    }
    if pattern in RoutePatterns(Routes(root)) {
      var i :| 0 <= i < |Routes(root)| && RoutePatterns(Routes(root))[i] == pattern;
      RoutesArePatterns(root, Routes(root)[i]);
    }
  }

  // The parameters of a found route give the path back if and only if the
  // pattern found matches the path, which it need not after an absorption.
  lemma FoundRouteRoundTrips(patterns: seq<string>, path: string)
    requires Search(Build(patterns), ParsePattern(path)).Some?
    requires var parts := ParsePattern(Search(Build(patterns), ParsePattern(path)).value.pattern);
      DistinctNames(parts) && StarNamed(parts)
    ensures var sp := ParsePattern(path); var parts := ParsePattern(Search(Build(patterns), sp).value.pattern);
      |parts| <= |sp| && (Restore(parts, Collect(parts, sp, 0, map[])) == sp <==> Matches(parts, sp))
  {
    var sp := ParsePattern(path);
    FoundIsRegistered(patterns, sp);
    var parts := ParsePattern(Search(Build(patterns), sp).value.pattern);
    ParseIsClean(path);
    ParseIsClean(Search(Build(patterns), sp).value.pattern);
    if Matches(parts, sp) {
      RoundTrip(parts, sp);
    }
    RestoreMatches(parts, Collect(parts, sp, 0, map[]));
  }

  // Without absorption it does.
  lemma UnabsorbedRouteRoundTrips(patterns: seq<string>, path: string)
    requires NoneAbsorbed(patterns) && Search(Build(patterns), ParsePattern(path)).Some?
    requires var parts := ParsePattern(Search(Build(patterns), ParsePattern(path)).value.pattern);
      DistinctNames(parts) && StarNamed(parts)
    ensures var sp := ParsePattern(path); var parts := ParsePattern(Search(Build(patterns), sp).value.pattern);
      |parts| <= |sp| && Restore(parts, Collect(parts, sp, 0, map[])) == sp
  {
    LookupIsTableLookup(patterns, ParsePattern(path));
    FoundRouteRoundTrips(patterns, path);
  }

  lemma ParseOne(part: string)
    requires part != "" && '/' !in part
    ensures ParsePattern("/" + part) == [part]
  {
    SplitPrefix("", part);
    SplitPrefix(part, "");
    assert "" + "/" + part == "/" + part;
    assert Split("/" + part) == ["", part];
    assert ["", part][1..] == [part] && [part][1..] == [] && [part] + [] == [part];
    assert Parts([part]) == [part];
  }

  lemma BuildAbsorbed()
    ensures Build(["/:a"]) == Tree("", "", false, [Tree("/:a", ":a", true, [])])
    ensures Build(["/:a", "/b"]) == Tree("", "", false, [Tree("/b", ":a", true, [])])
    ensures ParsePattern("/b") == ["b"]
  {
    ParseOne(":a");
    ParseOne("b");
    assert "/" + ":a" == "/:a" && "/" + "b" == "/b";
    assert ["/:a", "/b"][..1] == ["/:a"] && ["/:a"][..0] == [];
    assert [":a"][1..] == [] && ["b"][1..] == [];
    var wild := Tree("/:a", ":a", true, []);
    assert MatchChild([wild], "b") == Some(0);
  }

  // Absorption is real: registering "/:a" and then "/b" leaves only "/b", at the
  // place of "/:a", so that "/x" is answered by the route for "/b".
  lemma AbsorptionLosesARoute()
    ensures !NoneAbsorbed(["/:a", "/b"])
    ensures Search(Build(["/:a", "/b"]), ["x"]).Some? && Search(Build(["/:a", "/b"]), ["x"]).value.pattern == "/b"
    ensures !Matches(ParsePattern("/b"), ["x"])
  {
    BuildAbsorbed();
    assert ["/:a", "/b"][..1] == ["/:a"];
    assert ["x"][1..] == [];
    var left := Tree("/b", ":a", true, []);
    assert [left][1..] == [] && MatchChildren([left], "x") == [left];
    assert Search(left, []) == Some(left);
  }

  // ---- handler keys ----

  // Methods have no slash and patterns begin with one.
  ghost predicate Plain(log: seq<Registration>) {
    forall r :: r in log ==> PlainRoute(r.verb, r.pattern)
  }

  ghost predicate PlainRoute(verb: string, pattern: string) {
    '/' !in verb && pattern != "" && pattern[0] == '/'
  }

  // Different plain routes have different keys.
  lemma KeysDiffer(verb: string, pattern: string, verb': string, pattern': string)
    requires PlainRoute(verb, pattern) && PlainRoute(verb', pattern')
    ensures Key(verb, pattern) == Key(verb', pattern') <==> verb == verb' && pattern == pattern'
  {
    var k := Key(verb, pattern);
    FirstSlash(verb, pattern);
    FirstSlash(verb', pattern');
    if k == Key(verb', pattern') {
      assert k[..|verb|] == verb && k[..|verb'|] == verb';
      assert k[|verb| + 1..] == pattern && k[|verb'| + 1..] == pattern';
    }
  }

  // A later registration replaces the handler of the same route and no other's.
  lemma {:induction false} HandlerIsLast(log: seq<Registration>, verb: string, pattern: string)
    requires LastHandler(log, verb, pattern).Some?
    ensures Key(verb, pattern) in HandlersOf(log)
    ensures Plain(log) ==>
      PlainRoute(verb, pattern) && HandlersOf(log)[Key(verb, pattern)] == LastHandler(log, verb, pattern).value
    decreases |log|
  {
    var front, last := log[..|log| - 1], log[|log| - 1];
    assert last in log;
    if last.verb != verb || last.pattern != pattern {
      HandlerIsLast(front, verb, pattern);
      if Plain(log) {
        KeysDiffer(verb, pattern, last.verb, last.pattern);
      }
    }
  }

  lemma FirstSlash(verb: string, pattern: string)
    requires PlainRoute(verb, pattern)
    ensures var k := Key(verb, pattern);
      |verb| + 1 < |k| && k[|verb| + 1] == '/' && forall i :: 0 <= i <= |verb| ==> k[i] != '/'
  {
  }
}
