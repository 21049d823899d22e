// Route groups and the serving of one request.
module Engine {
  import opened Options
  import opened Context
  import R = Router
  import opened Trie
  import opened Paths

  // A group is known by its place in the engine's list.
  datatype RouterGroup = RouterGroup(prefix: string, middlewares: seq<Handler>, parent: Option<nat>)

  const NOT_FOUND := Script([Emit(404)])

  // The middlewares of all groups whose prefix the path has, in the order of the groups.
  function Collected(groups: seq<RouterGroup>, path: string): seq<Handler> {
    if groups == [] then []
    else
      var last := groups[|groups| - 1];
      Collected(groups[..|groups| - 1], path) + if last.prefix <= path then last.middlewares else []
  }

  // The first group is the engine's own; every other was made from an earlier
  // one, whose prefix it extends.
  ghost predicate GroupsOk(groups: seq<RouterGroup>) {
    && groups != [] && groups[0].prefix == "" && groups[0].parent == None
    && forall g :: 1 <= g < |groups| ==>
         && groups[g].parent.Some? && groups[g].parent.value < g
         && groups[groups[g].parent.value].prefix <= groups[g].prefix
  }

  // a is g or one of the groups that g was made from.
  predicate Ancestor(groups: seq<RouterGroup>, a: nat, g: nat)
    decreases g
  {
    a == g ||
    (g < |groups| && groups[g].parent.Some? && groups[g].parent.value < g &&
     Ancestor(groups, a, groups[g].parent.value))
  }

  class Engine {
    const router: R.Router
    var groups: seq<RouterGroup>

    ghost predicate Valid()
      reads this, router
    {
      router.Valid() && GroupsOk(groups)
    }

    constructor ()
      ensures Valid() && fresh(router) && groups == [RouterGroup("", [], None)]
    {
      var r := new R.Router();
      router := r;
      groups := [RouterGroup("", [], None)];
    }

    method Group(g: nat, prefix: string) returns (n: nat)
      requires Valid() && g < |groups|
      modifies this
      ensures Valid() && n == |old(groups)|
      ensures groups == old(groups) + [RouterGroup(old(groups)[g].prefix + prefix, [], Some(g))]
    {
      n := |groups|;
      groups := groups + [RouterGroup(groups[g].prefix + prefix, [], Some(g))];
    }

    method Use(g: nat, middlewares: seq<Handler>)
      requires Valid() && g < |groups|
      modifies this
      ensures Valid()
      ensures groups == old(groups)[g := old(groups)[g].(middlewares := old(groups)[g].middlewares + middlewares)]
    {
      groups := groups[g := groups[g].(middlewares := groups[g].middlewares + middlewares)];
    }

    method AddRoute(g: nat, verb: string, comp: string, handler: Handler)
      requires Valid() && g < |groups|
      modifies router
      ensures Valid() && groups == old(groups)
      ensures router.handlers == old(router.handlers)[R.Key(verb, groups[g].prefix + comp) := handler]
      ensures router.registered == R.Registered(old(router.registered), verb, groups[g].prefix + comp)
      ensures router.log == old(router.log) + [R.Registration(verb, groups[g].prefix + comp, handler)]
    {
      router.AddRoute(verb, groups[g].prefix + comp, handler);
    }

    // The chain that a request runs through.
    ghost function Chain(verb: string, path: string): seq<Handler>
      requires Valid()
      reads this, router
    {
      Collected(groups, path) + [RouteHandler(verb, path)]
    }

    ghost function RouteHandler(verb: string, path: string): Handler
      requires Valid()
      reads this, router
    {
      if verb in router.roots && Search(router.roots[verb], ParsePattern(path)).Some? then
        R.FoundIsRegistered(router.registered[verb], ParsePattern(path));
        var pattern := Search(router.roots[verb], ParsePattern(path)).value.pattern;
        R.HandlerIsLast(router.log, verb, pattern);
        router.handlers[R.Key(verb, pattern)]
      else NOT_FOUND
    }

    method ServeHTTP(verb: string, path: string) returns (log: seq<Event>, panicked: bool)
      requires Valid()
      ensures Trace(log, panicked) == Nested(Chain(verb, path), 0)
    {
      var middlewares := [];
      for g := 0 to |groups|
        invariant middlewares == Collected(groups[..g], path)
      {
        assert groups[..g + 1][..g] == groups[..g];
        if groups[g].prefix <= path {
          middlewares := middlewares + groups[g].middlewares;
        }
      }
      assert groups[..|groups|] == groups;
      var handler, params := router.Handle(verb, path);
      var chain := middlewares + [if handler.Some? then handler.value else NOT_FOUND];
      var c := new Context(chain);
      panicked := c.Next();
      log := c.log;
    }
  }

  lemma {:induction false} AncestorMatches(groups: seq<RouterGroup>, a: nat, g: nat, path: string)
    requires GroupsOk(groups) && g < |groups| && Ancestor(groups, a, g) && groups[g].prefix <= path
    ensures a <= g && groups[a].prefix <= path
    decreases g
  {
    if a != g {
      AncestorMatches(groups, a, groups[g].parent.value, path);
    }
  }

  lemma {:induction false} CollectedSplit(groups: seq<RouterGroup>, g: nat, path: string)
    requires g < |groups| && groups[g].prefix <= path
    ensures Collected(groups[..g], path) + groups[g].middlewares <= Collected(groups, path)
    decreases |groups|
  {
    var front := groups[..|groups| - 1];
    if g < |groups| - 1 {
      CollectedSplit(front, g, path);
      assert front[..g] == groups[..g];
    }
  }

  // A request that reaches a group runs the middlewares of all groups above it,
  // and runs them first: what comes before the group's own middlewares contains,
  // in one piece, those of each ancestor.
  lemma AncestorsComeFirst(groups: seq<RouterGroup>, a: nat, g: nat, path: string)
    requires GroupsOk(groups) && a < g < |groups| && Ancestor(groups, a, g) && groups[g].prefix <= path
    ensures var above := Collected(groups[..a], path) + groups[a].middlewares;
      && above <= Collected(groups[..g], path)
      && Collected(groups[..g], path) + groups[g].middlewares <= Collected(groups, path)
  {
    AncestorMatches(groups, a, g, path);
    CollectedSplit(groups, g, path);
    CollectedSplit(groups[..g], a, path);
    assert groups[..g][..a] == groups[..a];
  }

  // Nothing else is run: every middleware comes from a group whose prefix the path has.
  lemma {:induction false} CollectedOnlyMatching(groups: seq<RouterGroup>, path: string)
    ensures forall h :: h in Collected(groups, path) ==> FromMatching(groups, path, h)
    decreases |groups|
  {
    if groups != [] {
      var front, last := groups[..|groups| - 1], groups[|groups| - 1];
      CollectedOnlyMatching(front, path);
      forall h | h in Collected(groups, path)
        ensures FromMatching(groups, path, h)
      {
        if h in Collected(front, path) {
          var g :| 0 <= g < |front| && front[g].prefix <= path && h in front[g].middlewares;
          assert groups[g] == front[g];
        } else {
          assert h in last.middlewares;
        }
      }
    }
  }

  ghost predicate FromMatching(groups: seq<RouterGroup>, path: string, h: Handler) {
    exists g :: 0 <= g < |groups| && groups[g].prefix <= path && h in groups[g].middlewares
  }
}
