// The parameters that a route takes from a path.
module Params {
  import opened Trie
  import opened Paths
  import opened RouteTable

  type Values = map<string, string>

  // Parameters of the parts from index i on, added to `params`.
  function Collect(parts: seq<string>, sp: seq<string>, i: nat, params: Values): Values
    requires i <= |parts| <= |sp|
    decreases |parts| - i
  {
    if i == |parts| then params
    else
      var part := parts[i];
      if part != "" && part[0] == ':' then Collect(parts, sp, i + 1, params[part[1..] := sp[i]])
      else if StarPart(part) && |part| > 1 then params[part[1..] := Join(sp[i..])]
      else Collect(parts, sp, i + 1, params)
  }

  // Putting the parameters back into the pattern.
  function Restore(parts: seq<string>, params: Values): seq<string> {
    if parts == [] then []
    else
      var part := parts[0];
      (if WildPart(part) && part[1..] in params then
         (if StarPart(part) then Split(params[part[1..]]) else [params[part[1..]]])
       else [part]) + Restore(parts[1..], params)
  }

  ghost predicate DistinctNames(parts: seq<string>) {
    forall i, j :: 0 <= i < j < |parts| && WildPart(parts[i]) && WildPart(parts[j]) ==> parts[i][1..] != parts[j][1..]
  }

  ghost predicate StarNamed(parts: seq<string>) {
    forall p :: p in parts ==> p != "*"
  }

  // What a wild part at index i stands for.
  function Taken(parts: seq<string>, sp: seq<string>, i: nat): string
    requires i < |parts| <= |sp|
  {
    if StarPart(parts[i]) then Join(sp[i..]) else sp[i]
  }

  lemma {:induction false} CollectHas(parts: seq<string>, sp: seq<string>, k: nat, params: Values, i: nat)
    requires Clean(parts) && DistinctNames(parts) && StarNamed(parts) && k <= |parts| <= |sp|
    requires i < |parts| && WildPart(parts[i])
    requires i < k ==> parts[i][1..] in params && params[parts[i][1..]] == Taken(parts, sp, i)
    ensures parts[i][1..] in Collect(parts, sp, k, params)
    ensures Collect(parts, sp, k, params)[parts[i][1..]] == Taken(parts, sp, i)
    decreases |parts| - k
  {
    if k < |parts| {
      var part := parts[k];
      assert part in parts;
      if part[0] == ':' {
        CollectHas(parts, sp, k + 1, params[part[1..] := sp[k]], i);
      } else if StarPart(part) {
        assert k == |parts| - 1 && |part| > 1;
      } else {
        CollectHas(parts, sp, k + 1, params, i);
      }
    }
  }

  lemma {:induction false} MatchesLength(path: seq<string>, parts: seq<string>)
    requires Matches(path, parts) && StarLast(path)
    ensures |path| <= |parts|
  {
    if path != [] && !StarPart(path[0]) {
      MatchesLength(path[1..], parts[1..]);
    }
  }

  // From index i on, restoring gives the rest of the path.
  lemma {:induction false} RestoreFrom(parts: seq<string>, sp: seq<string>, i: nat, params: Values)
    requires Clean(parts) && StarNamed(parts) && i <= |parts| <= |sp| && (forall p :: p in sp ==> '/' !in p)
    requires Matches(parts[i..], sp[i..])
    requires forall j :: i <= j < |parts| && WildPart(parts[j]) ==>
      parts[j][1..] in params && params[parts[j][1..]] == Taken(parts, sp, j)
    ensures Restore(parts[i..], params) == sp[i..]
    decreases |parts| - i
  {
    if i == |parts| {
      assert parts[i..] == [];
    } else {
      assert parts[i..][1..] == parts[i + 1..] && sp[i..][1..] == sp[i + 1..];
      assert sp[i..] == [sp[i]] + sp[i + 1..];
      if StarPart(parts[i]) {
        assert i == |parts| - 1 && parts[i + 1..] == [];
        assert forall p :: p in sp[i..] ==> p in sp;
        SplitJoin(sp[i..]);
      } else {
        RestoreFrom(parts, sp, i + 1, params);
      }
    }
  }

  // A clean pattern with distinct names whose '*', if any, has one gives back
  // every path that it matches.
  lemma RoundTrip(parts: seq<string>, sp: seq<string>)
    requires Clean(parts) && Clean(sp) && DistinctNames(parts) && StarNamed(parts) && Matches(parts, sp)
    ensures |parts| <= |sp| && Restore(parts, Collect(parts, sp, 0, map[])) == sp
  {
    MatchesLength(parts, sp);
    forall i | 0 <= i < |parts| && WildPart(parts[i])
      ensures parts[i][1..] in Collect(parts, sp, 0, map[])
      ensures Collect(parts, sp, 0, map[])[parts[i][1..]] == Taken(parts, sp, i)
    {
      CollectHas(parts, sp, 0, map[], i);
    }
    assert parts[0..] == parts && sp[0..] == sp;
    RestoreFrom(parts, sp, 0, Collect(parts, sp, 0, map[]));
  }

  // A ':' part takes its own part of the path, a '*' part all from its place on ...
  lemma ParamAt(parts: seq<string>, sp: seq<string>, i: nat)
    requires Clean(parts) && DistinctNames(parts) && StarNamed(parts) && i < |parts| <= |sp| && parts[i] != ""
    ensures var params, name := Collect(parts, sp, 0, map[]), parts[i][1..];
      && (parts[i][0] == ':' ==> name in params && params[name] == sp[i])
      && (parts[i][0] == '*' ==> name in params && params[name] == Join(sp[i..]))
  {
    if WildPart(parts[i]) {
      CollectHas(parts, sp, 0, map[], i);
    }
  }

  // ... and nothing else is taken.
  lemma ParamIsNamed(parts: seq<string>, sp: seq<string>, name: string)
    requires |parts| <= |sp| && name in Collect(parts, sp, 0, map[])
    ensures exists i :: 0 <= i < |parts| && (parts[i] == ":" + name || parts[i] == "*" + name)
  {
    CollectedNames(parts, sp, 0, map[], name);
    var i :| 0 <= i < |parts| && WildPart(parts[i]) && parts[i] != "*" && parts[i][1..] == name;
    assert parts[i] == [parts[i][0]] + name;
  }

  // Whatever the parameters, what they give back is matched by the pattern.
  lemma {:induction false} RestoreMatches(parts: seq<string>, params: Values)
    ensures Matches(parts, Restore(parts, params))
  {
    if parts != [] {
      RestoreMatches(parts[1..], params);
      if !StarPart(parts[0]) {
        assert Restore(parts, params)[1..] == Restore(parts[1..], params);
      }
    }
  }

  // ---- which patterns round-trip ----

  // A path that matches, with "b" for the wild part at j and "a" for the others.
  function Sample(parts: seq<string>, j: nat): seq<string> {
    seq(|parts|, k requires 0 <= k < |parts| =>
      if !WildPart(parts[k]) then parts[k] else if k == j then "b" else "a")
  }

  lemma {:induction false} SampleMatches(parts: seq<string>, j: nat, k: nat)
    requires Clean(parts) && k <= |parts|
    ensures Matches(parts[k..], Sample(parts, j)[k..]) && Clean(Sample(parts, j))
    decreases |parts| - k
  {
    var sp := Sample(parts, j);
    forall i | 0 <= i < |parts|
      ensures sp[i] != "" && '/' !in sp[i] && !StarPart(sp[i])
    {
      assert parts[i] in parts;
    }
    if k < |parts| {
      assert parts[k..][1..] == parts[k + 1..] && sp[k..][1..] == sp[k + 1..];
      SampleMatches(parts, j, k + 1);
    }
  }

  // What Restore puts first for a part.
  function Restored(part: string, params: Values): string {
    if WildPart(part) && part[1..] in params then
      (if StarPart(part) then Split(params[part[1..]])[0] else params[part[1..]])
    else part
  }

  lemma {:induction false} RestoreAt(parts: seq<string>, params: Values, k: nat)
    requires k < |parts| && forall i :: 0 <= i < k ==> !StarPart(parts[i])
    ensures k < |Restore(parts, params)| && Restore(parts, params)[k] == Restored(parts[k], params)
  {
    if k > 0 {
      RestoreAt(parts[1..], params, k - 1);
    }
  }

  lemma SameNameClashes(parts: seq<string>, i: nat, j: nat, params: Values)
    requires Clean(parts) && i < j < |parts|
    requires WildPart(parts[i]) && WildPart(parts[j]) && parts[i][1..] == parts[j][1..]
    ensures Restore(parts, params) != Sample(parts, j)
  {
    RestoreAt(parts, params, i);
    RestoreAt(parts, params, j);
    SplitPrefix("a", "");
    assert parts[i] != "a";
  }

  lemma {:induction false} CollectedNames(parts: seq<string>, sp: seq<string>, k: nat, params: Values, name: string)
    requires k <= |parts| <= |sp| && name in Collect(parts, sp, k, params)
    ensures name in params ||
      exists i :: 0 <= i < |parts| && WildPart(parts[i]) && parts[i] != "*" && parts[i][1..] == name
    decreases |parts| - k
  {
    if k < |parts| {
      var part := parts[k];
      if part != "" && part[0] == ':' {
        CollectedNames(parts, sp, k + 1, params[part[1..] := sp[k]], name);
      } else if !(StarPart(part) && |part| > 1) {
        CollectedNames(parts, sp, k + 1, params, name);
      }
    }
  }

  lemma StarHasNoName(part: string)
    requires part == "*"
    ensures StarPart(part) && WildPart(part) && part[1..] == ""
  {
  }

  // Without a parameter "" it comes back as it is.
  lemma StarComesBack(parts: seq<string>, j: nat, params: Values)
    requires j < |parts| && parts[j] == "*" && "" !in params && forall i :: 0 <= i < j ==> !StarPart(parts[i])
    ensures Restore(parts, params) != Sample(parts, j)
  {
    StarHasNoName(parts[j]);
    RestoreAt(parts, params, j);
  }

  lemma UnnamedStarIsLost(parts: seq<string>, j: nat)
    requires Clean(parts) && j < |parts| && parts[j] == "*"
    ensures Restore(parts, Collect(parts, Sample(parts, j), 0, map[])) != Sample(parts, j)
  {
    var sp := Sample(parts, j);
    StarHasNoName(parts[j]);
    if "" in Collect(parts, sp, 0, map[]) {
      var i := EmptyNameAt(parts, sp);
      SameNameClashes(parts, i, j, Collect(parts, sp, 0, map[]));
    } else {
      StarComesBack(parts, j, Collect(parts, sp, 0, map[]));
    }
  }

  lemma EmptyNameAt(parts: seq<string>, sp: seq<string>) returns (i: nat)
    requires |parts| <= |sp| && "" in Collect(parts, sp, 0, map[])
    ensures i < |parts| && WildPart(parts[i]) && parts[i] != "*" && parts[i][1..] == ""
  {
    CollectedNames(parts, sp, 0, map[], "");
    i :| 0 <= i < |parts| && WildPart(parts[i]) && parts[i] != "*" && parts[i][1..] == "";
  }

  // A pattern gives every path back exactly if its names are distinct and its
  // '*' part, if any, has one.
  lemma RoundTripIffNamed(parts: seq<string>)
    requires Clean(parts)
    ensures DistinctNames(parts) && StarNamed(parts) <==>
      forall sp :: Clean(sp) && Matches(parts, sp) ==>
        |parts| <= |sp| && Restore(parts, Collect(parts, sp, 0, map[])) == sp
  {
    if DistinctNames(parts) && StarNamed(parts) {
      forall sp | Clean(sp) && Matches(parts, sp)
        ensures |parts| <= |sp| && Restore(parts, Collect(parts, sp, 0, map[])) == sp
      {
        RoundTrip(parts, sp);
      }
    } else {
      var j := LossyPart(parts);
      SampleMatches(parts, j, 0);
      assert parts[0..] == parts && Sample(parts, j)[0..] == Sample(parts, j);
    }
  }

  lemma LossyPart(parts: seq<string>) returns (j: nat)
    requires Clean(parts) && !(DistinctNames(parts) && StarNamed(parts))
    ensures j < |parts| && Restore(parts, Collect(parts, Sample(parts, j), 0, map[])) != Sample(parts, j)
  {
    if !StarNamed(parts) {
      j :| 0 <= j < |parts| && parts[j] == "*";
      UnnamedStarIsLost(parts, j);
    } else {
      var i, k :| 0 <= i < k < |parts| && WildPart(parts[i]) && WildPart(parts[k]) && parts[i][1..] == parts[k][1..];
      j := k;
      SameNameClashes(parts, i, j, Collect(parts, Sample(parts, j), 0, map[]));
    }
  }
}
