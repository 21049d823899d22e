// The route trie as a value. A node's place is given by the parts on the way to
// it, and `parts` below is always what is left to consume.
module Trie {
  import opened Options

  datatype Tree = Tree(pattern: string, part: string, isWild: bool, children: seq<Tree>)

  predicate WildPart(part: string) {
    part != "" && (part[0] == ':' || part[0] == '*')
  }

  predicate StarPart(part: string) {
    part != "" && part[0] == '*'
  }

  function NewTree(part: string): Tree {
    Tree("", part, WildPart(part), [])
  }

  predicate Accepts(child: Tree, part: string) {
    child.part == part || child.isWild
  }

  // Index of the first child that accepts the part.
  function MatchChild(children: seq<Tree>, part: string): (r: Option<nat>)
    ensures r.Some? ==> r.value < |children| && Accepts(children[r.value], part)
    ensures r.Some? ==> forall i :: 0 <= i < r.value ==> !Accepts(children[i], part)
    ensures r.None? ==> forall i :: 0 <= i < |children| ==> !Accepts(children[i], part)
  {
    if children == [] then None
    else if Accepts(children[0], part) then Some(0)
    else
      match MatchChild(children[1..], part)
      case None => None
      case Some(i) => Some(i + 1)
  }

  function Insert(n: Tree, pattern: string, parts: seq<string>): Tree
    decreases |parts|
  {
    if parts == [] then n.(pattern := pattern)
    else
      match MatchChild(n.children, parts[0])
      case None => n.(children := n.children + [Insert(NewTree(parts[0]), pattern, parts[1..])])
      case Some(i) => n.(children := n.children[i := Insert(n.children[i], pattern, parts[1..])])
  }

  function MatchChildren(children: seq<Tree>, part: string): seq<Tree> {
    if children == [] then []
    else (if Accepts(children[0], part) then [children[0]] else []) + MatchChildren(children[1..], part)
  }

  function Search(n: Tree, parts: seq<string>): Option<Tree>
    decreases |parts|, 0
  {
    if parts == [] || StarPart(n.part) then (if n.pattern == "" then None else Some(n))
    else SearchFirst(MatchChildren(n.children, parts[0]), parts[1..])
  }

  function SearchFirst(ns: seq<Tree>, parts: seq<string>): Option<Tree>
    decreases |parts|, |ns|
  {
    if ns == [] then None
    else
      var r := Search(ns[0], parts);
      if r.Some? then r else SearchFirst(ns[1..], parts)
  }

  // The nodes with a pattern, in the order of getRoutes.
  function Travel(n: Tree): seq<Tree> {
    (if n.pattern != "" then [n] else []) + TravelAll(n.children)
  }

  function TravelAll(ns: seq<Tree>): seq<Tree> {
    if ns == [] then [] else Travel(ns[0]) + TravelAll(ns[1..])
  }
}
