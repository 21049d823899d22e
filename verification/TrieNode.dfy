// The route trie as the source keeps it, with nodes that insertion updates in place.
module TrieNode {
  import opened Options
  import opened Trie

  class Node {
    const part: string
    const isWild: bool
    var pattern: string
    var children: seq<Node>
    ghost var tree: Tree          // the trie below this node, as a value,
    ghost var repr: set<object>   // and all its nodes

    ghost predicate Valid()
      reads this, repr
      decreases repr
    {
      && this in repr
      && tree == Tree(pattern, part, isWild, tree.children) && |tree.children| == |children|
      && (forall i :: 0 <= i < |children| ==>
            && children[i] in repr && children[i].repr <= repr && this !in children[i].repr
            && children[i].Valid() && children[i].tree == tree.children[i])
      && (forall i, j :: 0 <= i < j < |children| ==> children[i].repr !! children[j].repr)
    }

    constructor (part: string)
      ensures Valid() && tree == NewTree(part) && fresh(repr)
    {
      this.part, isWild := part, part != "" && (part[0] == ':' || part[0] == '*');
      pattern, children := "", [];
      tree, repr := NewTree(part), {this};
    }

    method MatchChild(part: string) returns (child: Node?, ghost i: nat)
      requires Valid()
      ensures child == null <==> Trie.MatchChild(tree.children, part).None?
      ensures child != null ==>
        i < |children| && child == children[i] && Trie.MatchChild(tree.children, part) == Some(i)
    {
      for k := 0 to |children|
        invariant forall j :: 0 <= j < k ==> !Accepts(tree.children[j], part)
      {
        if children[k].part == part || children[k].isWild {
          return children[k], k;
        }
      }
      return null, 0;
    }

    method Insert(pattern: string, parts: seq<string>, height: nat)
      requires Valid() && height <= |parts|
      modifies repr
      decreases |parts| - height, 0
      ensures Valid() && tree == Trie.Insert(old(tree), pattern, parts[height..])
      ensures fresh(repr - old(repr))
    {
      if |parts| == height {
        this.pattern := pattern;
        tree := tree.(pattern := pattern);
        return;
      }
      var part := parts[height];
      var child, i := MatchChild(part);
      if child == null {
        child := Append(part);
        i := |children| - 1;
      }
      InsertBelow(child, i, pattern, parts, height + 1);
    }

    method Append(part: string) returns (child: Node)
      requires Valid()
      modifies this
      ensures Valid() && fresh(repr - old(repr)) && children == old(children) + [child]
      ensures tree == old(tree).(children := old(tree.children) + [NewTree(part)])
    {
      child := new Node(part);
      children := children + [child];
      tree := tree.(children := tree.children + [child.tree]);
      repr := repr + child.repr;
    }

    // child.insert, and what it means for this node.
    method InsertBelow(child: Node, ghost i: nat, pattern: string, parts: seq<string>, height: nat)
      requires Valid() && i < |children| && child == children[i] && height <= |parts|
      modifies repr
      decreases |parts| - height, 1
      ensures Valid() && fresh(repr - old(repr))
      ensures var child' := Trie.Insert(old(tree.children[i]), pattern, parts[height..]);
        tree == old(tree).(children := old(tree.children)[i := child'])
    {
      child.Insert(pattern, parts, height);
      tree := tree.(children := tree.children[i := child.tree]);
      repr := repr + child.repr;
    }

    method MatchChildren(part: string) returns (nodes: seq<Node>)
      requires Valid()
      ensures forall n :: n in nodes ==> n in children
      ensures Trees(nodes) == Trie.MatchChildren(tree.children, part)
    {
      nodes := [];
      for i := 0 to |children|
        invariant forall n :: n in nodes ==> n in children
        invariant Trees(nodes) + Trie.MatchChildren(tree.children[i..], part) == Trie.MatchChildren(tree.children, part)
      {
        var child := children[i];
        OneMore(nodes, child);
        assert tree.children[i..][1..] == tree.children[i + 1..];
        if child.part == part || child.isWild {
          nodes := nodes + [child];
        }
      }
    }

    method Search(parts: seq<string>, height: nat) returns (r: Node?)
      requires Valid() && height <= |parts|
      decreases |parts| - height
      ensures r == null <==> Trie.Search(tree, parts[height..]).None?
      ensures r != null ==> r.Valid() && r.repr <= repr && Trie.Search(tree, parts[height..]) == Some(r.tree)
    {
      if |parts| == height || (part != "" && part[0] == '*') {
        if pattern == "" {
          return null;
        }
        return this;
      }
      var nodes := MatchChildren(parts[height]);
      ghost var trees, rest := Trees(nodes), parts[height + 1..];
      assert parts[height..][1..] == rest;
      for i := 0 to |nodes|
        invariant SearchFirst(trees[i..], rest) == SearchFirst(trees, rest)
      {
        assert nodes[i] in children && trees[i..][0] == nodes[i].tree && trees[i..][1..] == trees[i + 1..];
        var result := nodes[i].Search(parts, height + 1);
        if result != null {
          return result;
        }
      }
      return null;
    }

    method Travel(list: seq<Node>) returns (list': seq<Node>)
      requires Valid()
      decreases repr
      ensures list <= list' && Trees(list') == Trees(list) + Trie.Travel(tree)
      ensures forall n :: n in list' ==> n in list || (n.Valid() && n.repr <= repr)
    {
      list' := list;
      OneMore(list, this);
      if pattern != "" {
        list' := list' + [this];
      }
      assert tree.children[0..] == tree.children;
      for i := 0 to |children|
        invariant list <= list'
        invariant Trees(list') + TravelAll(tree.children[i..]) == Trees(list) + Trie.Travel(tree)
        invariant forall n :: n in list' ==> n in list || (n.Valid() && n.repr <= repr)
      {
        TravelStep(Trees(list'), tree.children, i);
        list' := children[i].Travel(list');
      }
    }
  }

  ghost function Trees(nodes: seq<Node>): seq<Tree>
    reads nodes
  {
    seq(|nodes|, i requires 0 <= i < |nodes| reads nodes => nodes[i].tree)
  }

  lemma TravelStep(before: seq<Tree>, ts: seq<Tree>, i: nat)
    requires i < |ts|
    ensures before + TravelAll(ts[i..]) == before + Trie.Travel(ts[i]) + TravelAll(ts[i + 1..])
  {
    assert ts[i..][1..] == ts[i + 1..];
  }

  lemma OneMore(nodes: seq<Node>, n: Node)
    ensures Trees(nodes + [n]) == Trees(nodes) + [n.tree]
  {
  }
}
