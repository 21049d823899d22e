// The part of container/list that the cache uses: a ring through a sentinel.
// An element is a reference into the list's own memory, so the pointer fields
// `next` and `prev` are maps and a store through a pointer is a map update.
module LinkedList {

  type Ref = nat

  const ROOT: Ref := 0

  // The element before position i of the ring; position 0 is the front.
  ghost function Before(nodes: seq<Ref>, i: nat): Ref
    requires i <= |nodes|
  {
    if i == 0 then ROOT else nodes[i - 1]
  }

  ghost function At(nodes: seq<Ref>, i: nat): Ref
    requires i <= |nodes|
  {
    if i == |nodes| then ROOT else nodes[i]
  }

  // The pointers run through `nodes` in both directions, from ROOT to ROOT.
  ghost predicate Ring(nodes: seq<Ref>, next: map<Ref, Ref>, prev: map<Ref, Ref>) {
    && ROOT !in nodes
    && (forall i :: 0 <= i <= |nodes| ==> Linked(nodes, next, prev, i))
  }

  ghost predicate Linked(nodes: seq<Ref>, next: map<Ref, Ref>, prev: map<Ref, Ref>, i: nat)
    requires i <= |nodes|
  {
    var a, b := Before(nodes, i), At(nodes, i);
    a in next && b in prev && next[a] == b && prev[b] == a
  }

  ghost predicate NoRepeats(nodes: seq<Ref>) {
    forall i, j :: 0 <= i < j < |nodes| ==> nodes[i] != nodes[j]
  }

  // Going back from two places with one element would lead to ROOT inside the ring.
  lemma {:induction false} RingHasNoRepeat(nodes: seq<Ref>, next: map<Ref, Ref>, prev: map<Ref, Ref>, i: nat, j: nat)
    requires Ring(nodes, next, prev) && i < j < |nodes|
    ensures nodes[i] != nodes[j]
  {
    assert Linked(nodes, next, prev, i) && Linked(nodes, next, prev, j);
    if i > 0 {
      RingHasNoRepeat(nodes, next, prev, i - 1, j - 1);
    }
  }

  lemma RingHasNoRepeats(nodes: seq<Ref>, next: map<Ref, Ref>, prev: map<Ref, Ref>)
    requires Ring(nodes, next, prev)
    ensures NoRepeats(nodes)
  {
    forall i, j | 0 <= i < j < |nodes|
      ensures nodes[i] != nodes[j]
    {
      RingHasNoRepeat(nodes, next, prev, i, j);
    }
  }

  ghost function DropAt<T>(s: seq<T>, i: nat): seq<T>
    requires i < |s|
  {
    s[..i] + s[i + 1..]
  }

  lemma RingDrop(nodes: seq<Ref>, next: map<Ref, Ref>, prev: map<Ref, Ref>, i: nat)
    requires Ring(nodes, next, prev) && i < |nodes|
    ensures var e := nodes[i];
      && e in next && e in prev && e !in DropAt(nodes, i)
      && Ring(DropAt(nodes, i), next[prev[e] := next[e]], prev[next[e] := prev[e]])
  {
    var e := nodes[i];
    RingHasNoRepeats(nodes, next, prev);
    assert Linked(nodes, next, prev, i) && Linked(nodes, next, prev, i + 1);
    var rest, next', prev' := DropAt(nodes, i), next[prev[e] := next[e]], prev[next[e] := prev[e]];
    forall j | 0 <= j <= |rest|
      ensures Linked(rest, next', prev', j)
    {
      assert Linked(nodes, next, prev, if j < i then j else j + 1);
    }
  }

  lemma RingPush(nodes: seq<Ref>, next: map<Ref, Ref>, prev: map<Ref, Ref>, e: Ref)
    requires Ring(nodes, next, prev) && e !in nodes && e != ROOT
    ensures ROOT in next
    ensures Ring([e] + nodes, next[e := next[ROOT]][ROOT := e], prev[e := ROOT][next[ROOT] := e])
  {
    RingHasNoRepeats(nodes, next, prev);
    assert Linked(nodes, next, prev, 0);
    var all, next', prev' := [e] + nodes, next[e := next[ROOT]][ROOT := e], prev[e := ROOT][next[ROOT] := e];
    forall j | 0 <= j <= |all|
      ensures Linked(all, next', prev', j)
    {
      if j > 1 {
        assert Linked(nodes, next, prev, j - 1);
      }
    }
  }

  lemma RingForget(nodes: seq<Ref>, next: map<Ref, Ref>, prev: map<Ref, Ref>, e: Ref)
    requires Ring(nodes, next, prev) && e !in nodes && e != ROOT
    ensures Ring(nodes, next - {e}, prev - {e})
  {
    forall j | 0 <= j <= |nodes|
      ensures Linked(nodes, next - {e}, prev - {e}, j)
    {
      assert Linked(nodes, next, prev, j);
    }
  }

  class List<T> {
    var next: map<Ref, Ref>
    var prev: map<Ref, Ref>
    var value: map<Ref, T>
    var len: nat
    var unused: Ref        // no element has this reference or a greater one
    ghost var nodes: seq<Ref>

    ghost predicate Valid()
      reads this
    {
      && Ring(nodes, next, prev)
      && len == |nodes|
      && (forall i :: 0 <= i < |nodes| ==> nodes[i] in value && nodes[i] < unused)
      && ROOT < unused
    }

    // What the elements hold, front to back.
    ghost function Contents(): (s: seq<T>)
      requires Valid()
      reads this
      ensures |s| == |nodes|
    {
      Values(nodes, value)
    }

    constructor ()
      ensures Valid() && nodes == []
    {
      next, prev, value := map[ROOT := ROOT], map[ROOT := ROOT], map[];
      len, unused := 0, 1;
      nodes := [];
    }

    method Back() returns (e: Ref, ok: bool)
      requires Valid()
      ensures ok <==> nodes != []
      ensures ok ==> e == nodes[|nodes| - 1]
    {
      if len == 0 {
        return ROOT, false;
      }
      assert Linked(nodes, next, prev, |nodes|);
      return prev[ROOT], true;
    }

    method PushFront(v: T) returns (e: Ref)
      requires Valid()
      modifies this
      ensures Valid() && e == old(unused) && nodes == [e] + old(nodes)
      ensures value == old(value)[e := v]
    {
      e := unused;
      unused := unused + 1;
      value := value[e := v];
      InsertFront(e);
    }

    method Store(e: Ref, v: T)
      requires Valid() && e in nodes
      modifies this`value
      ensures Valid() && value == old(value)[e := v]
    {
      value := value[e := v];
    }

    // The neighbours of an element come to point at each other.
    method Unlink(e: Ref, ghost i: nat)
      requires Valid() && i < |nodes| && nodes[i] == e
      modifies this
      ensures Valid() && nodes == DropAt(old(nodes), i) && value == old(value) && unused == old(unused)
      ensures e !in nodes
    {
      RingDrop(nodes, next, prev, i);
      next, prev := next[prev[e] := next[e]], prev[next[e] := prev[e]];
      len := len - 1;
      nodes := DropAt(nodes, i);
    }

    // A removed element loses its own pointers.
    method Remove(e: Ref, ghost i: nat)
      requires Valid() && i < |nodes| && nodes[i] == e
      modifies this
      ensures Valid() && nodes == DropAt(old(nodes), i) && value == old(value) && unused == old(unused)
    {
      Unlink(e, i);
      RingForget(nodes, next, prev, e);
      next, prev := next - {e}, prev - {e};
    }

    method MoveToFront(e: Ref, ghost i: nat)
      requires Valid() && i < |nodes| && nodes[i] == e
      modifies this
      ensures Valid() && nodes == [e] + DropAt(old(nodes), i) && value == old(value) && unused == old(unused)
    {
      assert Linked(nodes, next, prev, 0);
      if next[ROOT] == e {
        RingHasNoRepeats(nodes, next, prev);
        assert i == 0;
        assert nodes == [e] + DropAt(nodes, 0);
        return;
      }
      Unlink(e, i);
      InsertFront(e);
    }

    method InsertFront(e: Ref)
      requires Ring(nodes, next, prev) && e !in nodes && e != ROOT && e in value && e < unused
      requires len == |nodes| && ROOT < unused
      requires forall i :: 0 <= i < |nodes| ==> nodes[i] in value && nodes[i] < unused
      modifies this
      ensures Valid() && nodes == [e] + old(nodes) && value == old(value) && unused == old(unused)
    {
      RingPush(nodes, next, prev, e);
      next, prev := next[e := next[ROOT]][ROOT := e], prev[e := ROOT][next[ROOT] := e];
      len := len + 1;
      nodes := [e] + nodes;
    }
  }

  ghost function Values<T>(nodes: seq<Ref>, value: map<Ref, T>): (s: seq<T>)
    requires forall i :: 0 <= i < |nodes| ==> nodes[i] in value
    ensures |s| == |nodes|
  {
    seq(|nodes|, i requires 0 <= i < |nodes| => value[nodes[i]])
  }
}
