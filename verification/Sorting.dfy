// Contracts for the two routines of Go's sort package that the sources rely on.
module Sorting {

  ghost predicate Sorted(s: seq<int>) {
    forall i, j :: 0 <= i < j < |s| ==> s[i] <= s[j]
  }

  // sort.Search: the least index at which a monotone predicate holds, or n.
  method Search(n: nat, f: nat -> bool) returns (i: nat)
    requires forall a, b :: 0 <= a <= b < n && f(a) ==> f(b)
    ensures i <= n
    ensures forall k :: 0 <= k < i ==> !f(k)
    ensures forall k :: i <= k < n ==> f(k)
  {
    i := 0;
    var j := n;
    while i < j
      invariant 0 <= i <= j <= n
      invariant forall k :: 0 <= k < i ==> !f(k)
      invariant forall k :: j <= k < n ==> f(k)
    {
      var h := (i + j) / 2;
      if !f(h) {
        i := h + 1;
      } else {
        j := h;
      }
    }
  }

  // sort.Search on sorted integers with the predicate s[i] >= x.
  method SearchInts(s: seq<int>, x: int) returns (i: nat)
    requires Sorted(s)
    ensures i <= |s|
    ensures forall k :: 0 <= k < |s| ==> (s[k] >= x <==> k >= i)
  {
    var atLeast := (k: nat) => k < |s| && s[k] >= x;
    i := Search(|s|, atLeast);
    forall k | 0 <= k < |s|
      ensures s[k] >= x <==> k >= i
    {
      assert atLeast(k) <==> s[k] >= x;
    }
  }

  lemma InsertSorted(s: seq<int>, x: int, i: nat)
    requires Sorted(s) && i <= |s|
    requires forall k :: 0 <= k < |s| ==> (s[k] >= x <==> k >= i)
    ensures Sorted(s[..i] + [x] + s[i..])
  {
    var t := s[..i] + [x] + s[i..];
    assert forall k :: 0 <= k < |t| ==> t[k] == if k < i then s[k] else if k == i then x else s[k - 1];
  }

  // sort.Ints
  method Ints(s: seq<int>) returns (r: seq<int>)
    ensures Sorted(r) && multiset(r) == multiset(s)
  {
    r := [];
    for n := 0 to |s|
      invariant Sorted(r) && multiset(r) == multiset(s[..n])
    {
      var i := SearchInts(r, s[n]);
      InsertSorted(r, s[n], i);
      assert r == r[..i] + r[i..] && s[..n + 1] == s[..n] + [s[n]];
      r := r[..i] + [s[n]] + r[i..];
    }
    assert s[..|s|] == s;
  }
}
