// The cache as a sequence of entries, most recently used first.
module LruSpec {
  import opened Options

  // Keys and values are byte strings; a character stands for one byte.
  datatype Entry = Entry(key: string, value: string)
  {
    function Cost(): nat { |key| + |value| }
  }

  function Size(es: seq<Entry>): nat {
    if es == [] then 0 else Size(es[..|es| - 1]) + es[|es| - 1].Cost()
  }

  ghost predicate Distinct(es: seq<Entry>) {
    forall i, j :: 0 <= i < j < |es| ==> es[i].key != es[j].key
  }

  function Without(es: seq<Entry>, key: string): seq<Entry> {
    if es == [] then []
    else if es[0].key == key then Without(es[1..], key)
    else [es[0]] + Without(es[1..], key)
  }

  function Find(es: seq<Entry>, key: string): Option<string> {
    if es == [] then None else if es[0].key == key then Some(es[0].value) else Find(es[1..], key)
  }

  // Dropping from the old end until the budget holds; 0 is no limit.
  function Fit(es: seq<Entry>, max: nat): seq<Entry> {
    if max == 0 || Size(es) <= max then es else Fit(es[..|es| - 1], max)
  }

  function Add(es: seq<Entry>, key: string, value: string, max: nat): seq<Entry> {
    Fit([Entry(key, value)] + Without(es, key), max)
  }

  function Touch(es: seq<Entry>, key: string): seq<Entry> {
    match Find(es, key)
    case None => es
    case Some(value) => [Entry(key, value)] + Without(es, key)
  }

  function Reverse(es: seq<Entry>): seq<Entry> {
    if es == [] then [] else [es[|es| - 1]] + Reverse(es[..|es| - 1])
  }

  // ---- what these functions mean ----

  lemma {:induction false} AbsentIs(es: seq<Entry>, key: string)
    requires forall i :: 0 <= i < |es| ==> es[i].key != key
    ensures Find(es, key) == None && Without(es, key) == es
  {
    if es != [] {
      AbsentIs(es[1..], key);
    }
  }

  lemma {:induction false} PresentAt(es: seq<Entry>, i: nat)
    requires Distinct(es) && i < |es|
    ensures Find(es, es[i].key) == Some(es[i].value)
    ensures Without(es, es[i].key) == es[..i] + es[i + 1..]
  {
    if i == 0 {
      AbsentIs(es[1..], es[0].key);
    } else {
      PresentAt(es[1..], i - 1);
      assert es[1..][..i - 1] == es[1..i];
    }
  }

  lemma {:induction false} SizeConcat(a: seq<Entry>, b: seq<Entry>)
    ensures Size(a + b) == Size(a) + Size(b)
    decreases |b|
  {
    if b == [] {
      assert a + b == a;
    } else {
      assert (a + b)[..|a + b| - 1] == a + b[..|b| - 1];
      SizeConcat(a, b[..|b| - 1]);
    }
  }

  // All keys and values one after the other.
  function Text(es: seq<Entry>): string {
    if es == [] then "" else es[0].key + es[0].value + Text(es[1..])
  }

  // The size is the number of bytes of all keys and values.
  lemma {:induction false} SizeIsBytes(es: seq<Entry>)
    ensures Size(es) == |Text(es)|
  {
    if es != [] {
      SizeIsBytes(es[1..]);
      SizeConcat([es[0]], es[1..]);
      assert es == [es[0]] + es[1..];
      assert [es[0]][..0] == [];
      assert Size([es[0]]) == |es[0].key| + |es[0].value|;
    }
  }

  // Fit keeps the longest prefix that is within the budget.
  lemma {:induction false} FitIsLongestPrefix(es: seq<Entry>, max: nat)
    ensures var n := |Fit(es, max)|;
      && n <= |es| && Fit(es, max) == es[..n]
      && (max != 0 ==> Size(es[..n]) <= max && forall m :: n < m <= |es| ==> Size(es[..m]) > max)
      && (max == 0 ==> n == |es|)
    decreases |es|
  {
    if max != 0 && Size(es) > max {
      var front := es[..|es| - 1];
      FitIsLongestPrefix(front, max);
      var n := |Fit(front, max)|;
      forall m | n < m <= |es|
        ensures Size(es[..m]) > max
      {
        if m < |es| {
          assert front[..m] == es[..m];
        } else {
          assert es[..m] == es;
        }
      }
    } else {
      assert es[..|es|] == es;
    }
  }

  lemma {:induction false} ReverseCons(x: Entry, es: seq<Entry>)
    ensures Reverse([x] + es) == Reverse(es) + [x]
    decreases |es|
  {
    if es == [] {
      assert [x] + es == [x];
    } else {
      ReverseCons(x, es[..|es| - 1]);
      assert ([x] + es)[..|es|] == [x] + es[..|es| - 1];
    }
  }

  // ---- two budgets side by side ----

  // A read-through access: a hit refreshes, a miss loads the value and adds it.
  datatype Access = Access(key: string, loaded: string)

  function After(es: seq<Entry>, a: Access, max: nat): seq<Entry> {
    if Find(es, a.key).Some? then Touch(es, a.key) else Add(es, a.key, a.loaded, max)
  }

  function Contents(accesses: seq<Access>, max: nat): seq<Entry> {
    if accesses == [] then []
    else After(Contents(accesses[..|accesses| - 1], max), accesses[|accesses| - 1], max)
  }

  predicate NoMoreThan(small: nat, big: nat) {
    big == 0 || (small != 0 && small <= big)
  }

  // Values may change between loads as long as each key keeps its size.
  ghost predicate Sized(es: seq<Entry>, size: string -> nat) {
    forall i :: 0 <= i < |es| ==> |es[i].value| == size(es[i].key)
  }

  // The keys of a are the most recent keys of b, in the same order.
  ghost predicate KeyPrefix(a: seq<Entry>, b: seq<Entry>) {
    |a| <= |b| && forall i :: 0 <= i < |a| ==> a[i].key == b[i].key
  }

  lemma {:induction false} SameKeysSameSize(a: seq<Entry>, b: seq<Entry>, size: string -> nat)
    requires |a| == |b| && KeyPrefix(a, b) && Sized(a, size) && Sized(b, size)
    ensures Size(a) == Size(b)
    decreases |a|
  {
    if a != [] {
      SameKeysSameSize(a[..|a| - 1], b[..|b| - 1], size);
    }
  }

  lemma FitKeepsPrefix(a: seq<Entry>, b: seq<Entry>, small: nat, big: nat, size: string -> nat)
    requires KeyPrefix(a, b) && Sized(a, size) && Sized(b, size) && NoMoreThan(small, big)
    ensures KeyPrefix(Fit(a, small), Fit(b, big))
  {
    FitIsLongestPrefix(a, small);
    FitIsLongestPrefix(b, big);
    var m := |Fit(a, small)|;
    SameKeysSameSize(a[..m], b[..m], size);
  }

  function ToFront<T>(es: seq<T>, i: nat): seq<T>
    requires i < |es|
  {
    [es[i]] + es[..i] + es[i + 1..]
  }

  // An access moves the key's entry to the front, or puts a new one there.
  lemma AfterIs(es: seq<Entry>, a: Access, max: nat) returns (i: nat)
    requires Distinct(es)
    ensures i <= |es|
    ensures i < |es| ==> es[i].key == a.key && After(es, a, max) == ToFront(es, i)
    ensures i == |es| ==>
      After(es, a, max) == Fit([Entry(a.key, a.loaded)] + es, max) && forall j :: 0 <= j < |es| ==> es[j].key != a.key
  {
    if k: nat :| k < |es| && es[k].key == a.key {
      i := k;
      PresentAt(es, i);
    } else {
      i := |es|;
      AbsentIs(es, a.key);
    }
  }

  lemma ToFrontKeepsShape(es: seq<Entry>, i: nat, size: string -> nat)
    requires Distinct(es) && Sized(es, size) && i < |es|
    ensures Distinct(ToFront(es, i)) && Sized(ToFront(es, i), size)
  {
    assert forall j :: 0 <= j < |es| ==> ToFront(es, i)[j] == es[if j == 0 then i else if j <= i then j - 1 else j];
  }

  lemma AfterKeepsShape(es: seq<Entry>, a: Access, max: nat, size: string -> nat)
    requires Distinct(es) && Sized(es, size) && |a.loaded| == size(a.key)
    ensures Distinct(After(es, a, max)) && Sized(After(es, a, max), size)
  {
    var i := AfterIs(es, a, max);
    if i < |es| {
      ToFrontKeepsShape(es, i, size);
    } else {
      FitIsLongestPrefix([Entry(a.key, a.loaded)] + es, max);
    }
  }

  lemma ToFrontKeepsPrefix(s: seq<Entry>, b: seq<Entry>, i: nat)
    requires KeyPrefix(s, b) && i < |s|
    ensures KeyPrefix(ToFront(s, i), ToFront(b, i))
  {
  }

  lemma NewInFrontKeepsPrefix(s: seq<Entry>, b: seq<Entry>, entry: Entry, j: nat)
    requires KeyPrefix(s, b) && |s| <= j < |b| && b[j].key == entry.key
    ensures KeyPrefix([entry] + s, ToFront(b, j))
  {
  }

  lemma AfterKeepsPrefix(s: seq<Entry>, b: seq<Entry>, a: Access, small: nat, big: nat, size: string -> nat)
    requires Distinct(s) && Distinct(b) && Sized(s, size) && Sized(b, size) && |a.loaded| == size(a.key)
    requires KeyPrefix(s, b) && NoMoreThan(small, big)
    ensures KeyPrefix(After(s, a, small), After(b, a, big))
  {
    var entry := Entry(a.key, a.loaded);
    var i := AfterIs(s, a, small);
    var j := AfterIs(b, a, big);
    if i < |s| {
      assert i == j;
      ToFrontKeepsPrefix(s, b, i);
    } else if j < |b| {
      FitIsLongestPrefix([entry] + s, small);
      NewInFrontKeepsPrefix(s, b, entry, j);
    } else {
      FitKeepsPrefix([entry] + s, [entry] + b, small, big, size);
    }
  }

  // Over any run of accesses the larger budget holds the smaller one's entries
  // as its most recent ones, so it never misses where the smaller one hits.
  lemma {:induction false} LargerBudgetIncludes(accesses: seq<Access>, small: nat, big: nat, size: string -> nat)
    requires NoMoreThan(small, big)
    requires forall i :: 0 <= i < |accesses| ==> |accesses[i].loaded| == size(accesses[i].key)
    ensures KeyPrefix(Contents(accesses, small), Contents(accesses, big))
    ensures Distinct(Contents(accesses, small)) && Sized(Contents(accesses, small), size)
    ensures Distinct(Contents(accesses, big)) && Sized(Contents(accesses, big), size)
    ensures forall key :: Find(Contents(accesses, small), key).Some? ==> Find(Contents(accesses, big), key).Some?
    decreases |accesses|
  {
    var s, b := Contents(accesses, small), Contents(accesses, big);
    if accesses != [] {
      var front, a := accesses[..|accesses| - 1], accesses[|accesses| - 1];
      LargerBudgetIncludes(front, small, big, size);
      AfterKeepsShape(Contents(front, small), a, small, size);
      AfterKeepsShape(Contents(front, big), a, big, size);
      AfterKeepsPrefix(Contents(front, small), Contents(front, big), a, small, big, size);
    }
    forall key | Find(s, key).Some?
      ensures Find(b, key).Some?
    {
      if i: nat :| i < |s| && s[i].key == key {
        PresentAt(b, i);
      } else {
        AbsentIs(s, key);
      }
    }
  }
}
