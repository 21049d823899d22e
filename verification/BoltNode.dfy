// A bolt node: key/value pairs sorted by key in byte order.
module BoltNode {
  import Sorting

  type byte = x: int | 0 <= x < 256

  type Key = seq<byte>

  datatype KV = KV(key: Key, value: seq<byte>)

  // bytes.Compare
  function Compare(a: Key, b: Key): (c: int)
    ensures -1 <= c <= 1
  {
    if a == [] then (if b == [] then 0 else -1)
    else if b == [] then 1
    else if a[0] < b[0] then -1
    else if a[0] > b[0] then 1
    else Compare(a[1..], b[1..])
  }

  predicate Less(a: Key, b: Key) {
    Compare(a, b) == -1
  }

  lemma {:induction false} CompareFlips(a: Key, b: Key)
    ensures Compare(a, b) == -Compare(b, a)
    ensures Compare(a, b) == 0 <==> a == b
  {
    if a != [] && b != [] {
      CompareFlips(a[1..], b[1..]);
      assert a == [a[0]] + a[1..] && b == [b[0]] + b[1..];
    }
  }

  // The keys are the same before place i, where a ends or has the smaller byte.
  ghost predicate FirstDiffers(a: Key, b: Key, i: nat) {
    i <= |a| && i < |b| && a[..i] == b[..i] && (i == |a| || a[i] < b[i])
  }

  lemma FirstDiffersLater(a: Key, b: Key, i: nat)
    requires FirstDiffers(a, b, i) && i > 0
    ensures a != [] && b != [] && a[0] == b[0] && FirstDiffers(a[1..], b[1..], i - 1)
  {
    assert a[..i][0] == b[..i][0];
    assert a[1..][..i - 1] == a[..i][1..] && b[1..][..i - 1] == b[..i][1..];
  }

  lemma FirstDiffersBefore(a: Key, b: Key, i: nat)
    requires a != [] && b != [] && a[0] == b[0] && FirstDiffers(a[1..], b[1..], i)
    ensures FirstDiffers(a, b, i + 1)
  {
    assert a[..i + 1] == [a[0]] + a[1..][..i] && b[..i + 1] == [b[0]] + b[1..][..i];
  }

  // Byte order: a comes before b exactly if it does at the first place where they differ.
  lemma {:induction false} CompareIsByteOrder(a: Key, b: Key)
    ensures Less(a, b) <==> exists i: nat :: FirstDiffers(a, b, i)
  {
    if i: nat :| FirstDiffers(a, b, i) && i > 0 {
      FirstDiffersLater(a, b, i);
      CompareIsByteOrder(a[1..], b[1..]);
    } else if a != [] && b != [] && a[0] == b[0] {
      CompareIsByteOrder(a[1..], b[1..]);
      if i: nat :| FirstDiffers(a[1..], b[1..], i) {
        FirstDiffersBefore(a, b, i);
      }
    } else {
      assert Less(a, b) <==> FirstDiffers(a, b, 0);
    }
  }

  lemma {:induction false} LessTransitive(a: Key, b: Key, c: Key)
    requires Less(a, b) && Less(b, c)
    ensures Less(a, c)
  {
    if a != [] && b != [] && c != [] && a[0] == b[0] == c[0] {
      LessTransitive(a[1..], b[1..], c[1..]);
    }
  }

  ghost predicate Sorted(kvs: seq<KV>) {
    forall i, j :: 0 <= i < j < |kvs| ==> Less(kvs[i].key, kvs[j].key)
  }

  // The node as a map.
  function AsMap(kvs: seq<KV>): map<Key, seq<byte>> {
    if kvs == [] then map[] else AsMap(kvs[..|kvs| - 1])[kvs[|kvs| - 1].key := kvs[|kvs| - 1].value]
  }

  // i is where the key is, or where it would go.
  ghost predicate LowerBound(kvs: seq<KV>, key: Key, i: nat) {
    && i <= |kvs|
    && (forall k :: 0 <= k < i ==> Less(kvs[k].key, key))
    && (forall k :: i <= k < |kvs| ==> !Less(kvs[k].key, key))
  }

  // Neighbours of the place at i leave room for the key; `taken` if the pair at
  // i itself is to be replaced.
  ghost predicate FitsBetween(kvs: seq<KV>, i: nat, taken: bool, key: Key)
    requires i <= |kvs| && (taken ==> i < |kvs|)
  {
    && (i > 0 ==> Less(kvs[i - 1].key, key))
    && var after := if taken then i + 1 else i;
      after < |kvs| ==> Less(key, kvs[after].key)
  }

  class Node {
    var kvs: seq<KV>

    constructor ()
      ensures kvs == []
    {
      kvs := [];
    }

    method Index(key: Key) returns (index: nat, exact: bool)
      requires Sorted(kvs)
      ensures LowerBound(kvs, key, index)
      ensures exact <==> index < |kvs| && kvs[index].key == key
      ensures exact <==> key in AsMap(kvs)
    {
      var pairs := kvs;
      var notLess := (i: nat) => i < |pairs| && Compare(pairs[i].key, key) != -1;
      forall a, b | 0 <= a <= b < |pairs| && notLess(a)
        ensures notLess(b)
      {
        if a < b {
          NotLessUpwards(pairs[a].key, pairs[b].key, key);
        }
      }
      index := Sorting.Search(|kvs|, notLess);
      forall k | 0 <= k < |kvs|
        ensures Less(kvs[k].key, key) <==> k < index
      {
        assert notLess(k) <==> !Less(kvs[k].key, key);
      }
      exact := |kvs| > 0 && index < |kvs| && kvs[index].key == key;
      ExactIffPresent(kvs, key, index);
    }

    // Sortedness survives exactly if the new key fits in the place of the old one.
    method Put(oldKey: Key, newKey: Key, value: seq<byte>) returns (ghost index: nat, ghost exact: bool)
      requires Sorted(kvs)
      modifies this
      ensures LowerBound(old(kvs), oldKey, index)
      ensures (exact <==> oldKey in AsMap(old(kvs))) && (exact ==> index < |old(kvs)|)
      ensures kvs == Placed(old(kvs), index, exact, KV(newKey, value))
      ensures Sorted(kvs) <==> FitsBetween(old(kvs), index, exact, newKey)
      ensures Sorted(kvs) ==> AsMap(kvs) == (AsMap(old(kvs)) - {oldKey})[newKey := value]
      ensures oldKey == newKey ==> Sorted(kvs) && AsMap(kvs) == AsMap(old(kvs))[newKey := value]
    {
      var at, found := Index(oldKey);
      index, exact := at, found;
      PutKeepsSortedIffFits(kvs, oldKey, at, found, KV(newKey, value));
      PutUpdatesMap(kvs, oldKey, at, found, KV(newKey, value));
      var grown := kvs;
      if !found {
        grown := kvs + [KV([], [])];
        // The pairs from the place on move up by one; the pair at the place is now there twice.
        grown := grown[..at + 1] + grown[at..|grown| - 1];
      }
      kvs := grown[at := KV(newKey, value)];
      assert kvs == Placed(old(kvs), at, found, KV(newKey, value));
    }

    method Del(key: Key)
      requires Sorted(kvs)
      modifies this
      ensures Sorted(kvs) && AsMap(kvs) == AsMap(old(kvs)) - {key}
    {
      var index, exact := Index(key);
      if exact {
        DelRemoves(kvs, index);
        kvs := kvs[..index] + kvs[index + 1..];
      } else {
        assert AsMap(kvs) - {key} == AsMap(kvs);
      }
    }
  }

  lemma NotLessUpwards(a: Key, b: Key, key: Key)
    requires Less(a, b) && !Less(a, key)
    ensures !Less(b, key)
  {
    if Less(b, key) {
      LessTransitive(a, b, key);
    }
  }

  // What Put leaves: the pair at the place, in addition or instead.
  function Placed(kvs: seq<KV>, i: nat, taken: bool, kv: KV): seq<KV>
    requires i <= |kvs| && (taken ==> i < |kvs|)
  {
    kvs[..i] + [kv] + kvs[if taken then i + 1 else i..]
  }

  ghost predicate HasKey(kvs: seq<KV>, key: Key) {
    exists i :: 0 <= i < |kvs| && kvs[i].key == key
  }

  lemma {:induction false} AsMapKeys(kvs: seq<KV>, key: Key)
    ensures key in AsMap(kvs) <==> HasKey(kvs, key)
  {
    if kvs != [] {
      var last := |kvs| - 1;
      AsMapKeys(kvs[..last], key);
      if HasKey(kvs, key) && kvs[last].key != key {
        var i :| 0 <= i < |kvs| && kvs[i].key == key;
        assert kvs[..last][i].key == key;
      }
      if HasKey(kvs[..last], key) {
        var i :| 0 <= i < last && kvs[..last][i].key == key;
        assert kvs[i].key == key;
      }
    }
  }

  lemma {:induction false} AsMapAt(kvs: seq<KV>, i: nat)
    requires Sorted(kvs) && i < |kvs|
    ensures kvs[i].key in AsMap(kvs) && AsMap(kvs)[kvs[i].key] == kvs[i].value
    decreases |kvs|
  {
    var last := |kvs| - 1;
    if i < last {
      CompareFlips(kvs[i].key, kvs[last].key);
      AsMapAt(kvs[..last], i);
    }
  }

  lemma ExactIffPresent(kvs: seq<KV>, key: Key, i: nat)
    requires Sorted(kvs) && LowerBound(kvs, key, i)
    ensures i < |kvs| && kvs[i].key == key <==> key in AsMap(kvs)
  {
    AsMapKeys(kvs, key);
    CompareFlips(key, key);
    if HasKey(kvs, key) {
      var j :| 0 <= j < |kvs| && kvs[j].key == key;
      assert i <= j;
    }
  }

  // The map has exactly the pairs of the node.
  lemma AsMapPairs(kvs: seq<KV>, kv: KV)
    requires Sorted(kvs)
    ensures kv in kvs <==> kv.key in AsMap(kvs) && AsMap(kvs)[kv.key] == kv.value
  {
    AsMapKeys(kvs, kv.key);
    if kv.key in AsMap(kvs) {
      var i :| 0 <= i < |kvs| && kvs[i].key == kv.key;
      AsMapAt(kvs, i);
    }
    if kv in kvs {
      var i :| 0 <= i < |kvs| && kvs[i] == kv;
      AsMapAt(kvs, i);
    }
  }

  lemma SamePairs(a: map<Key, seq<byte>>, b: map<Key, seq<byte>>)
    requires forall kv: KV :: (kv.key in a && a[kv.key] == kv.value) <==> (kv.key in b && b[kv.key] == kv.value)
    ensures a == b
  {
    forall key | key in a
      ensures key in b && b[key] == a[key]
    {
      var kv := KV(key, a[key]);
      assert kv.key in a && a[kv.key] == kv.value;
    }
    forall key | key in b
      ensures key in a
    {
      var kv := KV(key, b[key]);
      assert kv.key in b && b[kv.key] == kv.value;
    }
  }

  // No pair on either side of place i has the key of the pair there.
  lemma NotElsewhere(kvs: seq<KV>, i: nat)
    requires Sorted(kvs) && i < |kvs|
    ensures forall kv :: kv in kvs[..i] || kv in kvs[i + 1..] ==> kv.key != kvs[i].key
  {
    forall j | 0 <= j < |kvs| && j != i
      ensures kvs[j].key != kvs[i].key
    {
      CompareFlips(kvs[j].key, kvs[i].key);
    }
  }

  lemma PutKeepsSortedIffFits(kvs: seq<KV>, oldKey: Key, i: nat, taken: bool, kv: KV)
    requires Sorted(kvs) && LowerBound(kvs, oldKey, i) && (taken <==> i < |kvs| && kvs[i].key == oldKey)
    ensures Sorted(Placed(kvs, i, taken, kv)) <==> FitsBetween(kvs, i, taken, kv.key)
    ensures oldKey == kv.key ==> FitsBetween(kvs, i, taken, kv.key)
  {
    var t := Placed(kvs, i, taken, kv);
    var after := if taken then i + 1 else i;
    assert t[i] == kv && (i > 0 ==> t[i - 1] == kvs[i - 1]) && (after < |kvs| ==> t[i + 1] == kvs[after]);
    if FitsBetween(kvs, i, taken, kv.key) {
      forall j, k | 0 <= j < k < |t|
        ensures Less(t[j].key, t[k].key)
      {
        PlacedInOrder(kvs, i, taken, kv, j, k);
      }
    }
    if oldKey == kv.key && after < |kvs| {
      CompareFlips(oldKey, kvs[after].key);
      CompareFlips(oldKey, kvs[i].key);
    }
  }

  lemma PlacedInOrder(kvs: seq<KV>, i: nat, taken: bool, kv: KV, j: nat, k: nat)
    requires Sorted(kvs) && i <= |kvs| && (taken ==> i < |kvs|) && FitsBetween(kvs, i, taken, kv.key)
    requires j < k < |Placed(kvs, i, taken, kv)|
    ensures Less(Placed(kvs, i, taken, kv)[j].key, Placed(kvs, i, taken, kv)[k].key)
  {
    var after := if taken then i + 1 else i;
    if k == i && j < i - 1 {
      LessTransitive(kvs[j].key, kvs[i - 1].key, kv.key);
    } else if j == i && k > i + 1 {
      LessTransitive(kv.key, kvs[after].key, kvs[after + k - i - 1].key);
    } else if j < i < k {
      assert Less(kvs[j].key, kvs[after + k - i - 1].key);
    }
  }

  lemma PutUpdatesMap(kvs: seq<KV>, oldKey: Key, i: nat, taken: bool, kv: KV)
    requires Sorted(kvs) && LowerBound(kvs, oldKey, i) && (taken <==> i < |kvs| && kvs[i].key == oldKey)
    ensures Sorted(Placed(kvs, i, taken, kv)) ==>
      AsMap(Placed(kvs, i, taken, kv)) == (AsMap(kvs) - {oldKey})[kv.key := kv.value]
    ensures oldKey == kv.key ==> (AsMap(kvs) - {oldKey})[kv.key := kv.value] == AsMap(kvs)[kv.key := kv.value]
  {
    if Sorted(Placed(kvs, i, taken, kv)) {
      SortedPutUpdatesMap(kvs, oldKey, i, taken, kv);
    }
    RemoveThenSet(AsMap(kvs), kv);
  }

  lemma RemoveThenSet(m: map<Key, seq<byte>>, kv: KV)
    ensures (m - {kv.key})[kv.key := kv.value] == m[kv.key := kv.value]
  {
  }

  lemma SortedPutUpdatesMap(kvs: seq<KV>, oldKey: Key, i: nat, taken: bool, kv: KV)
    requires Sorted(kvs) && LowerBound(kvs, oldKey, i) && (taken <==> i < |kvs| && kvs[i].key == oldKey)
    requires Sorted(Placed(kvs, i, taken, kv))
    ensures AsMap(Placed(kvs, i, taken, kv)) == (AsMap(kvs) - {oldKey})[kv.key := kv.value]
  {
    var t, rest := Placed(kvs, i, taken, kv), Rest(kvs, i, taken);
    OldKeyLeaves(kvs, oldKey, i, taken);
    PlacedPairs(kvs, i, taken, kv);
    forall pair: KV
      ensures pair.key in AsMap(t) && AsMap(t)[pair.key] == pair.value <==> pair == kv || pair in rest
      ensures pair in rest <==> pair.key in AsMap(kvs) && AsMap(kvs)[pair.key] == pair.value && pair.key != oldKey
    {
      AsMapPairs(t, pair);
      AsMapPairs(kvs, pair);
    }
    SamePairs(AsMap(t), (AsMap(kvs) - {oldKey})[kv.key := kv.value]);
  }

  function Rest(kvs: seq<KV>, i: nat, taken: bool): seq<KV>
    requires i <= |kvs| && (taken ==> i < |kvs|)
  {
    kvs[..i] + kvs[if taken then i + 1 else i..]
  }

  lemma PlacedPairs(kvs: seq<KV>, i: nat, taken: bool, kv: KV)
    requires i <= |kvs| && (taken ==> i < |kvs|) && Sorted(Placed(kvs, i, taken, kv))
    ensures forall pair :: pair in Placed(kvs, i, taken, kv) <==> pair == kv || pair in Rest(kvs, i, taken)
    ensures forall pair :: pair in Rest(kvs, i, taken) ==> pair.key != kv.key
  {
    var t := Placed(kvs, i, taken, kv);
    assert t[i] == kv && t[..i] == kvs[..i] && t[i + 1..] == kvs[if taken then i + 1 else i..];
    NotElsewhere(t, i);
  }

  // What Put keeps is every pair but the one with the old key.
  lemma OldKeyLeaves(kvs: seq<KV>, oldKey: Key, i: nat, taken: bool)
    requires Sorted(kvs) && LowerBound(kvs, oldKey, i) && (taken <==> i < |kvs| && kvs[i].key == oldKey)
    ensures forall pair :: pair in Rest(kvs, i, taken) <==> pair in kvs && pair.key != oldKey
  {
    if taken {
      NotElsewhere(kvs, i);
      assert kvs == kvs[..i] + [kvs[i]] + kvs[i + 1..];
    } else {
      assert kvs == kvs[..i] + kvs[i..];
      ExactIffPresent(kvs, oldKey, i);
      AsMapKeys(kvs, oldKey);
    }
  }

  lemma DelRemoves(kvs: seq<KV>, i: nat)
    requires Sorted(kvs) && i < |kvs|
    ensures var t := kvs[..i] + kvs[i + 1..]; Sorted(t) && AsMap(t) == AsMap(kvs) - {kvs[i].key}
  {
    var t := kvs[..i] + kvs[i + 1..];
    assert forall j :: 0 <= j < |t| ==> t[j] == kvs[if j < i then j else j + 1];
    NotElsewhere(kvs, i);
    assert kvs == kvs[..i] + [kvs[i]] + kvs[i + 1..];
    forall pair: KV
      ensures pair.key in AsMap(t) && AsMap(t)[pair.key] == pair.value <==>
              pair.key in AsMap(kvs) && AsMap(kvs)[pair.key] == pair.value && pair.key != kvs[i].key
    {
      AsMapPairs(t, pair);
      AsMapPairs(kvs, pair);
      assert pair in t <==> pair in kvs && pair.key != kvs[i].key;
    }
    SamePairs(AsMap(t), AsMap(kvs) - {kvs[i].key});
  }
}
