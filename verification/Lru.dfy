// The cache: a linked list in order of use, and a map from keys to its elements.
module Lru {
  import opened Options
  import opened LinkedList
  import opened LruSpec

  // Every element is filed under its key, and nothing else is.
  ghost predicate Filed(nodes: seq<Ref>, es: seq<Entry>, cache: map<string, Ref>)
    requires |es| == |nodes|
  {
    && (forall i :: 0 <= i < |nodes| ==> es[i].key in cache && cache[es[i].key] == nodes[i])
    && (forall k :: k in cache ==> HasKey(es, k))
  }

  ghost predicate HasKey(es: seq<Entry>, k: string) {
    exists i :: 0 <= i < |es| && es[i].key == k
  }

  class Cache {
    const maxBytes: nat
    const notifies: bool           // an OnEvicted callback was given
    var nbytes: int
    const ll: List<Entry>
    var cache: map<string, Ref>
    var evicted: seq<Entry>        // the calls of OnEvicted so far

    // List and map hold the same elements, and nbytes is what they cost.
    ghost predicate Valid()
      reads this, ll
    {
      ll.Valid() && Filed(ll.nodes, ll.Contents(), cache) && nbytes == Size(ll.Contents())
    }

    ghost function Entries(): seq<Entry>
      requires Valid()
      reads this, ll
    {
      ll.Contents()
    }

    constructor (maxBytes: nat, notifies: bool)
      ensures Valid() && fresh(ll) && this.maxBytes == maxBytes && this.notifies == notifies
      ensures Entries() == [] && evicted == []
    {
      this.maxBytes, this.notifies := maxBytes, notifies;
      nbytes := 0;
      var list := new List();
      ll := list;
      cache := map[];
      evicted := [];
    }

    method Get(key: string) returns (value: Option<string>)
      requires Valid()
      modifies this, ll
      ensures Valid() && evicted == old(evicted)
      ensures value == Find(old(Entries()), key)
      ensures Entries() == Touch(old(Entries()), key)
    {
      ghost var es := Entries();
      if key in cache {
        var ele := cache[key];
        ghost var i := Touched(ll.nodes, ll.next, ll.prev, ll.value, cache, key);
        ll.MoveToFront(ele, i);
        return Some(ll.value[ele].value);
      } else {
        Miss(ll.nodes, es, cache, key);
        return None;
      }
    }

    method RemoveOldest()
      requires Valid()
      modifies this, ll
      ensures Valid()
      ensures var n := |old(Entries())|;
        if n == 0 then Entries() == [] && evicted == old(evicted)
        else
          && Entries() == old(Entries())[..n - 1]
          && evicted == if notifies then old(evicted) + [old(Entries())[n - 1]] else old(evicted)
    {
      ghost var es := Entries();
      ghost var last := |es| - 1;
      var ele, ok := ll.Back();
      if ok {
        OldestDropped(ll.nodes, ll.next, ll.prev, ll.value, cache);
        var kv := ll.value[ele];
        ll.Remove(ele, last);
        cache := cache - {kv.key};
        nbytes := nbytes - (|kv.key| + |kv.value|);
        if notifies {
          evicted := evicted + [kv];
        }
      }
    }

    method Len() returns (n: nat)
      requires Valid()
      ensures n == |Entries()|
    {
      n := ll.len;
    }

    // Add, for a key that is present ...
    method Refresh(key: string, value: string)
      requires Valid() && key in cache
      modifies this, ll
      ensures Valid() && evicted == old(evicted)
      ensures Entries() == [Entry(key, value)] + Without(old(Entries()), key)
    {
      ghost var entry := Entry(key, value);
      var ele := cache[key];
      ghost var i := Refreshed(ll.nodes, ll.next, ll.prev, ll.value, cache, entry);
      nbytes := nbytes + |value| - |ll.value[ele].value|;
      ll.MoveToFront(ele, i);
      ll.Store(ele, Entry(key, value));
    }

    // ... and for one that is not.
    method Insert(key: string, value: string)
      requires Valid() && key !in cache
      modifies this, ll
      ensures Valid() && evicted == old(evicted)
      ensures Entries() == [Entry(key, value)] + Without(old(Entries()), key)
    {
      ghost var es := Entries();
      ghost var entry := Entry(key, value);
      Miss(ll.nodes, es, cache, key);
      SizeConcat([entry], es);
      FiledPush(ll.nodes, es, cache, entry, ll.unused);
      PushedValues(ll.nodes, ll.value, ll.unused, entry);
      var ele := ll.PushFront(Entry(key, value));
      cache := cache[key := ele];
      nbytes := nbytes + |key| + |value|;
    }

    // Afterwards the cache holds the longest prefix within budget of the new
    // entry followed by the old ones, and OnEvicted has been called for the
    // rest, oldest first.
    method Add(key: string, value: string)
      requires Valid()
      modifies this, ll
      ensures Valid() && Entries() == LruSpec.Add(old(Entries()), key, value, maxBytes)
      ensures var all := [Entry(key, value)] + Without(old(Entries()), key);
        Entries() <= all && evicted == Notified(old(evicted), notifies, all[|Entries()|..])
      ensures maxBytes != 0 ==> nbytes <= maxBytes
    {
      if key in cache {
        Refresh(key, value);
      } else {
        Insert(key, value);
      }
      Evict();
    }

    // The loop at the end of Add.
    method Evict()
      requires Valid()
      modifies this, ll
      ensures Valid() && Entries() == Fit(old(Entries()), maxBytes)
      ensures Evicting(old(Entries()), Entries(), maxBytes, old(evicted), notifies, evicted)
      ensures maxBytes != 0 ==> nbytes <= maxBytes
    {
      ghost var all := Entries();
      ghost var kept := all;
      ghost var log := evicted;
      NoneEvicted(all, maxBytes, evicted, notifies);
      while maxBytes != 0 && maxBytes < nbytes
        invariant Valid() && kept == Entries()
        invariant Evicting(all, kept, maxBytes, log, notifies, evicted)
        decreases |kept|
      {
        EvictOne(all, kept, maxBytes, log, notifies, evicted);
        RemoveOldest();
        kept := Entries();
      }
      FitsNow(kept, maxBytes);
    }
  }

  // A lookup that loads and adds what it misses, as Group.Get does without peers.
  method ReadThrough(c: Cache, key: string, loaded: string) returns (value: string)
    requires c.Valid()
    modifies c, c.ll
    ensures c.Valid() && c.Entries() == After(old(c.Entries()), Access(key, loaded), c.maxBytes)
    ensures value == if Find(old(c.Entries()), key).Some? then Find(old(c.Entries()), key).value else loaded
  {
    ghost var es := c.Entries();
    var hit := c.Get(key);
    if hit.Some? {
      return hit.value;
    }
    c.Add(key, loaded);
    return loaded;
  }

  // The byte count is that of all keys and values held.
  lemma BytesAreCounted(c: Cache)
    requires c.Valid()
    ensures c.nbytes == |Text(c.Entries())|
  {
    SizeIsBytes(c.Entries());
  }

  // No key is held twice.
  lemma EntriesAreDistinct(c: Cache)
    requires c.Valid()
    ensures Distinct(c.Entries())
  {
    RingHasNoRepeats(c.ll.nodes, c.ll.next, c.ll.prev);
    KeysDistinct(c.ll.nodes, c.Entries(), c.cache);
  }

  lemma KeysDistinct(nodes: seq<Ref>, es: seq<Entry>, cache: map<string, Ref>)
    requires |es| == |nodes| && Filed(nodes, es, cache) && NoRepeats(nodes)
    ensures Distinct(es)
  {
  }

  // A key in the map is the key of one element, which moving to the front refreshes.
  lemma Hit(nodes: seq<Ref>, es: seq<Entry>, cache: map<string, Ref>, key: string) returns (i: nat)
    requires |es| == |nodes| && Filed(nodes, es, cache) && NoRepeats(nodes) && key in cache
    ensures i < |es| && es[i].key == key && nodes[i] == cache[key]
    ensures Distinct(es) && Find(es, key) == Some(es[i].value)
    ensures Touch(es, key) == ToFront(es, i) && Size(ToFront(es, i)) == Size(es)
    ensures Filed([nodes[i]] + DropAt(nodes, i), ToFront(es, i), cache)
  {
    assert HasKey(es, key);
    i :| 0 <= i < |es| && es[i].key == key;
    KeysDistinct(nodes, es, cache);
    TouchAt(es, i);
    SizeToFront(es, i);
    FiledToFront(nodes, es, cache, i);
  }

  lemma Touched(nodes: seq<Ref>, next: map<Ref, Ref>, prev: map<Ref, Ref>, value: map<Ref, Entry>,
                cache: map<string, Ref>, key: string)
    returns (i: nat)
    requires Ring(nodes, next, prev) && forall j :: 0 <= j < |nodes| ==> nodes[j] in value
    requires Filed(nodes, Values(nodes, value), cache) && key in cache
    ensures i < |nodes| && nodes[i] == cache[key]
    ensures var es := Values(nodes, value);
      var nodes' := [nodes[i]] + DropAt(nodes, i);
      && (forall j :: 0 <= j < |nodes'| ==> nodes'[j] in value)
      && Find(es, key) == Some(value[nodes[i]].value)
      && Values(nodes', value) == Touch(es, key) && Size(Touch(es, key)) == Size(es)
      && Filed(nodes', Touch(es, key), cache)
  {
    RingHasNoRepeats(nodes, next, prev);
    i := Hit(nodes, Values(nodes, value), cache, key);
    Moved(nodes, value, i);
  }

  lemma Refreshed(nodes: seq<Ref>, next: map<Ref, Ref>, prev: map<Ref, Ref>, value: map<Ref, Entry>,
                  cache: map<string, Ref>, entry: Entry)
    returns (i: nat)
    requires Ring(nodes, next, prev) && forall j :: 0 <= j < |nodes| ==> nodes[j] in value
    requires Filed(nodes, Values(nodes, value), cache) && entry.key in cache
    ensures i < |nodes| && nodes[i] == cache[entry.key]
    ensures var es := Values(nodes, value);
      var nodes', value' := [nodes[i]] + DropAt(nodes, i), value[nodes[i] := entry];
      var es' := [entry] + Without(es, entry.key);
      && (forall j :: 0 <= j < |nodes'| ==> nodes'[j] in value')
      && Values(nodes', value') == es' && Filed(nodes', es', cache)
      && Size(es') == Size(es) + |entry.value| - |value[nodes[i]].value|
  {
    var es := Values(nodes, value);
    RingHasNoRepeats(nodes, next, prev);
    i := Hit(nodes, es, cache, entry.key);
    Moved(nodes, value, i);
    var nodes' := [nodes[i]] + DropAt(nodes, i);
    assert Values(nodes', value[nodes[i] := entry]) == ToFront(es, i)[0 := entry] by {
      StoredValues(nodes', value, entry);
    }
    RefreshAt(es, i, entry);
    FiledUpdate(nodes', ToFront(es, i), cache, entry);
  }

  lemma Moved(nodes: seq<Ref>, value: map<Ref, Entry>, i: nat)
    requires NoRepeats(nodes) && i < |nodes| && forall j :: 0 <= j < |nodes| ==> nodes[j] in value
    ensures var nodes' := [nodes[i]] + DropAt(nodes, i);
      && NoRepeats(nodes') && (forall j :: 0 <= j < |nodes'| ==> nodes'[j] in value)
      && Values(nodes', value) == ToFront(Values(nodes, value), i)
  {
  }

  lemma Miss(nodes: seq<Ref>, es: seq<Entry>, cache: map<string, Ref>, key: string)
    requires |es| == |nodes| && Filed(nodes, es, cache) && key !in cache
    ensures Find(es, key) == None && Touch(es, key) == es && Without(es, key) == es
  {
    AbsentIs(es, key);
  }

  lemma FiledToFront(nodes: seq<Ref>, es: seq<Entry>, cache: map<string, Ref>, i: nat)
    requires |es| == |nodes| && Filed(nodes, es, cache) && i < |nodes|
    ensures Filed([nodes[i]] + DropAt(nodes, i), ToFront(es, i), cache)
  {
    var nodes', es' := [nodes[i]] + DropAt(nodes, i), ToFront(es, i);
    forall j | 0 <= j < |nodes'|
      ensures es'[j].key in cache && cache[es'[j].key] == nodes'[j]
    {
      var from := if j == 0 then i else if j <= i then j - 1 else j;
      FrontAt(nodes, i, j);
      FrontAt(es, i, j);
      assert es'[j] == es[from] && nodes'[j] == nodes[from];
    }
    forall k | k in cache
      ensures HasKey(es', k)
    {
      assert HasKey(es, k);
      var j :| 0 <= j < |es| && es[j].key == k;
      var to := if j == i then 0 else if j < i then j + 1 else j;
      FrontAt(es, i, to);
      assert es'[to].key == k;
    }
  }

  lemma FrontAt<T>(s: seq<T>, i: nat, j: nat)
    requires i < |s| && j < |s|
    ensures ToFront(s, i) == [s[i]] + DropAt(s, i)
    ensures ToFront(s, i)[j] == s[if j == 0 then i else if j <= i then j - 1 else j]
  {
  }

  lemma OldestDropped(nodes: seq<Ref>, next: map<Ref, Ref>, prev: map<Ref, Ref>, value: map<Ref, Entry>,
                      cache: map<string, Ref>)
    requires Ring(nodes, next, prev) && nodes != [] && forall j :: 0 <= j < |nodes| ==> nodes[j] in value
    requires Filed(nodes, Values(nodes, value), cache)
    ensures var es, last := Values(nodes, value), |nodes| - 1;
      var nodes', oldest := DropAt(nodes, last), value[nodes[last]];
      && es[last] == oldest && (forall j :: 0 <= j < last ==> nodes'[j] in value)
      && Values(nodes', value) == es[..last] && Size(es[..last]) == Size(es) - oldest.Cost()
      && Filed(nodes', es[..last], cache - {oldest.key})
  {
    RingHasNoRepeats(nodes, next, prev);
    FiledDropLast(nodes, Values(nodes, value), cache);
    assert Values(DropAt(nodes, |nodes| - 1), value) == Values(nodes, value)[..|nodes| - 1];
  }

  lemma FiledDropLast(nodes: seq<Ref>, es: seq<Entry>, cache: map<string, Ref>)
    requires |es| == |nodes| > 0 && Filed(nodes, es, cache) && NoRepeats(nodes)
    ensures var last := |es| - 1; Filed(DropAt(nodes, last), es[..last], cache - {es[last].key})
  {
    var last := |es| - 1;
    KeysDistinct(nodes, es, cache);
    assert DropAt(nodes, last) == nodes[..last];
    forall k | k in cache && k != es[last].key
      ensures HasKey(es[..last], k)
    {
      assert HasKey(es, k);
      var j :| 0 <= j < |es| && es[j].key == k;
      assert es[..last][j].key == k;
    }
  }

  lemma StoredValues(nodes: seq<Ref>, value: map<Ref, Entry>, entry: Entry)
    requires NoRepeats(nodes) && nodes != [] && forall j :: 0 <= j < |nodes| ==> nodes[j] in value
    ensures Values(nodes, value[nodes[0] := entry]) == Values(nodes, value)[0 := entry]
  {
  }

  lemma PushedValues(nodes: seq<Ref>, value: map<Ref, Entry>, e: Ref, entry: Entry)
    requires e !in nodes && forall j :: 0 <= j < |nodes| ==> nodes[j] in value
    ensures Values([e] + nodes, value[e := entry]) == [entry] + Values(nodes, value)
  {
  }

  lemma FiledUpdate(nodes: seq<Ref>, es: seq<Entry>, cache: map<string, Ref>, entry: Entry)
    requires |es| == |nodes| > 0 && Filed(nodes, es, cache) && es[0].key == entry.key
    ensures Filed(nodes, es[0 := entry], cache)
  {
    forall k | k in cache
      ensures HasKey(es[0 := entry], k)
    {
      assert HasKey(es, k);
      var j :| 0 <= j < |es| && es[j].key == k;
      assert es[0 := entry][j].key == k;
    }
  }

  lemma FiledPush(nodes: seq<Ref>, es: seq<Entry>, cache: map<string, Ref>, entry: Entry, e: Ref)
    requires |es| == |nodes| && Filed(nodes, es, cache) && entry.key !in cache
    ensures Filed([e] + nodes, [entry] + es, cache[entry.key := e])
  {
    assert ([entry] + es)[0].key == entry.key;
    forall k | k in cache
      ensures HasKey([entry] + es, k)
    {
      assert HasKey(es, k);
      var j :| 0 <= j < |es| && es[j].key == k;
      assert ([entry] + es)[j + 1].key == k;
    }
  }

  // The calls of OnEvicted after those in `log`, when `dropped` goes.
  function Notified(log: seq<Entry>, notifies: bool, dropped: seq<Entry>): seq<Entry> {
    if notifies then log + Reverse(dropped) else log
  }

  // `kept` is left of `all`, and OnEvicted has been called for what is not.
  ghost predicate Evicting(all: seq<Entry>, kept: seq<Entry>, max: nat, log: seq<Entry>, notifies: bool,
                           evicted: seq<Entry>) {
    kept <= all && Fit(kept, max) == Fit(all, max) && evicted == Notified(log, notifies, all[|kept|..])
  }

  lemma NoneEvicted(all: seq<Entry>, max: nat, log: seq<Entry>, notifies: bool)
    ensures Evicting(all, all, max, log, notifies, log)
  {
    assert all[|all|..] == [] && log + [] == log;
  }

  lemma FitsNow(es: seq<Entry>, max: nat)
    requires max == 0 || Size(es) <= max
    ensures Fit(es, max) == es
  {
  }

  lemma EvictOne(all: seq<Entry>, kept: seq<Entry>, max: nat, log: seq<Entry>, notifies: bool, evicted: seq<Entry>)
    requires Evicting(all, kept, max, log, notifies, evicted) && max != 0 && Size(kept) > max
    ensures kept != [] && var last := |kept| - 1;
      Evicting(all, kept[..last], max, log, notifies, if notifies then evicted + [kept[last]] else evicted)
  {
    var last := |kept| - 1;
    ReverseSuffix(all, last);
    ShorterPrefix(all, kept);
    FitDropsLast(kept, max);
  }

  lemma ReverseSuffix(all: seq<Entry>, i: nat)
    requires i < |all|
    ensures Reverse(all[i..]) == Reverse(all[i + 1..]) + [all[i]]
  {
    assert all[i..] == [all[i]] + all[i + 1..];
    ReverseCons(all[i], all[i + 1..]);
  }

  lemma ShorterPrefix<T>(s: seq<T>, prefix: seq<T>)
    requires prefix <= s && prefix != []
    ensures prefix[..|prefix| - 1] <= s && prefix[|prefix| - 1] == s[|prefix| - 1]
  {
  }

  lemma FitDropsLast(es: seq<Entry>, max: nat)
    requires max != 0 && Size(es) > max
    ensures es != [] && Fit(es[..|es| - 1], max) == Fit(es, max)
  {
  }

  lemma TouchAt(es: seq<Entry>, i: nat)
    requires Distinct(es) && i < |es|
    ensures Find(es, es[i].key) == Some(es[i].value)
    ensures Touch(es, es[i].key) == ToFront(es, i)
  {
    PresentAt(es, i);
    assert ToFront(es, i) == [es[i]] + (es[..i] + es[i + 1..]);
  }

  lemma SizeOfFront(entry: Entry, rest: seq<Entry>)
    ensures Size([entry] + rest) == entry.Cost() + Size(rest)
  {
    SizeConcat([entry], rest);
  }

  lemma RefreshAt(es: seq<Entry>, i: nat, entry: Entry)
    requires Distinct(es) && i < |es| && es[i].key == entry.key
    ensures [entry] + Without(es, entry.key) == ToFront(es, i)[0 := entry]
    ensures Size(ToFront(es, i)[0 := entry]) == Size(es) + |entry.value| - |es[i].value|
  {
    var a, b := FrontParts(es, i, entry);
    SizeMoved(a, es[i], b);
    SizeOfFront(es[i], a + b);
    SizeOfFront(entry, a + b);
  }

  lemma SizeToFront(es: seq<Entry>, i: nat)
    requires i < |es|
    ensures Size(ToFront(es, i)) == Size(es)
  {
    var a, b := Parts(es, i);
    SizeMoved(a, es[i], b);
    SizeOfFront(es[i], a + b);
  }

  lemma Parts(es: seq<Entry>, i: nat) returns (a: seq<Entry>, b: seq<Entry>)
    requires i < |es|
    ensures a == es[..i] && b == es[i + 1..]
    ensures es == a + [es[i]] + b && ToFront(es, i) == [es[i]] + (a + b)
  {
    a, b := es[..i], es[i + 1..];
  }

  lemma FrontParts(es: seq<Entry>, i: nat, entry: Entry) returns (a: seq<Entry>, b: seq<Entry>)
    requires Distinct(es) && i < |es| && es[i].key == entry.key
    ensures es == a + [es[i]] + b && ToFront(es, i)[0 := entry] == [entry] + (a + b)
    ensures Without(es, entry.key) == a + b
  {
    a, b := Parts(es, i);
    PresentAt(es, i);
  }

  lemma SizeMoved(a: seq<Entry>, x: Entry, b: seq<Entry>)
    ensures Size(a + [x] + b) == x.Cost() + Size(a + b)
  {
    SizeConcat(a + [x], b);
    SizeConcat(a, b);
    SizeOfLast(a, x);
  }

  lemma SizeOfLast(es: seq<Entry>, entry: Entry)
    ensures Size(es + [entry]) == Size(es) + entry.Cost()
  {
    assert (es + [entry])[..|es|] == es;
  }
}
