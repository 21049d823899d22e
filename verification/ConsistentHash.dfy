// The ring of virtual nodes: sorted hash points, each owned by a peer.
module ConsistentHash {
  import Sorting

  type uint32 = x: int | 0 <= x < 0x1_0000_0000

  // strconv.Itoa
  function Itoa(n: nat): string {
    if n < 10 then [Digit(n)] else Itoa(n / 10) + [Digit(n % 10)]
  }

  function Digit(d: nat): char
    requires d < 10
  {
    ['0', '1', '2', '3', '4', '5', '6', '7', '8', '9'][d]
  }

  predicate IsDigit(c: char) {
    '0' <= c <= '9'
  }

  function DigitValue(c: char): nat
    requires IsDigit(c)
  {
    c as int - '0' as int
  }

  // The number that a string of digits stands for, by their places.
  function Value(s: string): nat
    requires forall c :: c in s ==> IsDigit(c)
  {
    if s == [] then 0 else 10 * Value(s[..|s| - 1]) + DigitValue(s[|s| - 1])
  }

  // Itoa is the decimal numeral.
  lemma {:induction false} ItoaIsNumeral(n: nat)
    ensures Itoa(n) != "" && forall c :: c in Itoa(n) ==> IsDigit(c)
    ensures Itoa(n)[0] == '0' ==> n == 0 && Itoa(n) == "0"
    ensures Value(Itoa(n)) == n
  {
    var s := Itoa(n);
    if n < 10 {
      assert s[..0] == [];
      assert s == ["0123456789"[n]];
    } else {
      ItoaIsNumeral(n / 10);
      assert s[..|s| - 1] == Itoa(n / 10);
      assert Digit(n % 10) == "0123456789"[n % 10];
    }
  }

  // The names hashed for one peer are pairwise different.
  lemma VirtualNodesDiffer(i: nat, j: nat, name: string)
    ensures Itoa(i) + name == Itoa(j) + name <==> i == j
  {
    if Itoa(i) + name == Itoa(j) + name {
      ItoaIsNumeral(i);
      ItoaIsNumeral(j);
      assert (Itoa(i) + name)[..|Itoa(i)|] == Itoa(i) && (Itoa(j) + name)[..|Itoa(j)|] == Itoa(j);
    }
  }

  // The hash function and the number of virtual nodes of each peer.
  datatype Config = Config(hash: string -> uint32, replicas: int)
  {
    function Point(name: string, i: nat): int {
      hash(Itoa(i) + name)
    }

    // One of the first n virtual nodes of the peer is at p.
    ghost predicate HasBelow(name: string, n: int, p: int) {
      exists i: nat :: i < n && Point(name, i) == p
    }

    ghost predicate Has(name: string, p: int) {
      HasBelow(name, replicas, p)
    }
  }

  // Which peer owns each point.
  type Owners = map<int, string>

  function AddReplicas(cfg: Config, o: Owners, name: string, n: nat): Owners {
    if n == 0 then o else AddReplicas(cfg, o, name, n - 1)[cfg.Point(name, n - 1) := name]
  }

  function AddOne(cfg: Config, o: Owners, name: string): Owners {
    AddReplicas(cfg, o, name, if cfg.replicas < 0 then 0 else cfg.replicas)
  }

  function AddAll(cfg: Config, o: Owners, names: seq<string>): Owners {
    if names == [] then o else AddOne(cfg, AddAll(cfg, o, names[..|names| - 1]), names[|names| - 1])
  }

  // p is the first point at or after h, going round the ring.
  predicate Successor(points: set<int>, h: int, p: int) {
    && p in points
    && forall q :: q in points ==> if p >= h then q < h || p <= q else q < h && p <= q
  }

  lemma {:induction false} SuccessorExists(points: set<int>, h: int)
    requires points != {}
    ensures exists p :: Successor(points, h, p)
    decreases points
  {
    if !exists x :: x in points {
      assert false;
    }
    var x :| x in points;
    if points == {x} {
      assert Successor(points, h, x);
    } else {
      SuccessorExists(points - {x}, h);
      var p :| Successor(points - {x}, h, p);
      var nearest := if (x >= h) == (p >= h) then (if x <= p then x else p) else if x >= h then x else p;
      forall q | q in points
        ensures if nearest >= h then q < h || nearest <= q else q < h && nearest <= q
      {
        assert q == x || q in points - {x};
      }
      assert Successor(points, h, nearest);
    }
  }

  // The owner of the point that succeeds h; nobody on an empty ring.
  function Lookup(o: Owners, h: int): string {
    if o == map[] then ""
    else
      assert o.Keys != {};
      SuccessorExists(o.Keys, h);
      var p :| Successor(o.Keys, h, p);
      o[p]
  }

  class Map {
    const cfg: Config
    var keys: seq<int>
    var hashMap: Owners

    ghost predicate Valid()
      reads this
    {
      Sorting.Sorted(keys) && forall p :: p in keys <==> p in hashMap
    }

    constructor (replicas: int, hash: string -> uint32)
      ensures Valid() && cfg == Config(hash, replicas) && hashMap == map[]
    {
      cfg := Config(hash, replicas);
      keys := [];
      hashMap := map[];
    }

    method Add(names: seq<string>)
      requires Valid()
      modifies this
      ensures Valid() && hashMap == AddAll(cfg, old(hashMap), names)
    {
      for n := 0 to |names|
        invariant hashMap == AddAll(cfg, old(hashMap), names[..n])
        invariant forall p :: p in keys <==> p in hashMap
      {
        var name := names[n];
        var i := 0;
        while i < cfg.replicas
          invariant 0 <= i && (i <= cfg.replicas || cfg.replicas < 0 == i)
          invariant hashMap == AddReplicas(cfg, AddAll(cfg, old(hashMap), names[..n]), name, i)
          invariant forall p :: p in keys <==> p in hashMap
        {
          var hash := cfg.hash(Itoa(i) + name);
          keys := keys + [hash];
          hashMap := hashMap[hash := name];
          i := i + 1;
        }
        assert names[..n + 1][..n] == names[..n];
      }
      assert names[..|names|] == names;
      var sorted := Sorting.Ints(keys);
      assert forall p :: p in sorted <==> p in multiset(sorted);
      assert forall p :: p in keys <==> p in multiset(keys);
      keys := sorted;
    }

    method Get(key: string) returns (name: string)
      requires Valid()
      ensures name == Lookup(hashMap, cfg.hash(key))
    {
      if |keys| == 0 {
        assert forall p :: p !in hashMap;
        assert hashMap == map[];
        return "";
      }
      var hash := cfg.hash(key);
      var idx := Sorting.SearchInts(keys, hash);
      var first := idx % |keys|;
      assert first == if idx < |keys| then idx else 0;
      var p := keys[first];
      SortedSuccessor(keys, hashMap.Keys, hash, idx);
      LookupIs(hashMap, hash, p);
      return hashMap[p];
    }
  }

  // On sorted keys the least index at or above h gives the successor.
  lemma SortedSuccessor(keys: seq<int>, points: set<int>, h: int, idx: nat)
    requires Sorting.Sorted(keys) && keys != [] && (forall p :: p in keys <==> p in points) && idx <= |keys|
    requires forall k :: 0 <= k < |keys| ==> (keys[k] >= h <==> k >= idx)
    ensures Successor(points, h, keys[if idx < |keys| then idx else 0])
  {
    var p := keys[if idx < |keys| then idx else 0];
    forall q | q in points
      ensures if p >= h then q < h || p <= q else q < h && p <= q
    {
      var j :| 0 <= j < |keys| && keys[j] == q;
    }
  }

  lemma LookupIs(o: Owners, h: int, p: int)
    requires Successor(o.Keys, h, p)
    ensures p in o && Lookup(o, h) == o[p]
  {
    assert o != map[];
    assert forall q :: Successor(o.Keys, h, q) ==> q == p;
  }

  // The owner of the least point at or above h ...
  lemma LeastAtOrAboveOwns(o: Owners, h: int, p: int)
    requires p in o && p >= h && forall q :: q in o && q >= h ==> p <= q
    ensures Lookup(o, h) == o[p]
  {
    LookupIs(o, h, p);
  }

  // ... or of the least point of all, if there is none at or above h.
  lemma LeastOwnsAtTheEnd(o: Owners, h: int, p: int)
    requires p in o && forall q :: q in o ==> p <= q < h
    ensures Lookup(o, h) == o[p]
  {
    LookupIs(o, h, p);
  }

  // ---- what Add does to the owners ----

  lemma {:induction false} ReplicasOwned(cfg: Config, o: Owners, name: string, n: nat, p: int)
    ensures p in AddReplicas(cfg, o, name, n) <==> p in o || cfg.HasBelow(name, n, p)
    ensures p in AddReplicas(cfg, o, name, n) ==>
      AddReplicas(cfg, o, name, n)[p] == if cfg.HasBelow(name, n, p) then name else o[p]
  {
    if n > 0 {
      ReplicasOwned(cfg, o, name, n - 1, p);
      HasOneMore(cfg, name, n, p);
    }
  }

  lemma HasOneMore(cfg: Config, name: string, n: nat, p: int)
    requires n > 0
    ensures cfg.HasBelow(name, n, p) <==> cfg.HasBelow(name, n - 1, p) || cfg.Point(name, n - 1) == p
  {
    if cfg.HasBelow(name, n, p) {
      var i: nat :| i < n && cfg.Point(name, i) == p;
    } else {
      assert cfg.Point(name, n - 1) != p;
    }
  }

  lemma AddOneOwned(cfg: Config, o: Owners, name: string, p: int)
    ensures p in AddOne(cfg, o, name) <==> p in o || cfg.Has(name, p)
    ensures p in AddOne(cfg, o, name) ==> AddOne(cfg, o, name)[p] == if cfg.Has(name, p) then name else o[p]
  {
    ReplicasOwned(cfg, o, name, if cfg.replicas < 0 then 0 else cfg.replicas, p);
  }

  // A point is owned by a peer that has it, and by one of those added if any of them has it.
  lemma {:induction false} AddAllOwned(cfg: Config, o: Owners, names: seq<string>, p: int)
    ensures p in AddAll(cfg, o, names) <==> p in o || exists n :: n in names && cfg.Has(n, p)
    ensures p in AddAll(cfg, o, names) ==> var owner := AddAll(cfg, o, names)[p];
      || (owner in names && cfg.Has(owner, p))
      || (p in o && owner == o[p] && forall n :: n in names ==> !cfg.Has(n, p))
    decreases |names|
  {
    if names != [] {
      var front, last := names[..|names| - 1], names[|names| - 1];
      AddAllOwned(cfg, o, front, p);
      AddOneOwned(cfg, AddAll(cfg, o, front), last, p);
      assert forall n :: n in names <==> n in front || n == last;
    }
  }

  // ---- main results ----

  // After adding peers, every key stays where it was or moves to one of the new
  // peers, even if hashes collide or a peer is added again.
  lemma KeysMoveOnlyToNewPeers(cfg: Config, o: Owners, names: seq<string>, h: int)
    ensures var owner := Lookup(AddAll(cfg, o, names), h); owner == Lookup(o, h) || owner in names
  {
    var o' := AddAll(cfg, o, names);
    forall p
      ensures p in o ==> p in o'
      ensures p in o' && o'[p] !in names ==> p in o && o'[p] == o[p]
    {
      AddAllOwned(cfg, o, names, p);
    }
    if o' != map[] {
      var p := SuccessorOf(o', h);
      if o'[p] !in names {
        assert Successor(o.Keys, h, p);
        LookupIs(o, h, p);
      }
    }
  }

  lemma SuccessorOf(o: Owners, h: int) returns (p: int)
    requires o != map[]
    ensures Successor(o.Keys, h, p) && Lookup(o, h) == o[p]
  {
    assert o.Keys != {};
    SuccessorExists(o.Keys, h);
    p :| Successor(o.Keys, h, p);
    LookupIs(o, h, p);
  }

  ghost predicate NoCollision(cfg: Config, names: seq<string>) {
    forall a, b, p :: a in names && b in names && cfg.Has(a, p) && cfg.Has(b, p) ==> a == b
  }

  // The peer that a ring built from `names` picks for a key.
  function Owner(cfg: Config, names: seq<string>, key: string): string {
    Lookup(AddAll(cfg, map[], names), cfg.hash(key))
  }

  // Without collisions the order and the multiplicity of the peers do not matter.
  lemma SamePeersSameRing(cfg: Config, names: seq<string>, others: seq<string>)
    requires NoCollision(cfg, names)
    requires forall n :: n in names <==> n in others
    ensures AddAll(cfg, map[], names) == AddAll(cfg, map[], others)
  {
    forall p
      ensures p in AddAll(cfg, map[], names) <==> p in AddAll(cfg, map[], others)
      ensures p in AddAll(cfg, map[], names) ==> AddAll(cfg, map[], names)[p] == AddAll(cfg, map[], others)[p]
    {
      AddAllOwned(cfg, map[], names, p);
      AddAllOwned(cfg, map[], others, p);
    }
  }

  // Whoever is added last owns all its points.
  lemma LastAddedOwns(cfg: Config, names: seq<string>, last: string, i: nat)
    requires i < cfg.replicas
    ensures Owner(cfg, names + [last], Itoa(i) + last) == last
    ensures forall name, j: nat :: cfg.Point(name, j) == cfg.Point(last, i) ==>
      Owner(cfg, names + [last], Itoa(j) + name) == last
  {
    var o := AddAll(cfg, map[], names + [last]);
    assert (names + [last])[..|names|] == names;
    var p := cfg.Point(last, i);
    AddOneOwned(cfg, AddAll(cfg, map[], names), last, p);
    assert cfg.Has(last, p);
    assert Successor(o.Keys, p, p);
    LookupIs(o, p, p);
  }

  // All orders of the same peers agree on every key exactly when no two peers
  // have a virtual node in the same place.
  lemma OrdersAgreeIffNoCollision(cfg: Config, names: seq<string>)
    ensures NoCollision(cfg, names) <==>
      forall others, key :: multiset(others) == multiset(names) ==> Owner(cfg, others, key) == Owner(cfg, names, key)
  {
    if NoCollision(cfg, names) {
      forall others, key | multiset(others) == multiset(names)
        ensures Owner(cfg, others, key) == Owner(cfg, names, key)
      {
        SameElements(names, others);
        SamePeersSameRing(cfg, names, others);
      }
    } else {
      var a, b, p :| a in names && b in names && cfg.Has(a, p) && cfg.Has(b, p) && a != b;
      var i: nat :| i < cfg.replicas && cfg.Point(a, i) == p;
      var j: nat :| j < cfg.replicas && cfg.Point(b, j) == p;
      var aLast := MoveToEnd(names, a);
      var bLast := MoveToEnd(names, b);
      var key := Itoa(i) + a;
      LastAddedOwns(cfg, aLast[..|names| - 1], a, i);
      LastAddedOwns(cfg, bLast[..|names| - 1], b, j);
      assert aLast == aLast[..|names| - 1] + [a] && bLast == bLast[..|names| - 1] + [b];
      assert Owner(cfg, aLast, key) == a && Owner(cfg, bLast, key) == b;
    }
  }

  lemma SameElements(s: seq<string>, t: seq<string>)
    requires multiset(s) == multiset(t)
    ensures forall x :: x in s <==> x in t
  {
    assert forall x :: x in s <==> x in multiset(s);
    assert forall x :: x in t <==> x in multiset(t);
  }

  lemma MoveToEnd(names: seq<string>, x: string) returns (moved: seq<string>)
    requires x in names
    ensures multiset(moved) == multiset(names) && |moved| == |names| && moved[|moved| - 1] == x
  {
    var i :| 0 <= i < |names| && names[i] == x;
    moved := names[..i] + names[i + 1..] + [x];
    assert names == names[..i] + [x] + names[i + 1..];
  }
}
