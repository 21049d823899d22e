// One cache group served by several nodes. Each node has its own cache, kept as
// the entries that Lru.Cache is proved to hold, and its own list of peers, from
// which HttpPool.Pool is proved to pick as Pick does. All nodes load from the
// same source.
module Cluster {
  import opened Options
  import opened ConsistentHash
  import opened HttpPool
  import opened LruSpec
  import opened PeerUrl

  datatype Result = Ok(value: string) | Err(error: string)

  const KEY_REQUIRED := "key is required"

  // What each node has cached.
  type Caches = map<string, seq<Entry>>

  // What becomes of a request from one node to another this time: it does not
  // arrive, it is served but the response is lost, or both get through.
  datatype Delivery = Down | Lost | Through

  type Transport = (string, string) -> Delivery

  // The nodes that registered peers agree on the owner of every key.
  ghost predicate Agreed(cfg: Config, lists: map<string, seq<string>>) {
    forall m, n, key :: m in lists && n in lists ==> Owner(cfg, lists[m], key) == Owner(cfg, lists[n], key)
  }

  // They do if they set the same peers, in whatever order, and no two collide on the ring.
  lemma SamePeersAgree(cfg: Config, lists: map<string, seq<string>>, members: seq<string>)
    requires NoCollision(cfg, members)
    requires forall n :: n in lists ==> forall m :: m in lists[n] <==> m in members
    ensures Agreed(cfg, lists)
  {
    forall n | n in lists
      ensures AddAll(cfg, map[], lists[n]) == AddAll(cfg, map[], members)
    {
      SamePeersSameRing(cfg, members, lists[n]);
    }
  }

  // What a node answers, by whether it has the key cached and whether the
  // response of the peer it would ask comes back. The peer is asked for the key
  // as it arrives.
  function Answer(getter: string -> Result, key: string, hit: bool, remote: bool): Result {
    if key == "" then Err(KEY_REQUIRED)
    else if !hit && remote && getter(Arriving(key)).Ok? then getter(Arriving(key))
    else getter(key)
  }

  // A forwarded lookup is transparent, whatever the source holds, exactly for
  // keys without a space.
  lemma TransparentIffNoSpace(key: string)
    requires key != ""
    ensures ' ' !in key <==> forall getter :: Answer(getter, key, false, true) == getter(key)
  {
    ArrivesUnchangedIffNoSpace(key);
    var echo := (k: string) => Ok(k);
    if ' ' in key {
      assert Answer(echo, key, false, true) == Ok(Arriving(key));
    }
  }

  datatype Lookup = Lookup(node: string, key: string, up: Transport)

  class Cluster {
    const cfg: Config
    const getter: string -> Result
    const maxBytes: map<string, nat>      // the cache size of each node
    const lists: map<string, seq<string>> // what the nodes that registered peers have set
    var caches: Caches

    // The peer that a node asks for a key instead of loading it.
    function Forward(node: string, key: string): Option<string> {
      if node in lists then Pick(cfg, lists[node], node, key) else None
    }

    // Every cached value is the source's.
    ghost predicate Honest()
      reads this
    {
      forall n :: n in caches ==> HonestEntries(caches[n])
    }

    ghost predicate HonestEntries(es: seq<Entry>) {
      forall e :: e in es ==> getter(e.key) == Ok(e.value)
    }

    // The owner of the key, by the peers that the node has set, is no other node.
    ghost predicate Keeps(node: string, key: string) {
      node in lists ==> Owner(cfg, lists[node], key) == node || Owner(cfg, lists[node], key) == ""
    }

    // Every key is cached only on nodes that keep it.
    ghost predicate Placed()
      reads this
    {
      forall n :: n in caches ==> PlacedEntries(n, caches[n])
    }

    ghost predicate PlacedEntries(node: string, es: seq<Entry>) {
      forall e :: e in es ==> Keeps(node, e.key)
    }

    ghost predicate Valid()
      reads this
    {
      Agreed(cfg, lists) && caches.Keys == maxBytes.Keys && Honest()
    }

    constructor (cfg: Config, getter: string -> Result, maxBytes: map<string, nat>,
                 lists: map<string, seq<string>>)
      requires Agreed(cfg, lists)
      ensures Valid() && Placed()
      ensures this.cfg == cfg && this.getter == getter && this.maxBytes == maxBytes
      ensures this.lists == lists
      ensures forall n :: n in maxBytes ==> caches[n] == []
    {
      this.cfg, this.getter, this.maxBytes := cfg, getter, maxBytes;
      this.lists := lists;
      caches := map n | n in maxBytes :: [];
    }

    // The picked peer gets the request ...
    ghost predicate Asked(node: string, key: string, up: Transport) {
      var peer := Forward(node, key);
      peer.Some? && peer.value in maxBytes && !up(node, peer.value).Down?
    }

    // ... and its response comes back.
    ghost predicate Heard(node: string, key: string, up: Transport) {
      Asked(node, key, up) && up(node, Forward(node, key).value).Through?
    }

    function Spaced(key: string): nat { if ' ' in key then 1 else 0 }

    ghost function Hops(node: string, key: string): nat {
      if Forward(node, key).Some? then 1 else 0
    }

    // Every peer is up, reachable and one of the nodes.
    ghost predicate AllReachable(up: Transport) {
      && (forall a, b :: up(a, b).Through?)
      && forall n, m :: n in lists && m in lists[n] ==> m in maxBytes
    }

    // getLocally and populateCache, seen from the caches.
    function Populated(cs: Caches, node: string, key: string): (r: Caches)
      requires node in maxBytes && node in cs
    {
      match getter(key)
      case Ok(value) => cs[node := Add(cs[node], key, value, maxBytes[node])]
      case Err(_) => cs
    }

    // All caches after a lookup on one node.
    ghost function CachesAfter(cs: Caches, node: string, key: string, up: Transport): (r: Caches)
      requires Agreed(cfg, lists) && cs.Keys == maxBytes.Keys && node in maxBytes
      ensures r.Keys == cs.Keys
      decreases Spaced(key), Hops(node, key)
    {
      if key == "" then cs
      else if Find(cs[node], key).Some? then cs[node := Touch(cs[node], key)]
      else if Asked(node, key, up) then
        KeptByPeer(node, key);
        ArrivesUnchangedIffNoSpace(key);
        ArrivesUnchangedIffNoSpace(Arriving(key));
        var asked := CachesAfter(cs, Forward(node, key).value, Arriving(key), up);
        if Heard(node, key, up) && getter(Arriving(key)).Ok? then asked else Populated(asked, node, key)
      else Populated(cs, node, key)
    }

    // If the source has the key, it has the key that arrives at a peer.
    predicate Provided(key: string) {
      getter(key).Ok? ==> getter(Arriving(key)).Ok?
    }

    // Group.Get on one node.
    method Get(node: string, key: string, up: Transport) returns (r: Result, ghost hops: nat)
      requires Valid() && node in maxBytes
      modifies this
      decreases Spaced(key), Hops(node, key), 2
      ensures Valid()
      ensures r == Answer(getter, key, Find(old(caches[node]), key).Some?, Heard(node, key, up))
      ensures caches == CachesAfter(old(caches), node, key, up)
      ensures hops <= Spaced(key) + Hops(node, key)
      ensures old(Placed()) && AllReachable(up) && Provided(key) ==> Placed()
    {
      if key == "" {
        return Err(KEY_REQUIRED), 0;
      }
      var hit := Find(caches[node], key);
      if hit.Some? {
        TouchedFrom(caches[node], node, key);
        caches := caches[node := Touch(caches[node], key)];
        return Ok(hit.value), 0;
      }
      r, hops := Load(node, key, up);
    }

    // Group.load, with the function it passes to singleflight.
    method Load(node: string, key: string, up: Transport) returns (r: Result, ghost hops: nat)
      requires Valid() && node in maxBytes && key != "" && Find(caches[node], key).None?
      modifies this
      decreases Spaced(key), Hops(node, key), 1
      ensures Valid()
      ensures r == Answer(getter, key, false, Heard(node, key, up))
      ensures caches == CachesAfter(old(caches), node, key, up)
      ensures hops <= Spaced(key) + Hops(node, key)
      ensures old(Placed()) && AllReachable(up) && Provided(key) ==> Placed()
    {
      hops := 0;
      var peer := Forward(node, key);
      if peer.Some? {
        ArrivesUnchangedIffNoSpace(key);
        ArrivesUnchangedIffNoSpace(Arriving(key));
        KeptByPeer(node, key);
        if peer.value in maxBytes && !up(node, peer.value).Down? {
          r, hops := Get(peer.value, Arriving(key), up);
          hops := hops + 1;
          if r.Ok? && up(node, peer.value).Through? {
            return;
          }
        }
      }
      r := GetLocally(node, key);
    }

    // Group.getLocally and populateCache.
    method GetLocally(node: string, key: string) returns (r: Result)
      requires Valid() && node in maxBytes
      modifies this
      ensures Valid() && r == getter(key) && caches == Populated(old(caches), node, key)
      ensures old(Placed()) && (r.Err? || Forward(node, key) == None) ==> Placed()
    {
      r := getter(key);
      if r.Ok? {
        AddedFrom(caches[node], node, key, r.value, maxBytes[node]);
        caches := caches[node := Add(caches[node], key, r.value, maxBytes[node])];
      }
    }

    // The source's answer, for keys that arrive unchanged.
    ghost predicate Answered(key: string, r: Result) {
      if key == "" then r == Err(KEY_REQUIRED)
      else if ' ' !in key then r == getter(key)
      else r == getter(key) || (getter(Arriving(key)).Ok? && r == getter(Arriving(key)))
    }

    ghost predicate Undisturbed(l: Lookup) {
      AllReachable(l.up) && Provided(l.key)
    }

    // Any run of lookups on any nodes, with the transport failing or not.
    method Serve(lookups: seq<Lookup>) returns (results: seq<Result>)
      requires Valid() && forall i :: 0 <= i < |lookups| ==> lookups[i].node in maxBytes
      modifies this
      ensures Valid() && |results| == |lookups|
      ensures forall i :: 0 <= i < |lookups| ==> Answered(lookups[i].key, results[i])
      ensures old(Placed()) && (forall i :: 0 <= i < |lookups| ==> Undisturbed(lookups[i])) ==> Placed()
    {
      results := [];
      for n := 0 to |lookups|
        invariant Valid() && |results| == n
        invariant forall i :: 0 <= i < n ==> Answered(lookups[i].key, results[i])
        invariant old(Placed()) && (forall i :: 0 <= i < n ==> Undisturbed(lookups[i])) ==> Placed()
      {
        ArrivesUnchangedIffNoSpace(lookups[n].key);
        var r, hops := Get(lookups[n].node, lookups[n].key, lookups[n].up);
        results := results + [r];
      }
    }

    // A lookup of a key without a space is a read-through access to one cache,
    // the node's own if it has the key or asks nobody, and else its peer's; to
    // both if the peer's response is lost. What comes from a peer is not cached
    // again, and errors are not cached at all.
    lemma LookupIsAccess(cs: Caches, node: string, key: string, up: Transport)
      requires Agreed(cfg, lists) && cs.Keys == maxBytes.Keys && node in maxBytes
      requires forall n :: n in cs ==> HonestEntries(cs[n])
      requires key != "" && ' ' !in key
      ensures !Forwarded(cs, node, key, up) ==> CachesAfter(cs, node, key, up) == Accessed(cs, node, key)
      ensures Forwarded(cs, node, key, up) && Heard(node, key, up) ==>
        CachesAfter(cs, node, key, up) == Accessed(cs, Forward(node, key).value, key)
      ensures Forwarded(cs, node, key, up) && !Heard(node, key, up) ==>
        CachesAfter(cs, node, key, up) == Accessed(Accessed(cs, Forward(node, key).value, key), node, key)
    {
      if Forwarded(cs, node, key, up) {
        ArrivesUnchangedIffNoSpace(key);
        KeptByPeer(node, key);
        OwnAccess(cs, Forward(node, key).value, key, up);
        assert Forward(node, key).value != node;
      } else {
        OwnAccess(cs, node, key, up);
      }
    }

    ghost predicate Forwarded(cs: Caches, node: string, key: string, up: Transport)
      requires node in cs
    {
      Find(cs[node], key).None? && Asked(node, key, up)
    }

    ghost predicate AllPlaced(cs: Caches) {
      forall n :: n in cs ==> PlacedEntries(n, cs[n])
    }

    // While transport does not fail, a lookup that is forwarded, of a value that
    // fits the budget, leaves every key on nodes that keep it if and only if the
    // source does not have the key without having the one that arrives.
    lemma PlacedIffProvided(cs: Caches, node: string, key: string, up: Transport)
      requires Agreed(cfg, lists) && cs.Keys == maxBytes.Keys && node in maxBytes && key != "" && AllReachable(up)
      requires AllPlaced(cs) && forall n :: n in cs ==> HonestEntries(cs[n])
      requires Find(cs[node], key).None? && Forward(node, key).Some?
      requires getter(key).Ok? ==> maxBytes[node] == 0 || Entry(key, getter(key).value).Cost() <= maxBytes[node]
      ensures AllPlaced(CachesAfter(cs, node, key, up)) <==> Provided(key)
    {
      var peer, arriving := Forward(node, key).value, Arriving(key);
      KeptByPeer(node, key);
      ArrivesUnchangedIffNoSpace(key);
      ArrivesUnchangedIffNoSpace(arriving);
      var asked := CachesAfter(cs, peer, arriving, up);
      SpacelessStaysPlaced(cs, peer, arriving, up);
      if getter(arriving).Err? && getter(key).Ok? {
        var entry := Entry(key, getter(key).value);
        NewestStays(asked[node], entry, maxBytes[node]);
        assert entry in Populated(asked, node, key)[node];
      }
    }

    lemma SpacelessStaysPlaced(cs: Caches, node: string, key: string, up: Transport)
      requires Agreed(cfg, lists) && cs.Keys == maxBytes.Keys && node in maxBytes && AllReachable(up)
      requires AllPlaced(cs) && forall n :: n in cs ==> HonestEntries(cs[n])
      requires key != "" && ' ' !in key
      ensures AllPlaced(CachesAfter(cs, node, key, up))
    {
      LookupIsAccess(cs, node, key, up);
      if Forward(node, key).Some? {
        KeptByPeer(node, key);
      }
      AccessStaysPlaced(cs, if Forwarded(cs, node, key, up) then Forward(node, key).value else node, key);
    }

    lemma AccessStaysPlaced(cs: Caches, node: string, key: string)
      requires node in cs && node in maxBytes && AllPlaced(cs)
      requires Find(cs[node], key).Some? || Forward(node, key) == None
      ensures AllPlaced(Accessed(cs, node, key))
    {
      if getter(key).Ok? {
        TouchedFrom(cs[node], node, key);
        AddedFrom(cs[node], node, key, getter(key).value, maxBytes[node]);
      }
    }

    // A node that has the key or asks nobody.
    lemma OwnAccess(cs: Caches, node: string, key: string, up: Transport)
      requires Agreed(cfg, lists) && cs.Keys == maxBytes.Keys && node in maxBytes && HonestEntries(cs[node])
      requires key != "" && !Forwarded(cs, node, key, up)
      ensures CachesAfter(cs, node, key, up) == Accessed(cs, node, key)
    {
      FindFrom(cs[node], key);
    }

    // The caches after a read-through access to one of them.
    function Accessed(cs: Caches, node: string, key: string): Caches
      requires node in cs && node in maxBytes
    {
      if getter(key).Err? then cs
      else cs[node := After(cs[node], Access(key, getter(key).value), maxBytes[node])]
    }

    // The peer picked for a key keeps the key that arrives, if it arrives unchanged.
    lemma KeptByPeer(node: string, key: string)
      requires Agreed(cfg, lists) && Forward(node, key).Some?
      ensures Forward(Forward(node, key).value, key) == None
      ensures node in lists && Forward(node, key).value == Owner(cfg, lists[node], key) != node
      ensures node in lists && Forward(node, key).value in lists[node]
    {
      OwnerIsPeer(cfg, lists[node], key);
    }

    // Refreshing adds no entry.
    lemma TouchedFrom(es: seq<Entry>, node: string, key: string)
      ensures HonestEntries(es) ==> HonestEntries(Touch(es, key))
      ensures HonestEntries(es) && Find(es, key).Some? ==> getter(key) == Ok(Find(es, key).value)
      ensures PlacedEntries(node, es) ==> PlacedEntries(node, Touch(es, key))
    {
      WithoutFrom(es, key);
      FindFrom(es, key);
    }

    // Adding a key adds that key's entry only.
    lemma AddedFrom(es: seq<Entry>, node: string, key: string, value: string, max: nat)
      ensures HonestEntries(es) && getter(key) == Ok(value) ==> HonestEntries(Add(es, key, value, max))
      ensures PlacedEntries(node, es) && Forward(node, key) == None ==> PlacedEntries(node, Add(es, key, value, max))
    {
      WithoutFrom(es, key);
      FitIsLongestPrefix([Entry(key, value)] + Without(es, key), max);
    }
  }

  lemma {:induction false} WithoutFrom(es: seq<Entry>, key: string)
    ensures forall e :: e in Without(es, key) ==> e in es
  {
    if es != [] {
      WithoutFrom(es[1..], key);
    }
  }

  lemma {:induction false} FindFrom(es: seq<Entry>, key: string)
    ensures Find(es, key).Some? ==> Entry(key, Find(es, key).value) in es
  {
    if es != [] {
      FindFrom(es[1..], key);
    }
  }

  lemma NewestStays(es: seq<Entry>, entry: Entry, max: nat)
    requires max == 0 || entry.Cost() <= max
    ensures entry in Add(es, entry.key, entry.value, max)
  {
    var all := [entry] + Without(es, entry.key);
    FitIsLongestPrefix(all, max);
    assert all[..1] == [entry] && [entry][..0] == [];
    assert Size(all[..1]) == entry.Cost();
  }
}
