// Choosing the peer that a key belongs to.
module HttpPool {
  import opened Options
  import opened ConsistentHash

  const REPLICAS := 50
  const BASE_PATH := "/_geecache/"

  // Which peer a node with these peers asks for the key, if any.
  function Pick(cfg: Config, names: seq<string>, self: string, key: string): Option<string> {
    var owner := Owner(cfg, names, key);
    if owner != "" && owner != self then Some(owner) else None
  }

  class Pool {
    const self: string
    const hash: string -> uint32
    var peers: Map?
    var getters: map<string, string>  // base URL of each peer
    ghost var names: seq<string>      // the argument of the latest Set

    ghost function Cfg(): Config {
      Config(hash, REPLICAS)
    }

    ghost predicate Valid()
      reads this, peers
    {
      peers != null ==>
        && peers.Valid() && peers.cfg == Cfg() && peers.hashMap == AddAll(Cfg(), map[], names)
        && forall n :: n in names ==> n in getters && getters[n] == n + BASE_PATH
    }

    constructor (self: string, hash: string -> uint32)
      ensures Valid() && peers == null && this.self == self && this.hash == hash
    {
      this.self, this.hash := self, hash;
      peers, getters, names := null, map[], [];
    }

    method Set(names: seq<string>)
      modifies this
      ensures Valid() && peers != null && fresh(peers) && this.names == names
      ensures forall n :: n in getters <==> n in names
    {
      var ring := new Map(REPLICAS, hash);
      ring.Add(names);
      peers := ring;
      getters := map[];
      this.names := names;
      for i := 0 to |names|
        modifies this
        invariant peers == ring && this.names == names
        invariant forall n :: n in names[..i] ==> n in getters && getters[n] == n + BASE_PATH
        invariant forall n :: n in getters ==> n in names[..i]
      {
        getters := getters[names[i] := names[i] + BASE_PATH];
      }
      assert names[..|names|] == names;
    }

    // Once Set has been called, the getter returned is always there.
    method PickPeer(key: string) returns (getter: string, ok: bool)
      requires Valid() && peers != null
      ensures var owner := Owner(Cfg(), names, key);
        (ok <==> owner != "" && owner != self) && (ok ==> owner in names && getter == owner + BASE_PATH)
      ensures ok <==> Pick(Cfg(), names, self, key).Some?
      ensures ok ==> getter == Pick(Cfg(), names, self, key).value + BASE_PATH
    {
      var peer := peers.Get(key);
      if peer != "" && peer != self {
        OwnerIsPeer(Cfg(), names, key);
        return getters[peer], true;
      }
      return "", false;
    }
  }

  lemma OwnerIsPeer(cfg: Config, names: seq<string>, key: string)
    ensures Owner(cfg, names, key) == "" || Owner(cfg, names, key) in names
  {
    KeysMoveOnlyToNewPeers(cfg, map[], names, cfg.hash(key));
  }

  // Nodes with the same peers, set in any order, agree: what one forwards, the
  // receiver keeps.
  lemma PickedPeerKeepsTheKey(cfg: Config, names: seq<string>, others: seq<string>, self: string, key: string)
    requires NoCollision(cfg, names) && forall n :: n in names <==> n in others
    requires Pick(cfg, names, self, key).Some?
    ensures Pick(cfg, names, self, key).value == Owner(cfg, names, key) == Owner(cfg, others, key) != self
    ensures Pick(cfg, others, Owner(cfg, others, key), key) == None
  {
    SamePeersSameRing(cfg, names, others);
  }

  // With a collision two nodes that set their peers in different orders can
  // each take the other for the owner of a key.
  lemma CollisionCanPingPong(cfg: Config, a: string, b: string, p: int)
    requires a != b && a != "" && b != "" && cfg.Has(a, p) && cfg.Has(b, p)
    ensures exists key :: PingPong(cfg, a, b, key) && (' ' !in a ==> ' ' !in key)
  {
    var i: nat :| i < cfg.replicas && cfg.Point(a, i) == p;
    var j: nat :| j < cfg.replicas && cfg.Point(b, j) == p;
    var key := Itoa(i) + a;
    ItoaIsNumeral(i);
    LastAddedOwns(cfg, [a], b, j);
    LastAddedOwns(cfg, [b], a, i);
    assert [a] + [b] == [a, b] && [b] + [a] == [b, a];
    assert Owner(cfg, [a, b], key) == b && Owner(cfg, [b, a], key) == a;
    assert PingPong(cfg, a, b, key);
  }

  ghost predicate PingPong(cfg: Config, a: string, b: string, key: string) {
    Pick(cfg, [a, b], a, key) == Some(b) && Pick(cfg, [b, a], b, key) == Some(a)
  }
}
