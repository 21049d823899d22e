// Which lookups of a cluster come back, when every node waits for the peer it asks.
module Forwarding {
  import opened Options
  import opened ConsistentHash
  import opened HttpPool
  import opened PeerUrl
  import opened Cluster
  import opened Flights

  // Each node picks by the peers that it has set, and asks for the key as it arrives.
  function ByPicks(cfg: Config, lists: map<string, seq<string>>): Slot -> Option<Slot> {
    (s: Slot) =>
      if s.node !in lists then None
      else
        match Pick(cfg, lists[s.node], s.node, s.key)
        case None => None
        case Some(peer) => Some(Slot(peer, Arriving(s.key)))
  }

  // Nodes that agree on all owners forward a key at most once, or twice if it has a space.
  lemma AgreementEnds(cfg: Config, lists: map<string, seq<string>>, nodes: set<string>, s: Slot)
    requires Agreed(cfg, lists)
    ensures Net(nodes, ByPicks(cfg, lists)).Ends(s)
    ensures ' ' !in s.key ==> Net(nodes, ByPicks(cfg, lists)).EndsWithin(s, 1)
  {
    var net := Net(nodes, ByPicks(cfg, lists));
    ArrivesUnchangedIffNoSpace(s.key);
    ArrivesUnchangedIffNoSpace(Arriving(s.key));
    if net.Next(s).Some? {
      var t := net.Next(s).value;
      if net.Next(t).Some? {
        KeptAfterOneForward(cfg, lists, nodes, t);
      }
      if ' ' !in s.key {
        KeptAfterOneForward(cfg, lists, nodes, s);
      }
    }
    assert net.EndsWithin(s, 2);
  }

  lemma KeptAfterOneForward(cfg: Config, lists: map<string, seq<string>>, nodes: set<string>, s: Slot)
    requires Agreed(cfg, lists) && Arriving(s.key) == s.key
    requires Net(nodes, ByPicks(cfg, lists)).Next(s).Some?
    ensures var net := Net(nodes, ByPicks(cfg, lists)); net.Next(net.Next(s).value).None?
  {
  }

  // Two nodes that take each other for the owner of a key.
  lemma {:induction false} CycleNeverEnds(net: Net, s: Slot, t: Slot, d: nat)
    requires net.Next(s) == Some(t) && net.Next(t) == Some(s)
    ensures !net.EndsWithin(s, d)
    decreases d
  {
    if d > 0 {
      CycleNeverEnds(net, t, s, d - 1);
    }
  }

  // The two nodes, each with the peers as it has set them.
  function TwoNodes(cfg: Config, a: string, b: string): Net {
    Net({a, b}, ByPicks(cfg, map[a := [a, b], b := [b, a]]))
  }

  lemma PingPongNeverEnds(cfg: Config, a: string, b: string, key: string, n: string)
    requires a != b && PingPong(cfg, a, b, key) && ' ' !in key && (n == a || n == b)
    ensures !TwoNodes(cfg, a, b).Ends(Slot(n, key))
  {
    var net, s, t := TwoNodes(cfg, a, b), Slot(n, key), Slot(if n == a then b else a, key);
    ArrivesUnchangedIffNoSpace(key);
    assert net.Next(s) == Some(t) && net.Next(t) == Some(s);
    if d: nat :| net.EndsWithin(s, d) {
      CycleNeverEnds(net, s, t, d);
    }
  }

  // No Do for this key ever returns, on any node.
  ghost predicate NoneReturns(net: Net, key: string) {
    forall w, n, p: nat :: Reachable(net, w) && Has(w, n, p) && w.groups[n].procs[p].key == key ==>
      !CanReturn(net, w, n, p)
  }

  // With any collision of two peers, named without spaces, that set each other in
  // different orders, there is a key whose lookups all wait for one another:
  // whoever has asked for it, nothing that can still happen lets any of them return.
  lemma CollisionDeadlocks(cfg: Config, a: string, b: string, p: int)
    requires a != b && a != "" && b != "" && ' ' !in a && cfg.Has(a, p) && cfg.Has(b, p)
    ensures exists key :: NoneReturns(TwoNodes(cfg, a, b), key)
  {
    var net := TwoNodes(cfg, a, b);
    CollisionCanPingPong(cfg, a, b, p);
    var key :| PingPong(cfg, a, b, key) && ' ' !in key;
    forall w, n, q: nat | Reachable(net, w) && Has(w, n, q) && w.groups[n].procs[q].key == key
      ensures !CanReturn(net, w, n, q)
    {
      ReachableInv(net, w);
      PingPongNeverEnds(cfg, a, b, key, n);
      CanReturnIffChainEnds(net, w, n, q);
    }
    assert NoneReturns(net, key);
  }
}
