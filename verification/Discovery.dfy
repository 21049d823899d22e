// Choosing a server: a list that can be replaced at any time, and the position
// of the round robin.
module Discovery {
  // RandomSelect, RoundRobinSelect, or a number that is neither.
  datatype Mode = Random | RoundRobin | Unsupported

  datatype Error = NoServers | UnsupportedMode

  datatype Choice = Chosen(server: string) | Failed(error: Error)

  // One call of Get; a random selection comes with the number drawn for it.
  datatype Request = Request(mode: Mode, draw: nat)

  function Choose(servers: seq<string>, index: nat, r: Request): Choice {
    if servers == [] then Failed(NoServers)
    else match r.mode
      case Random => Chosen(servers[r.draw % |servers|])
      case RoundRobin => Chosen(servers[index % |servers|])
      case Unsupported => Failed(UnsupportedMode)
  }

  function Moved(servers: seq<string>, index: nat, r: Request): nat {
    if servers == [] || !r.mode.RoundRobin? then index else (index + 1) % |servers|
  }

  class MultiServersDiscovery {
    var servers: seq<string>
    var index: nat

    // The round robin starts anywhere.
    constructor (servers: seq<string>, index: nat)
      ensures this.servers == servers && this.index == index
    {
      this.servers, this.index := servers, index;
    }

    method Update(servers: seq<string>)
      modifies this`servers
      ensures this.servers == servers
    {
      this.servers := servers;
    }

    method Get(mode: Mode, draw: nat) returns (choice: Choice)
      modifies this`index
      ensures choice == Choose(servers, old(index), Request(mode, draw))
      ensures servers == [] ==> choice == Failed(NoServers)
      ensures servers != [] && mode.Unsupported? ==> choice == Failed(UnsupportedMode)
      ensures servers != [] && !mode.Unsupported? ==> choice.Chosen? && choice.server in servers
      ensures servers != [] && mode.Random? && draw < |servers| ==> choice == Chosen(servers[draw])
      ensures servers != [] && mode.RoundRobin? && old(index) < |servers| ==> choice == Chosen(servers[old(index)])
      ensures index != old(index) ==> servers != [] && mode.RoundRobin? && index < |servers|
      ensures index == Moved(servers, old(index), Request(mode, draw))
    {
      ChooseSays(servers, index, Request(mode, draw));
      var n := |servers|;
      if n == 0 {
        return Failed(NoServers);
      }
      match mode
      case Random => return Chosen(servers[draw % n]);
      case RoundRobin =>
        choice := Chosen(servers[index % n]);
        index := (index + 1) % n;
      case Unsupported => return Failed(UnsupportedMode);
    }
  }

  lemma ChooseSays(servers: seq<string>, index: nat, r: Request)
    ensures servers != [] && !r.mode.Unsupported? ==>
      Choose(servers, index, r).Chosen? && Choose(servers, index, r).server in servers
    ensures servers != [] && r.mode.Random? && r.draw < |servers| ==>
      Choose(servers, index, r) == Chosen(servers[r.draw])
    ensures servers != [] && r.mode.RoundRobin? && index < |servers| ==>
      Choose(servers, index, r) == Chosen(servers[index])
    ensures Moved(servers, index, r) != index ==>
      servers != [] && r.mode.RoundRobin? && Moved(servers, index, r) < |servers|
  {
    if servers != [] {
      InRange(r.draw, |servers|);
      InRange(index, |servers|);
      InRange(index + 1, |servers|);
    }
  }

  lemma InRange(k: nat, n: nat)
    requires n > 0
    ensures 0 <= k % n < n && (k < n ==> k % n == k)
  {
  }

  // ---- between two updates ----

  // Serving the requests one by one.
  function ServeAll(servers: seq<string>, index: nat, requests: seq<Request>): seq<Choice>
    decreases requests
  {
    if requests == [] then []
    else [Choose(servers, index, requests[0])] + ServeAll(servers, Moved(servers, index, requests[0]), requests[1..])
  }

  // The round robin requests before request i.
  function TurnsBefore(requests: seq<Request>, i: nat): nat
    requires i <= |requests|
  {
    if i == 0 then 0 else TurnsBefore(requests, i - 1) + if requests[i - 1].mode.RoundRobin? then 1 else 0
  }

  lemma {:induction false} TurnsBeforeTail(requests: seq<Request>, i: nat)
    requires 0 < i <= |requests|
    ensures TurnsBefore(requests, i) ==
      (if requests[0].mode.RoundRobin? then 1 else 0) + TurnsBefore(requests[1..], i - 1)
  {
    if i > 1 {
      TurnsBeforeTail(requests, i - 1);
    }
  }

  // Request i, if it is for the round robin, gets the server as many places
  // after the first as there were such requests before it, whatever else is
  // asked in between and wherever the position was left by an earlier list.
  lemma {:induction false} RoundRobinServes(servers: seq<string>, index: nat, requests: seq<Request>, i: nat)
    requires servers != [] && i < |requests| && requests[i].mode.RoundRobin?
    ensures i < |ServeAll(servers, index, requests)|
    ensures ServeAll(servers, index, requests)[i] == Chosen(servers[(index + TurnsBefore(requests, i)) % |servers|])
    decreases i
  {
    if i > 0 {
      var next := Moved(servers, index, requests[0]);
      RoundRobinServes(servers, next, requests[1..], i - 1);
      TurnsBeforeTail(requests, i);
      if requests[0].mode.RoundRobin? {
        ModOfMod(index + 1, TurnsBefore(requests[1..], i - 1), |servers|);
      }
    }
  }

  function Place(requests: seq<Request>, index: nat, n: nat, i: nat): nat
    requires n > 0 && i <= |requests|
  {
    (index + TurnsBefore(requests, i)) % n
  }

  // Of any stretch of requests with as many round robin requests as there are
  // servers, exactly one gets the server at p.
  lemma EachServerOnce(requests: seq<Request>, index: nat, n: nat, i: nat, j: nat, p: nat) returns (k: nat)
    requires p < n && i <= j <= |requests| && TurnsBefore(requests, j) == TurnsBefore(requests, i) + n
    ensures i <= k < j && requests[k].mode.RoundRobin? && Place(requests, index, n, k) == p
    ensures forall q: nat :: i <= q < j && requests[q].mode.RoundRobin? && Place(requests, index, n, q) == p ==> q == k
  {
    var first := TurnsBefore(requests, i);
    var t := Turn(index + first, n, p);
    k := FindTurn(requests, i, j, first + t);
    forall q: nat | i <= q < j && requests[q].mode.RoundRobin? && Place(requests, index, n, q) == p
      ensures q == k
    {
      TurnsGrow(requests, i, q);
      TurnsGrow(requests, q + 1, j);
      SameRest(index + TurnsBefore(requests, q), index + first + t, n);
      if q < k {
        TurnsGrow(requests, q + 1, k);
      } else if k < q {
        TurnsGrow(requests, k + 1, q);
      }
    }
  }

  // How far from position a it is to a place p of n.
  lemma Turn(a: nat, n: nat, p: nat) returns (t: nat)
    requires p < n
    ensures t < n && (a + t) % n == p
  {
    var m := a % n;
    t := if m <= p then p - m else p + n - m;
    ModOfMod(a, t, n);
    if m > p {
      ModOfMultiple(1, p, n);
    }
  }

  lemma {:induction false} FindTurn(requests: seq<Request>, i: nat, j: nat, t: nat) returns (k: nat)
    requires i <= j <= |requests| && TurnsBefore(requests, i) <= t < TurnsBefore(requests, j)
    ensures i <= k < j && requests[k].mode.RoundRobin? && TurnsBefore(requests, k) == t
    decreases j
  {
    if TurnsBefore(requests, j - 1) <= t {
      k := j - 1;
    } else {
      k := FindTurn(requests, i, j - 1, t);
    }
  }

  lemma {:induction false} TurnsGrow(requests: seq<Request>, i: nat, j: nat)
    requires i <= j <= |requests|
    ensures TurnsBefore(requests, i) <= TurnsBefore(requests, j)
    ensures i < j && requests[j - 1].mode.RoundRobin? ==> TurnsBefore(requests, i) < TurnsBefore(requests, j)
    decreases j
  {
    if i < j {
      TurnsGrow(requests, i, j - 1);
    }
  }

  lemma SameRest(a: nat, b: nat, n: nat)
    requires n > 0 && a % n == b % n && a < b + n && b < a + n
    ensures a == b
  {
    assert (a / n - b / n) * n == a - b;
    SmallMultiple(a / n - b / n, n);
  }

  lemma ModOfMod(a: nat, b: nat, n: nat)
    requires n > 0
    ensures (a % n + b) % n == (a + b) % n
  {
    var q := (a % n + b) / n;
    var r := (a % n + b) % n;
    assert a + b == (a / n + q) * n + r;
    ModOfMultiple(a / n + q, r, n);
  }

  lemma ModOfMultiple(q: nat, r: nat, n: nat)
    requires r < n
    ensures (q * n + r) % n == r
  {
    var p := (q * n + r) / n;
    assert (p - q) * n == r - (q * n + r) % n;
    SmallMultiple(p - q, n);
  }

  lemma SmallMultiple(d: int, n: nat)
    requires d * n < n && -d * n < n
    ensures d == 0
  {
    if d > 0 {
      MultipleGrows(d, n);
    } else if d < 0 {
      MultipleGrows(-d, n);
    }
  }

  lemma MultipleGrows(d: int, n: nat)
    requires d > 0
    ensures d * n >= n
  {
    assert d * n == (d - 1) * n + n;
  }
}
