// Every call gets its response as long as nothing fails: what becomes of a
// request from its registration to the reading of its response.
module RpcDelivery {
  import opened Options
  import opened RpcWire
  import opened RpcNet
  import C = RpcProtocol
  import CS = RpcSafety
  import S = RpcServer
  import SS = RpcServerSafety

  // ---- nothing has failed ----

  predicate Stopping(r: C.ReceiverPc) {
    r.TermSending? || r.TermMu? || r.TermLoop? || r.TermRelease? || r.Ended? || (r.Complete? && r.last)
  }

  ghost predicate Healthy(net: Net) {
    && !net.up.cut && !net.up.dead && !net.down.cut && !net.down.dead
    && !Stopping(net.client.receiver)
    && !net.server.loop.Draining? && !net.server.loop.Closed?
  }

  // A failure is for good.
  lemma WasHealthy(cfg: S.Config, net: Net, a: Action)
    requires Enabled(cfg, net, a) && Healthy(Apply(cfg, net, a)) && net.up.dead == net.server.dead
    ensures Healthy(net)
  {
  }

  // ---- where a request is ----

  // In its call's own send.
  predicate Sending(client: C.State, n: nat) {
    && n in client.shared.core.pending && client.shared.core.pending[n] < |client.calls|
    && var pc := client.calls[client.shared.core.pending[n]].pc; pc.Prepare? || pc.Writing?
  }

  // Sent and not yet read.
  ghost predicate Ahead(pipe: Pipe, n: nat) {
    exists i :: pipe.pos <= i < |pipe.log| && HeaderAt(pipe.log[i], n)
  }

  predicate HeaderAt(f: Frame, n: nat) {
    f.HeaderFrame? && f.h.number == n
  }

  // The server has still to respond to request r.
  predicate Owes(server: S.Server, r: nat)
    requires r < |server.requests|
  {
    var req := server.requests[r];
    if req.handled then
      || req.main.Waiting? || req.main.TimeoutIssue? || req.main.TimeoutWait? || req.main.TimeoutWriting?
      || (req.main.AwaitSent? && (req.worker.Issue? || req.worker.RespondWait? || req.worker.Responding?))
    else
      r == |server.requests| - 1 && (server.loop.ErrIssue? || server.loop.ErrWait? || server.loop.ErrWriting?)
  }

  ghost predicate Owed(server: S.Server, n: nat) {
    exists r :: 0 <= r < |server.requests| && server.requests[r].h.number == n && Owes(server, r)
  }

  // With the server, between the reading of its header and the response.
  ghost predicate Served(server: S.Server, n: nat) {
    (server.loop.ReadBody? && server.loop.h.number == n) || Owed(server, n)
  }

  // Its response is being looked up.
  predicate Taking(r: C.ReceiverPc, n: nat) {
    (r.RemoveWait? || r.RemoveHeld?) && r.h.number == n
  }

  ghost predicate Tracked(net: Net, n: nat) {
    || Sending(net.client, n) || Ahead(net.up, n) || Served(net.server, n) || Ahead(net.down, n)
    || Taking(net.client.receiver, n)
  }

  predicate Failed(pc: C.CallerPc) {
    pc.FailWait? || pc.FailHeld? || pc.FailDone?
  }

  // No pending request is lost, and no write has failed.
  ghost predicate AllTracked(net: Net) {
    && (forall n :: n in net.client.shared.core.pending ==> Tracked(net, n))
    && (forall c :: 0 <= c < |net.client.calls| ==> !Failed(net.client.calls[c].pc))
  }

  // ---- pipes ----

  lemma WriteKeepsAhead(pipe: Pipe, h: Header, body: Payload, n: nat)
    requires !pipe.cut && pipe.pos <= |pipe.log|
    ensures Ahead(pipe, n) ==> Ahead(pipe.Write(h, body, true, 2), n)
    ensures Ahead(pipe.Write(h, body, true, 2), h.number)
  {
    var pipe' := pipe.Write(h, body, true, 2);
    if i :| pipe.pos <= i < |pipe.log| && HeaderAt(pipe.log[i], n) {
      assert HeaderAt(pipe'.log[i], n);
    }
    assert HeaderAt(pipe'.log[|pipe.log|], h.number);
  }

  // What is read is no longer ahead, and nothing else is concerned.
  lemma ReadKeepsAhead(pipe: Pipe, pipe': Pipe, n: nat)
    requires Ahead(pipe, n) && pipe.pos < |pipe.log| && pipe'.log == pipe.log && pipe'.pos == pipe.pos + 1
    ensures Ahead(pipe', n) || HeaderAt(pipe.log[pipe.pos], n)
  {
    var i :| pipe.pos <= i < |pipe.log| && HeaderAt(pipe.log[i], n);
    assert i > pipe.pos ==> HeaderAt(pipe'.log[i], n);
  }

  // ---- steps of the client ----

  lemma ClientKeepsSending(client: C.State, ca: C.Action, n: nat)
    requires C.Enabled(client, ca) && !ca.WriteReturns? && Sending(client, n)
    requires var pending := C.Apply(client, ca).shared.core.pending;
      n in pending && pending[n] == client.shared.core.pending[n]
    ensures Sending(C.Apply(client, ca), n)
  {
  }

  lemma PendingStays(client: C.State, ca: C.Action, n: nat)
    requires CS.SharedOk(client.shared, client.receiver) && C.Enabled(client, ca)
    requires n in client.shared.core.pending && n in C.Apply(client, ca).shared.core.pending
    ensures C.Apply(client, ca).shared.core.pending[n] == client.shared.core.pending[n]
  {
  }

  lemma ClientKeepsTaking(client: C.State, ca: C.Action, n: nat)
    requires CS.Inv(client) && C.Enabled(client, ca) && !ca.HeaderFails?
    requires n in C.Apply(client, ca).shared.core.pending && Taking(client.receiver, n)
    ensures Taking(C.Apply(client, ca).receiver, n)
  {
  }

  lemma ClientKeepsUnfailed(client: C.State, ca: C.Action, c: nat)
    requires C.Enabled(client, ca) && !ca.WriteReturns? && c < |C.Apply(client, ca).calls|
    requires c < |client.calls| ==> !Failed(client.calls[c].pc)
    ensures !Failed(C.Apply(client, ca).calls[c].pc)
  {
  }

  lemma PendingWas(client: C.State, ca: C.Action, n: nat)
    requires C.Enabled(client, ca) && n in C.Apply(client, ca).shared.core.pending
    ensures n in client.shared.core.pending || Sending(C.Apply(client, ca), n)
  {
  }

  lemma ClientKeepsTracked(cfg: S.Config, net: Net, ca: C.Action)
    requires Inv(cfg, net) && Enabled(cfg, net, Client(ca)) && AllTracked(net)
    requires Healthy(Apply(cfg, net, Client(ca)))
    ensures AllTracked(Apply(cfg, net, Client(ca)))
  {
    var t := Apply(cfg, net, Client(ca));
    forall n | n in t.client.shared.core.pending
      ensures Tracked(t, n)
    {
      PendingWas(net.client, ca, n);
      if n in net.client.shared.core.pending {
        assert Tracked(net, n);
        if Sending(net.client, n) {
          PendingStays(net.client, ca, n);
          ClientKeepsSending(net.client, ca, n);
        } else if Taking(net.client.receiver, n) {
          ClientKeepsTaking(net.client, ca, n);
        }
      }
    }
    forall c | 0 <= c < |t.client.calls|
      ensures !Failed(t.client.calls[c].pc)
    {
      ClientKeepsUnfailed(net.client, ca, c);
    }
  }

  lemma RequestKeepsTracked(cfg: S.Config, net: Net, c: nat, n: nat)
    requires Inv(cfg, net) && Enabled(cfg, net, ClientWrites(c, true, 2)) && Tracked(net, n)
    requires n in net.client.shared.core.pending && Healthy(net)
    ensures Tracked(Apply(cfg, net, ClientWrites(c, true, 2)), n)
  {
    var client := net.client;
    assert CS.CallOk(c, client.calls[c], client.shared, client.receiver);
    WriteKeepsAhead(net.up, client.shared.header, Args(client.calls[c].args), n);
    if Sending(client, n) {
      var d := client.shared.core.pending[n];
      assert client.calls[d].number == n;
      assert c == d ==> client.shared.header.number == n;
    }
  }

  lemma ClientWriteKeepsTracked(cfg: S.Config, net: Net, c: nat, ok: bool, n: nat)
    requires Inv(cfg, net) && Enabled(cfg, net, ClientWrites(c, ok, n)) && AllTracked(net)
    requires Healthy(net) && Healthy(Apply(cfg, net, ClientWrites(c, ok, n)))
    ensures AllTracked(Apply(cfg, net, ClientWrites(c, ok, n)))
  {
    assert ok && n == 2;
    forall m | m in net.client.shared.core.pending
      ensures Tracked(Apply(cfg, net, ClientWrites(c, true, 2)), m)
    {
      RequestKeepsTracked(cfg, net, c, m);
    }
  }

  lemma ResponseKeepsTracked(cfg: S.Config, net: Net, client: C.State, n: nat)
    requires CS.Inv(net.client) && DownOk(cfg, Asked(net.client), net.down.log)
    requires ReceiverOk(cfg, Asked(net.client), net.down, net.client.receiver)
    requires net.down.pos < |net.down.log| && Tracked(net, n)
    requires client == net.client.(receiver := client.receiver)
    requires if net.client.receiver.ReadHeader? then
        net.down.log[net.down.pos].HeaderFrame? ==> client.receiver == C.RemoveWait(net.down.log[net.down.pos].h)
      else net.client.receiver.ReadBody?
    ensures Tracked(net.(client := client, down := net.down.Advance()), n)
  {
    assert DownAt(cfg, Asked(net.client), net.down.log, net.down.pos);
    if Ahead(net.down, n) {
      ReadKeepsAhead(net.down, net.down.Advance(), n);
    }
  }

  lemma ClientReadKeepsTracked(cfg: S.Config, net: Net, a: Action)
    requires Inv(cfg, net) && Enabled(cfg, net, a) && (a.ClientReadsHeader? || a.ClientReadsBody?)
    requires AllTracked(net)
    ensures AllTracked(Apply(cfg, net, a))
  {
    forall n | n in net.client.shared.core.pending
      ensures Tracked(Apply(cfg, net, a), n)
    {
      ResponseKeepsTracked(cfg, net, Apply(cfg, net, a).client, n);
    }
  }

  // ---- steps of the server ----

  lemma RequestKeepsOwing(cfg: S.Config, server: S.Server, a: S.Action, r: nat)
    requires SS.Inv(cfg, server) && S.Enabled(cfg, server, a) && S.Subject(a).Some?
    requires r < |server.requests| && Owes(server, r)
    ensures var t := S.Apply(cfg, server, a);
      t.requests[r].h == server.requests[r].h && (Owes(t, r) || (S.Writes(a) && a.r == r))
  {
    assert SS.RequestOk(cfg, r, server.requests[r], server.shared);
  }

  lemma LoopKeepsServed(cfg: S.Config, server: S.Server, a: S.Action, n: nat)
    requires S.LoopEnabled(server, a) && !a.HeaderFails? && !a.LoopWrites? && !a.HeaderArrives? && Served(server, n)
    requires !server.loop.Draining?
    ensures Served(S.LoopStep(cfg, server, a), n)
  {
    var t := S.LoopStep(cfg, server, a);
    if server.loop.ReadBody? && server.loop.h.number == n {
      assert Owes(t, |server.requests|) && t.requests[|server.requests|].h.number == n;
    } else {
      var r :| 0 <= r < |server.requests| && server.requests[r].h.number == n && Owes(server, r);
      assert t.requests[r].h.number == n && Owes(t, r);
    }
  }

  lemma ServedStays(cfg: S.Config, server: S.Server, a: S.Action, n: nat)
    requires SS.Inv(cfg, server) && S.Enabled(cfg, server, a) && !S.Writes(a) && !a.HeaderFails? && !a.HeaderArrives?
    requires Served(server, n) && !server.loop.Draining?
    ensures Served(S.Apply(cfg, server, a), n)
  {
    if S.Subject(a).None? {
      LoopKeepsServed(cfg, server, a, n);
    } else if Owed(server, n) {
      var r :| 0 <= r < |server.requests| && server.requests[r].h.number == n && Owes(server, r);
      RequestKeepsOwing(cfg, server, a, r);
      var t := S.Apply(cfg, server, a);
      assert t.requests[r].h.number == n && Owes(t, r);
    }
  }

  lemma ServerKeepsTracked(cfg: S.Config, net: Net, sa: S.Action)
    requires Inv(cfg, net) && Enabled(cfg, net, Server(sa)) && AllTracked(net)
    requires Healthy(net) && Healthy(Apply(cfg, net, Server(sa)))
    ensures AllTracked(Apply(cfg, net, Server(sa)))
  {
    var t := Apply(cfg, net, Server(sa));
    forall n | n in net.client.shared.core.pending
      ensures Tracked(t, n)
    {
      assert Tracked(net, n);
      if Served(net.server, n) {
        ServedStays(cfg, net.server, sa, n);
      } else if Ahead(net.up, n) {
        UpStaysAhead(cfg, net, sa, n);
      }
    }
  }

  // The read loop takes a body at most.
  lemma UpStaysAhead(cfg: S.Config, net: Net, sa: S.Action, n: nat)
    requires Inv(cfg, net) && Enabled(cfg, net, Server(sa)) && Ahead(net.up, n)
    ensures Ahead(Apply(cfg, net, Server(sa)).up, n)
  {
    if sa.BodyFails? && sa.consumed {
      assert UpAt(Asked(net.client), net.up.log, net.up.pos);
      ReadKeepsAhead(net.up, Apply(cfg, net, Server(sa)).up, n);
    } else {
      assert Apply(cfg, net, Server(sa)).up.pos == net.up.pos;
      var i :| net.up.pos <= i < |net.up.log| && HeaderAt(net.up.log[i], n);
      assert HeaderAt(Apply(cfg, net, Server(sa)).up.log[i], n);
    }
  }

  // A response goes to the request that it answers; all others are still owed.
  lemma WritingKeepsOwed(cfg: S.Config, server: S.Server, sa: S.Action, n: nat)
    requires SS.Inv(cfg, server) && S.Enabled(cfg, server, sa) && S.Writes(sa) && |server.requests| > 0
    requires Served(server, n)
    ensures Served(S.Apply(cfg, server, sa), n) || S.Response(cfg, server, sa).0.number == n
  {
    var t := S.Apply(cfg, server, sa);
    if Owed(server, n) {
      var r :| 0 <= r < |server.requests| && server.requests[r].h.number == n && Owes(server, r);
      if S.Subject(sa).Some? {
        RequestKeepsOwing(cfg, server, sa, r);
        assert Owes(t, r) ==> t.requests[r].h.number == n;
      } else {
        assert server.requests[r].handled ==> Owes(t, r) && t.requests[r].h.number == n;
      }
    }
  }

  lemma ServerWriteKeepsTracked(cfg: S.Config, net: Net, sa: S.Action, ok: bool, n: nat)
    requires Inv(cfg, net) && Enabled(cfg, net, ServerWrites(sa, ok, n)) && AllTracked(net)
    requires Healthy(net) && Healthy(Apply(cfg, net, ServerWrites(sa, ok, n)))
    ensures AllTracked(Apply(cfg, net, ServerWrites(sa, ok, n)))
  {
    assert ok && n == 2;
    var t := Apply(cfg, net, ServerWrites(sa, true, 2));
    var (h, body) := S.Response(cfg, net.server, sa);
    forall m | m in net.client.shared.core.pending
      ensures Tracked(t, m)
    {
      assert Tracked(net, m);
      if Served(net.server, m) {
        WritingKeepsOwed(cfg, net.server, sa, m);
      }
      WriteKeepsAhead(net.down, h, body, m);
    }
  }

  lemma HeaderKeepsTracked(net: Net, h: Header, n: nat)
    requires net.server.loop.ReadHeader? && Tracked(net, n)
    requires net.up.pos < |net.up.log| && net.up.log[net.up.pos] == HeaderFrame(h)
    ensures Tracked(AfterHeader(net, h), n)
  {
    var t := AfterHeader(net, h);
    if Ahead(net.up, n) {
      ReadKeepsAhead(net.up, t.up, n);
    } else if Owed(net.server, n) {
      var r :| 0 <= r < |net.server.requests| && net.server.requests[r].h.number == n && Owes(net.server, r);
      assert t.server.requests[r].h.number == n && Owes(t.server, r);
    }
  }

  function AfterHeader(net: Net, h: Header): Net {
    net.(server := net.server.(loop := S.ReadBody(h, net.server.pos), pos := net.server.pos + 1),
         up := net.up.(pos := net.up.pos + 1))
  }

  lemma HeaderIsRegistered(cfg: S.Config, net: Net, h: Header)
    requires Inv(cfg, net) && Enabled(cfg, net, ServerReadsHeader(h)) && AllRegistered(cfg, net.client)
    ensures net.up.log[net.up.pos] == HeaderFrame(h) && Apply(cfg, net, ServerReadsHeader(h)) == AfterHeader(net, h)
  {
    assert UpAt(Asked(net.client), net.up.log, net.up.pos);
    assert cfg.Registered(h.target);
  }

  lemma BodyKeepsTracked(cfg: S.Config, net: Net, args: string, n: nat)
    requires Inv(cfg, net) && Enabled(cfg, net, ServerReadsBody(args)) && Tracked(net, n)
    ensures Tracked(Apply(cfg, net, ServerReadsBody(args)), n)
  {
    var t := Apply(cfg, net, ServerReadsBody(args));
    assert UpAt(Asked(net.client), net.up.log, net.up.pos);
    if Ahead(net.up, n) {
      ReadKeepsAhead(net.up, t.up, n);
    } else if Served(net.server, n) {
      ServedStays(cfg, net.server, S.BodyArrives(args), n);
    }
  }

  lemma StepKeepsTracked(cfg: S.Config, net: Net, a: Action)
    requires Inv(cfg, net) && Enabled(cfg, net, a) && AllRegistered(cfg, net.client) && AllTracked(net)
    requires Healthy(net) && Healthy(Apply(cfg, net, a))
    ensures AllTracked(Apply(cfg, net, a))
  {
    match a
    case Client(ca) => ClientKeepsTracked(cfg, net, ca);
    case ClientWrites(c, ok, n) => ClientWriteKeepsTracked(cfg, net, c, ok, n);
    case ClientReadsHeader(_) => ClientReadKeepsTracked(cfg, net, a);
    case ClientReadsBody(_) => ClientReadKeepsTracked(cfg, net, a);
    case Server(sa) => ServerKeepsTracked(cfg, net, sa);
    case ServerWrites(sa, ok, n) => ServerWriteKeepsTracked(cfg, net, sa, ok, n);
    case ServerReadsHeader(h) =>
      HeaderIsRegistered(cfg, net, h);
      forall n | n in net.client.shared.core.pending
        ensures Tracked(Apply(cfg, net, a), n)
      {
        HeaderKeepsTracked(net, h, n);
      }
    case ServerReadsBody(args) =>
      forall n | n in net.client.shared.core.pending
        ensures Tracked(Apply(cfg, net, a), n)
      {
        BodyKeepsTracked(cfg, net, args, n);
      }
  }

  lemma {:induction false} RunKeepsTracked(cfg: S.Config, net: Net, actions: seq<Action>)
    requires Inv(cfg, net) && Run(cfg, net, actions).Some? && cfg.timeoutMessage != ""
    requires AllRegistered(cfg, Run(cfg, net, actions).value.client)
    requires Healthy(net) ==> AllTracked(net)
    ensures var t := Run(cfg, net, actions).value; Inv(cfg, t) && (Healthy(t) ==> AllTracked(t))
    decreases actions
  {
    if actions != [] {
      var t := Apply(cfg, net, actions[0]);
      RunKeepsCalls(cfg, net, actions);
      StepKeepsInv(cfg, net, actions[0]);
      if Healthy(t) {
        WasHealthy(cfg, net, actions[0]);
        StepKeepsTracked(cfg, net, actions[0]);
      }
      RunKeepsTracked(cfg, t, actions[1..]);
    }
  }

  lemma ReachableTracked(cfg: S.Config, net: Net)
    requires Reachable(cfg, net) && AllRegistered(cfg, net.client) && cfg.timeoutMessage != "" && Healthy(net)
    ensures Inv(cfg, net) && AllTracked(net)
  {
    var actions :| Run(cfg, INIT, actions) == Some(net);
    RunKeepsTracked(cfg, INIT, actions);
  }
}
