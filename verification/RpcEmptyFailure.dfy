// A method that fails with an empty message: to its caller it looks like success.
module RpcEmptyFailure {
  import opened Options
  import opened RpcWire
  import opened RpcNet
  import C = RpcProtocol
  import S = RpcServer

  // ---- reaching one state from another ----

  lemma {:induction false} RunOneMore(cfg: S.Config, net: Net, actions: seq<Action>, a: Action)
    requires Run(cfg, net, actions).Some? && Enabled(cfg, Run(cfg, net, actions).value, a)
    ensures Run(cfg, net, actions + [a]) == Some(Apply(cfg, Run(cfg, net, actions).value, a))
    decreases actions
  {
    if actions == [] {
      assert [a][1..] == [] && [] + [a] == [a];
    } else {
      assert (actions + [a])[1..] == actions[1..] + [a];
      RunOneMore(cfg, Apply(cfg, net, actions[0]), actions[1..], a);
    }
  }

  lemma StepReached(cfg: S.Config, net: Net, a: Action)
    requires Reachable(cfg, net) && Enabled(cfg, net, a)
    ensures Reachable(cfg, Apply(cfg, net, a))
  {
    var actions :| Run(cfg, INIT, actions) == Some(net);
    RunOneMore(cfg, INIT, actions, a);
  }

  // A client with one more call.
  function Calling(client: C.State, call: C.CallState, sh: C.Shared): C.State {
    client.(calls := client.calls + [call], shared := sh)
  }

  // A server with one more request.
  function Serving(server: S.Server, req: S.Request, sh: S.Shared): S.Server {
    server.(requests := server.requests + [req], shared := sh)
  }

  lemma CallAdvances(cfg: S.Config, net: Net, client: C.State, call: C.CallState, sh: C.Shared)
    requires Reachable(cfg, net) && net.client == Calling(client, call, sh) && C.CanAdvance(call, sh)
    ensures var (call', sh') := C.AdvanceCaller(|client.calls|, call, sh);
      Reachable(cfg, net.(client := Calling(client, call', sh')))
  {
    var c := |client.calls|;
    var (call', sh') := C.AdvanceCaller(c, call, sh);
    assert net.client.calls[c := call'] == client.calls + [call'];
    StepReached(cfg, net, Client(C.Advance(c)));
  }

  lemma CallWrites(cfg: S.Config, net: Net, client: C.State, call: C.CallState, sh: C.Shared)
    requires Reachable(cfg, net) && net.client == Calling(client, call, sh) && call.pc.Writing? && !net.up.cut
    ensures Reachable(cfg, net.(client := Calling(client, call.(pc := C.Unlock), sh),
                                up := net.up.Write(sh.header, Args(call.args), true, 2)))
  {
    var c := |client.calls|;
    assert net.client.calls[c := call.(pc := C.Unlock)] == client.calls + [call.(pc := C.Unlock)];
    StepReached(cfg, net, ClientWrites(c, true, 2));
  }

  lemma RequestAdvances(cfg: S.Config, net: Net, server: S.Server, req: S.Request, sh: S.Shared, a: S.Action)
    requires Reachable(cfg, net) && net.server == Serving(server, req, sh)
    requires net.up.pos == server.pos && net.up.dead == server.dead
    requires S.Subject(a) == Some(|server.requests|) && S.RequestEnabled(cfg, req, sh, a) && !S.Writes(a)
    ensures var (req', sh') := S.RequestStep(cfg, |server.requests|, req, sh, a);
      Reachable(cfg, net.(server := Serving(server, req', sh')))
  {
    var r := |server.requests|;
    var (req', sh') := S.RequestStep(cfg, r, req, sh, a);
    assert net.server.requests[r := req'] == server.requests + [req'];
    StepReached(cfg, net, Server(a));
  }

  // ---- one call on its way ----

  // Nobody is at work but methods, and everything sent has been read.
  ghost predicate Quiet(cfg: S.Config, net: Net) {
    && Reachable(cfg, net) && AllRegistered(cfg, net.client)
    && net.client.receiver == C.ReadHeader && net.client.shared.sending.Free? && net.client.shared.mu.Free?
    && !net.client.shared.core.closing && !net.client.shared.core.shutdown
    && net.server.loop == S.ReadHeader && !net.server.dead && net.server.shared.sending.Free?
    && !net.up.cut && !net.up.dead && net.up.pos == net.server.pos == |net.up.log|
    && !net.down.cut && !net.down.dead && net.down.pos == |net.down.log|
  }

  // The latest call has been sent under number n, and its method is at work.
  ghost predicate Underway(net: Net, n: nat, target: string, args: string) {
    && net.client.calls != [] && net.server.requests != []
    && var c := |net.client.calls| - 1;
      && net.client.calls[c] == C.Started(target, args, false, 1).(pc := C.Returned, number := n)
      && n in net.client.shared.core.pending && net.client.shared.core.pending[n] == c
      && net.server.requests[|net.server.requests| - 1].(at := 0) == S.Accepted(Header(target, n, ""), 0, args)
  }

  // Up to the write: the call has its number and is filed under it.
  lemma CallRegistered(cfg: S.Config, net: Net, target: string, args: string, call: C.CallState) returns (t: Net)
    requires Quiet(cfg, net) && call == C.Started(target, args, false, 1)
    ensures Reachable(cfg, t) && t == net.(client := t.client)
    ensures var n, c := net.client.shared.core.next, |net.client.calls|;
      var core := net.client.shared.core.(next := n + 1, pending := net.client.shared.core.pending[n := c]);
      t.client == Calling(net.client, call.(pc := C.Prepare, number := n),
                          net.client.shared.(sending := C.ByCaller(c), core := core,
                                             issued := net.client.shared.issued[n := c]))
  {
    var client, c, sh := net.client, |net.client.calls|, net.client.shared;
    StepReached(cfg, net, Client(C.NewCall(target, args, false, 1)));
    t := net.(client := Calling(client, call, sh));
    CallAdvances(cfg, t, client, call, sh);
    var waiting, sh1 := call.(pc := C.RegisterWait), sh.(sending := C.ByCaller(c));
    t := net.(client := Calling(client, waiting, sh1));
    CallAdvances(cfg, t, client, waiting, sh1);
    var held, sh2 := call.(pc := C.RegisterHeld), sh1.(mu := C.ByCaller(c));
    t := net.(client := Calling(client, held, sh2));
    CallAdvances(cfg, t, client, held, sh2);
    t := net.(client := Calling(client, C.AdvanceCaller(c, held, sh2).0, C.AdvanceCaller(c, held, sh2).1));
  }

  lemma CallWritten(cfg: S.Config, net: Net, client: C.State, call: C.CallState, sh: C.Shared) returns (t: Net)
    requires Reachable(cfg, net) && net.client == Calling(client, call, sh) && !net.up.cut
    requires call.pc.Prepare? && !call.waits
    ensures Reachable(cfg, t)
    ensures var h := Header(call.target, call.number, "");
      t == net.(client := Calling(client, call.(pc := C.Returned), sh.(header := h, sending := C.Free)),
                up := net.up.Write(h, Args(call.args), true, 2))
  {
    var h := Header(call.target, call.number, "");
    CallAdvances(cfg, net, client, call, sh);
    var writing, sh' := call.(pc := C.Writing), sh.(header := h);
    t := net.(client := Calling(client, writing, sh'));
    CallWrites(cfg, t, client, writing, sh');
    var unlocking := call.(pc := C.Unlock);
    t := net.(client := Calling(client, unlocking, sh'), up := net.up.Write(h, Args(call.args), true, 2));
    CallAdvances(cfg, t, client, unlocking, sh');
    t := t.(client := Calling(client, call.(pc := C.Returned), sh'.(sending := C.Free)));
  }

  lemma RequestReceived(cfg: S.Config, net: Net, h: Header, args: string) returns (t: Net)
    requires Reachable(cfg, net) && cfg.Registered(h.target)
    requires net.server.loop == S.ReadHeader && !net.server.dead && !net.up.dead && net.up.pos == net.server.pos
    requires |net.up.log| == net.up.pos + 2
    requires net.up.log[net.up.pos] == HeaderFrame(h) && net.up.log[net.up.pos + 1] == BodyFrame(Args(args))
    ensures Reachable(cfg, t)
    ensures var s := net.server;
      var server := s.(requests := s.requests + [S.Accepted(h, s.pos, args)],
                       shared := s.shared.(wg := s.shared.wg + 1), pos := s.pos + 2);
      t == net.(server := server, up := net.up.(pos := s.pos + 2))
  {
    StepReached(cfg, net, ServerReadsHeader(h));
    t := Apply(cfg, net, ServerReadsHeader(h));
    StepReached(cfg, t, ServerReadsBody(args));
    t := Apply(cfg, t, ServerReadsBody(args));
  }

  lemma OneMoreUnderway(cfg: S.Config, net: Net, target: string, args: string) returns (t: Net)
    requires Quiet(cfg, net) && cfg.Registered(target)
    ensures Quiet(cfg, t) && Underway(t, net.client.shared.core.next, target, args)
    ensures t.client.shared.core.next == net.client.shared.core.next + 1
  {
    var h := Header(target, net.client.shared.core.next, "");
    var call := C.Started(target, args, false, 1);
    var filed := CallRegistered(cfg, net, target, args, call);
    var client := filed.client;
    assert client == Calling(net.client, client.calls[|net.client.calls|], client.shared);
    var sent := CallWritten(cfg, filed, net.client, client.calls[|net.client.calls|], client.shared);
    t := RequestReceived(cfg, sent, h, args);
  }

  lemma {:induction false} NthUnderway(cfg: S.Config, n: nat, target: string, args: string) returns (net: Net)
    requires n > 0 && cfg.Registered(target)
    ensures Quiet(cfg, net) && Underway(net, n, target, args) && net.client.shared.core.next == n + 1
    decreases n
  {
    net := INIT;
    if n > 1 {
      net := NthUnderway(cfg, n - 1, target, args);
    } else {
      assert Run(cfg, INIT, []) == Some(INIT);
    }
    net := OneMoreUnderway(cfg, net, target, args);
  }

  // ---- the way back ----

  // The method returns in time, with an empty message, and its worker goes on.
  lemma MethodFails(cfg: S.Config, net: Net, server: S.Server, req: S.Request, sh: S.Shared) returns (t: Net)
    requires Reachable(cfg, net) && net.server == Serving(server, req, sh)
    requires net.up.pos == server.pos && net.up.dead == server.dead
    requires req.worker.Calling? && req.main.Waiting?
    requires cfg.run(req.h.number, req.h.target, req.args) == S.Fail("")
    ensures Reachable(cfg, t)
    ensures t == net.(server := Serving(server, req.(main := S.AwaitSent, worker := S.Issue(S.Fail(""))), sh))
  {
    var r := |server.requests|;
    RequestAdvances(cfg, net, server, req, sh, S.CallReturns(r));
    var offering := req.(worker := S.OfferCalled(S.Fail("")));
    t := net.(server := Serving(server, offering, sh));
    RequestAdvances(cfg, t, server, offering, sh, S.Called(r));
    t := net.(server := Serving(server, offering.(main := S.AwaitSent, worker := S.Issue(S.Fail(""))), sh));
  }

  // What it sends carries no error.
  lemma WorkerResponds(cfg: S.Config, net: Net, server: S.Server, req: S.Request, sh: S.Shared) returns (t: Net)
    requires Reachable(cfg, net) && net.server == Serving(server, req, sh)
    requires net.up.pos == server.pos && net.up.dead == server.dead
    requires req.worker == S.Issue(S.Fail("")) && sh.sending.Free? && !net.down.cut
    ensures Reachable(cfg, t) && t.client == net.client
    ensures t.down == net.down.Write(Header(req.h.target, req.h.number, ""), Placeholder, true, 2)
  {
    var r, failed := |server.requests|, S.Fail("");
    RequestAdvances(cfg, net, server, req, sh, S.Worker(r));
    var waiting := req.(worker := S.RespondWait(failed), error := "", issued := req.issued + 1);
    t := net.(server := Serving(server, waiting, sh));
    RequestAdvances(cfg, t, server, waiting, sh, S.Worker(r));
    t := net.(server := Serving(server, waiting.(worker := S.Responding(failed)), sh.(sending := S.ByWorker(r))));
    StepReached(cfg, t, ServerWrites(S.WorkerWrites(r), true, 2));
    t := Apply(cfg, t, ServerWrites(S.WorkerWrites(r), true, 2));
  }

  // The client's receive loop takes call c out of `pending` ...
  lemma HeaderTaken(cfg: S.Config, net: Net, c: nat, h: Header) returns (t: Net)
    requires Reachable(cfg, net) && net.client.receiver == C.ReadHeader && net.client.shared.mu.Free?
    requires net.down.CanReadHeader(h)
    requires h.number in net.client.shared.core.pending && net.client.shared.core.pending[h.number] == c
    ensures Reachable(cfg, t) && t.down == net.down.Advance()
    ensures t.client.receiver == C.ReadBody(h, Some(c)) && t.client.calls == net.client.calls
  {
    StepReached(cfg, net, ClientReadsHeader(h));
    var t1 := Apply(cfg, net, ClientReadsHeader(h));
    assert t1 == net.(client := net.client.(receiver := C.RemoveWait(h)), down := net.down.Advance());
    StepReached(cfg, t1, Client(C.Receive));
    var t2 := Apply(cfg, t1, Client(C.Receive));
    assert t2.client.receiver == C.RemoveHeld(h) && t2.client.calls == net.client.calls && t2.down == t1.down;
    assert t2.client.shared.core == net.client.shared.core;
    StepReached(cfg, t2, Client(C.Receive));
    t := Apply(cfg, t2, Client(C.Receive));
  }

  // ... and completes it.
  lemma BodyTaken(cfg: S.Config, net: Net, c: nat, h: Header, body: Payload) returns (t: Net)
    requires Reachable(cfg, net) && h.error == ""
    requires net.client.receiver == C.ReadBody(h, Some(c)) && net.down.CanReadBody(body)
    requires c < |net.client.calls| && net.client.calls[c].HasRoom()
    ensures Reachable(cfg, t)
    ensures t.client.calls == net.client.calls[c := net.client.calls[c].(reply := Some(body)).Strobe()]
  {
    StepReached(cfg, net, ClientReadsBody(body));
    var t1 := Apply(cfg, net, ClientReadsBody(body));
    assert t1.client == net.client.(receiver := C.Complete(h.number, c, C.Good(body), false));
    StepReached(cfg, t1, Client(C.Finish));
    t := Apply(cfg, t1, Client(C.Finish));
  }

  // ---- main result ----

  // The call with number n is done, without error and with the placeholder for a reply.
  ghost predicate LooksDone(cfg: S.Config, net: Net, c: nat, n: nat, target: string, args: string) {
    && Reachable(cfg, net) && AllRegistered(cfg, net.client) && c < |net.client.calls|
    && var call := net.client.calls[c];
      && call.number == n && call.target == target && call.args == args
      && call.strobes > 0 && call.error == None && call.reply == Some(Placeholder)
  }

  // A call of a registered method can end without error and without a reply of
  // the method if and only if the method fails with an empty message.
  lemma EmptyFailureLooksLikeSuccess(cfg: S.Config, n: nat, target: string, args: string)
    requires n > 0 && cfg.Registered(target) && cfg.timeoutMessage != ""
    ensures (exists net, c :: LooksDone(cfg, net, c, n, target, args)) <==> cfg.run(n, target, args) == S.Fail("")
  {
    if cfg.run(n, target, args) == S.Fail("") {
      var net := NthUnderway(cfg, n, target, args);
      var c := |net.client.calls| - 1;
      var req, sh := net.server.requests[|net.server.requests| - 1], net.server.shared;
      var server := net.server.(requests := net.server.requests[..|net.server.requests| - 1]);
      assert net.server == Serving(server, req, sh);
      var failed := MethodFails(cfg, net, server, req, sh);
      var answered := WorkerResponds(cfg, failed, server, req.(main := S.AwaitSent, worker := S.Issue(S.Fail(""))), sh);
      var taken := HeaderTaken(cfg, answered, c, Header(target, n, ""));
      var t := BodyTaken(cfg, taken, c, Header(target, n, ""), Placeholder);
      assert LooksDone(cfg, t, c, n, target, args);
    }
    if net, c :| LooksDone(cfg, net, c, n, target, args) {
      ReplyMatchesCall(cfg, net, c);
    }
  }
}
