// Every call gets its response as long as nothing fails: there is always a step
// to take, and only so many of them.
module RpcCompletion {
  import opened Options
  import opened RpcWire
  import opened RpcNet
  import opened RpcDelivery
  import C = RpcProtocol
  import CS = RpcSafety
  import S = RpcServer
  import SS = RpcServerSafety

  // Steps other than new calls, cancellations and failures.
  predicate Good(a: Action) {
    match a
    case Client(ca) => CS.Internal(ca)
    case ClientWrites(_, ok, n) => ok && n == 2
    case ClientReadsHeader(_) => true
    case ClientReadsBody(_) => true
    case Server(sa) => !sa.HeaderFails? && !sa.BodyFails?
    case ServerWrites(_, ok, n) => ok && n == 2
    case ServerReadsHeader(_) => true
    case ServerReadsBody(_) => true
  }

  ghost predicate CanGoOn(cfg: S.Config, net: Net) {
    exists a :: Good(a) && Enabled(cfg, net, a)
  }

  // Every send and removal has finished, nothing is pending, and no response is being read.
  ghost predicate Settled(net: Net) {
    CS.AllIdle(net.client) && net.client.shared.core.pending == map[] && net.client.receiver.ReadHeader?
  }

  // ---- there is always a step ----

  lemma ClientGoesOn(cfg: S.Config, net: Net)
    requires CS.CanProgress(net.client) && Healthy(net)
    ensures CanGoOn(cfg, net)
  {
    var ca :| CS.Internal(ca) && C.Enabled(net.client, ca);
    if ca.WriteReturns? {
      assert Enabled(cfg, net, ClientWrites(ca.c, true, 2));
    } else {
      assert Enabled(cfg, net, Client(ca));
    }
  }

  lemma ReceiverProgresses(client: C.State)
    requires CS.Inv(client) && (client.receiver.RemoveWait? || client.receiver.RemoveHeld? || client.receiver.Complete?)
    ensures CS.CanProgress(client)
  {
    if client.receiver.Complete? {
      var c := client.receiver.c;
      assert CS.CallOk(c, client.calls[c], client.shared, client.receiver);
      assert C.Enabled(client, C.Finish);
    } else if client.receiver.RemoveWait? && !client.shared.mu.Free? {
      CS.MuOwnerProgresses(client);
    } else {
      assert C.Enabled(client, C.Receive);
    }
  }

  lemma ResponseGoesOn(cfg: S.Config, net: Net)
    requires Inv(cfg, net) && Healthy(net)
    requires (net.client.receiver.ReadHeader? && net.down.pos < |net.down.log|) || net.client.receiver.ReadBody?
    ensures CanGoOn(cfg, net)
  {
    DownAligned(cfg, net);
    assert net.down.pos < |net.down.log|;
    var frame := net.down.log[net.down.pos];
    if net.client.receiver.ReadHeader? {
      assert Enabled(cfg, net, ClientReadsHeader(frame.h));
    } else {
      assert Enabled(cfg, net, ClientReadsBody(frame.body));
    }
  }

  lemma ReceiverGoesOn(cfg: S.Config, net: Net)
    requires Inv(cfg, net) && Healthy(net) && !net.client.receiver.ReadHeader?
    ensures CanGoOn(cfg, net)
  {
    if net.client.receiver.ReadBody? {
      ResponseGoesOn(cfg, net);
    } else {
      ReceiverProgresses(net.client);
      ClientGoesOn(cfg, net);
    }
  }

  lemma HolderGoesOn(cfg: S.Config, net: Net)
    requires Inv(cfg, net) && Healthy(net) && !net.server.shared.sending.Free?
    ensures CanGoOn(cfg, net)
  {
    var server := net.server;
    if server.shared.sending.ByLoop? {
      assert Enabled(cfg, net, ServerWrites(S.LoopWrites, true, 2));
    } else {
      var q := server.shared.sending.r;
      assert SS.RequestOk(cfg, q, server.requests[q], server.shared);
      var sa := if server.shared.sending.ByMain? then S.MainWrites(q) else S.WorkerWrites(q);
      assert Enabled(cfg, net, ServerWrites(sa, true, 2));
    }
  }

  lemma ReadGoesOn(cfg: S.Config, net: Net)
    requires Inv(cfg, net) && Healthy(net) && net.up.pos < |net.up.log|
    requires net.server.loop.ReadHeader? || net.server.loop.ReadBody?
    ensures CanGoOn(cfg, net)
  {
    UpAligned(cfg, net);
    if net.server.loop.ReadHeader? {
      assert Enabled(cfg, net, ServerReadsHeader(net.up.log[net.up.pos].h));
    } else {
      assert Enabled(cfg, net, ServerReadsBody(net.up.log[net.up.pos].body.args));
    }
  }

  // The read loop can read what is there, or goes on refusing.
  lemma LoopGoesOn(cfg: S.Config, net: Net)
    requires Inv(cfg, net) && Healthy(net) && net.server.shared.sending.Free?
    requires net.server.loop.ReadHeader? ==> net.up.pos < |net.up.log|
    ensures CanGoOn(cfg, net)
  {
    if net.server.loop.ReadHeader? || net.server.loop.ReadBody? {
      ReadGoesOn(cfg, net);
    } else {
      assert Enabled(cfg, net, Server(S.Loop));
    }
  }

  lemma OwedGoesOn(cfg: S.Config, net: Net, r: nat)
    requires Inv(cfg, net) && Healthy(net) && net.server.shared.sending.Free?
    requires r < |net.server.requests| && Owes(net.server, r)
    ensures CanGoOn(cfg, net)
  {
    var server := net.server;
    assert SS.RequestOk(cfg, r, server.requests[r], server.shared);
    if server.requests[r].handled {
      SS.RequestProgresses(cfg, server, r);
      var sa :| SS.Progresses(cfg, server, sa) && !S.Writes(sa);
      assert Enabled(cfg, net, Server(sa));
    } else {
      LoopGoesOn(cfg, net);
    }
  }

  lemma TrackedGoesOn(cfg: S.Config, net: Net, n: nat)
    requires Inv(cfg, net) && Healthy(net) && Tracked(net, n)
    requires !Sending(net.client, n) && net.client.receiver.ReadHeader?
    ensures CanGoOn(cfg, net)
  {
    if Ahead(net.down, n) {
      ResponseGoesOn(cfg, net);
    } else if !net.server.shared.sending.Free? {
      HolderGoesOn(cfg, net);
    } else if Owed(net.server, n) {
      var r :| 0 <= r < |net.server.requests| && net.server.requests[r].h.number == n && Owes(net.server, r);
      OwedGoesOn(cfg, net, r);
    } else {
      LoopGoesOn(cfg, net);
    }
  }

  lemma UnsettledGoesOn(cfg: S.Config, net: Net)
    requires Inv(cfg, net) && Healthy(net) && AllTracked(net) && !Settled(net)
    ensures CanGoOn(cfg, net)
  {
    if !CS.AllIdle(net.client) {
      var c :| 0 <= c < |net.client.calls| && !net.client.calls[c].pc.Idle();
      CS.UnfinishedProgresses(net.client, c);
      ClientGoesOn(cfg, net);
    } else if !net.client.receiver.ReadHeader? {
      ReceiverGoesOn(cfg, net);
    } else {
      assert net.client.shared.core.pending.Keys != {};
      var n :| n in net.client.shared.core.pending;
      assert Tracked(net, n);
      TrackedGoesOn(cfg, net, n);
    }
  }

  // ---- and there are only so many ----

  function ReceiverRank(r: C.ReceiverPc): nat {
    match r
    case RemoveWait(_) => 3 case RemoveHeld(_) => 2 case ReadBody(_, _) => 1 case Complete(_, _, _, _) => 2
    case _ => 0
  }

  function LoopRank(l: S.LoopPc): nat {
    match l
    case ErrIssue => 3 case ErrWait => 2 case ErrWriting => 1 case _ => 0
  }

  function Unread(pipe: Pipe): nat {
    if pipe.pos <= |pipe.log| then |pipe.log| - pipe.pos else 0
  }

  function ClientWork(client: C.State): nat {
    40 * CS.CallsWork(client.calls) + CS.ClosersWork(client.closers) + ReceiverRank(client.receiver)
  }

  function ServerWork(server: S.Server): nat {
    10 * (SS.RequestsWork(server.requests) + LoopRank(server.loop))
  }

  // A frame weighs more than what its reading leaves to do, a step more than the frames it writes.
  function NetWork(net: Net): nat {
    ClientWork(net.client) + ServerWork(net.server) + 101 * Unread(net.up) + 4 * Unread(net.down)
  }

  lemma AdvanceReducesWork(client: C.State, c: nat)
    requires C.Enabled(client, C.Advance(c))
    ensures ClientWork(C.Apply(client, C.Advance(c))) < ClientWork(client)
  {
    var (call, sh) := C.AdvanceCaller(c, client.calls[c], client.shared);
    CS.CallsWorkUpdate(client.calls, c, call);
    CS.StepReducesOwnWork(c, client.calls[c], client.shared);
  }

  lemma ClientReducesWork(client: C.State, ca: C.Action)
    requires C.Enabled(client, ca) && CS.Internal(ca) && !ca.WriteReturns? && !Stopping(client.receiver)
    requires forall c :: 0 <= c < |client.calls| ==> !Failed(client.calls[c].pc)
    ensures ClientWork(C.Apply(client, ca)) < ClientWork(client)
  {
    if ca.Advance? {
      AdvanceReducesWork(client, ca.c);
    } else if ca.CloserStep? {
      CS.ClosersWorkUpdate(client.closers, ca.k, C.Apply(client, ca).closers[ca.k]);
    } else if ca.Finish? {
      var c := client.receiver.c;
      CS.CallsWorkUpdate(client.calls, c, C.Apply(client, ca).calls[c]);
    }
  }

  lemma RequestReducesWork(cfg: S.Config, server: S.Server, sa: S.Action)
    requires S.Enabled(cfg, server, sa) && S.Subject(sa).Some?
    ensures ServerWork(S.Apply(cfg, server, sa)) <= ServerWork(server) - 10
  {
    var r := S.Subject(sa).value;
    var (req, sh) := S.RequestStep(cfg, r, server.requests[r], server.shared, sa);
    SS.RequestStepReducesWork(cfg, r, server.requests[r], server.shared, sa);
    SS.RequestsWorkUpdate(server.requests, r, req);
  }

  lemma LoopReducesWork(cfg: S.Config, server: S.Server, sa: S.Action)
    requires S.Enabled(cfg, server, sa) && (sa.Loop? || sa.LoopWrites?) && !server.loop.Draining?
    ensures ServerWork(S.Apply(cfg, server, sa)) <= ServerWork(server) - 10
  {
    if server.loop.ErrIssue? {
      var last := |server.requests| - 1;
      SS.RequestsWorkUpdate(server.requests, last, S.Apply(cfg, server, sa).requests[last]);
    }
  }

  lemma BodyAddsWork(cfg: S.Config, server: S.Server, args: string)
    requires S.Enabled(cfg, server, S.BodyArrives(args))
    ensures ServerWork(S.Apply(cfg, server, S.BodyArrives(args))) == ServerWork(server) + 100
  {
    assert S.Apply(cfg, server, S.BodyArrives(args)).requests[..|server.requests|] == server.requests;
  }

  lemma WriteReducesClientWork(client: C.State, c: nat)
    requires C.Enabled(client, C.WriteReturns(c, true))
    ensures ClientWork(C.Apply(client, C.WriteReturns(c, true))) == ClientWork(client) - 240
  {
    CS.CallsWorkUpdate(client.calls, c, client.calls[c].(pc := C.Unlock));
  }

  lemma RequestWriteReducesWork(cfg: S.Config, net: Net, c: nat)
    requires Enabled(cfg, net, ClientWrites(c, true, 2)) && net.up.pos <= |net.up.log|
    ensures NetWork(Apply(cfg, net, ClientWrites(c, true, 2))) < NetWork(net)
  {
    WriteReducesClientWork(net.client, c);
  }

  lemma ResponseReadReducesWork(cfg: S.Config, net: Net, a: Action)
    requires Enabled(cfg, net, a) && (a.ClientReadsHeader? || a.ClientReadsBody?)
    ensures NetWork(Apply(cfg, net, a)) < NetWork(net)
  {
  }

  lemma HeaderReadReducesWork(cfg: S.Config, net: Net, h: Header)
    requires Inv(cfg, net) && Enabled(cfg, net, ServerReadsHeader(h)) && AllRegistered(cfg, net.client)
    ensures NetWork(Apply(cfg, net, ServerReadsHeader(h))) < NetWork(net)
  {
    HeaderIsRegistered(cfg, net, h);
  }

  lemma ServerReducesWork(cfg: S.Config, net: Net, a: Action)
    requires Inv(cfg, net) && Enabled(cfg, net, a) && Good(a) && Healthy(net)
    requires a.Server? || a.ServerWrites? || a.ServerReadsBody?
    ensures NetWork(Apply(cfg, net, a)) < NetWork(net)
  {
    if a.ServerReadsBody? {
      BodyAddsWork(cfg, net.server, a.args);
    } else if S.Subject(a.sa).Some? {
      RequestReducesWork(cfg, net.server, a.sa);
    } else {
      LoopReducesWork(cfg, net.server, a.sa);
    }
  }

  lemma GoodReducesWork(cfg: S.Config, net: Net, a: Action)
    requires Inv(cfg, net) && Enabled(cfg, net, a) && Good(a) && AllRegistered(cfg, net.client)
    requires Healthy(net) && AllTracked(net)
    ensures NetWork(Apply(cfg, net, a)) < NetWork(net)
  {
    if a.Client? {
      ClientReducesWork(net.client, a.ca);
    } else if a.ClientWrites? {
      RequestWriteReducesWork(cfg, net, a.c);
    } else if a.ClientReadsHeader? || a.ClientReadsBody? {
      ResponseReadReducesWork(cfg, net, a);
    } else if a.ServerReadsHeader? {
      HeaderReadReducesWork(cfg, net, a.h);
    } else {
      ServerReducesWork(cfg, net, a);
    }
  }

  lemma ClientGoesOnReading(client: C.State, ca: C.Action)
    requires C.Enabled(client, ca) && CS.Internal(ca) && !Stopping(client.receiver)
    ensures !Stopping(C.Apply(client, ca).receiver) && |C.Apply(client, ca).calls| == |client.calls|
  {
  }

  lemma ServerGoesOnReading(cfg: S.Config, server: S.Server, sa: S.Action)
    requires S.Enabled(cfg, server, sa) && !sa.HeaderFails? && !sa.BodyFails?
    requires !server.loop.Draining? && !server.loop.Closed? && !server.dead
    ensures var t := S.Apply(cfg, server, sa); !t.loop.Draining? && !t.loop.Closed? && !t.dead
  {
  }

  lemma GoodKeepsHealth(cfg: S.Config, net: Net, a: Action)
    requires Inv(cfg, net) && Enabled(cfg, net, a) && Good(a) && Healthy(net)
    ensures Healthy(Apply(cfg, net, a)) && |Apply(cfg, net, a).client.calls| == |net.client.calls|
  {
    match a
    case Client(ca) => ClientGoesOnReading(net.client, ca);
    case ClientWrites(c, _, _) =>
    case ClientReadsHeader(h) =>
    case ClientReadsBody(body) =>
    case Server(sa) => ServerGoesOnReading(cfg, net.server, sa);
    case ServerWrites(sa, _, _) => ServerGoesOnReading(cfg, net.server, sa);
    case ServerReadsHeader(h) => ServerGoesOnReading(cfg, net.server, S.HeaderArrives(h));
    case ServerReadsBody(args) => ServerGoesOnReading(cfg, net.server, S.BodyArrives(args));
  }

  lemma GoodKeepsRegistered(cfg: S.Config, net: Net, a: Action)
    requires Inv(cfg, net) && Enabled(cfg, net, a) && Good(a) && Healthy(net) && AllRegistered(cfg, net.client)
    ensures AllRegistered(cfg, Apply(cfg, net, a).client)
  {
    GoodKeepsHealth(cfg, net, a);
    var t := Apply(cfg, net, a);
    forall c | 0 <= c < |t.client.calls|
      ensures t.client.calls[c].target == net.client.calls[c].target
    {
      match a {
        case Client(ca) => StepKeepsQuestion(net.client, ca, c);
        case ClientWrites(d, ok, _) => StepKeepsQuestion(net.client, C.WriteReturns(d, ok), c);
        case ClientReadsHeader(h) => StepKeepsQuestion(net.client, C.HeaderArrives(h), c);
        case ClientReadsBody(body) => StepKeepsQuestion(net.client, C.BodyArrives(body), c);
        case _ =>
      }
    }
  }

  // ---- main results ----

  // Every call has been completed exactly once, unless its own context took it out.
  ghost predicate AllDone(client: C.State) {
    forall c :: 0 <= c < |client.calls| ==> (client.calls[c].strobes == 1 <==> !client.calls[c].withdrawn)
  }

  lemma SettledIsDone(client: C.State)
    requires CS.Inv(client) && CS.AllIdle(client) && client.shared.core.pending == map[] && client.receiver.ReadHeader?
    ensures AllDone(client)
  {
    forall c | 0 <= c < |client.calls|
      ensures client.calls[c].strobes == 1 <==> !client.calls[c].withdrawn
    {
      assert CS.CallOk(c, client.calls[c], client.shared, client.receiver);
    }
  }

  // As long as nothing fails: the steps that are taken without new calls are
  // bounded in number, and when none is left every call is done.
  lemma {:induction false} GoodRunsComplete(cfg: S.Config, net: Net, actions: seq<Action>)
    requires Inv(cfg, net) && Healthy(net) && AllTracked(net) && AllRegistered(cfg, net.client)
    requires cfg.timeoutMessage != "" && Run(cfg, net, actions).Some? && forall a :: a in actions ==> Good(a)
    ensures var t := Run(cfg, net, actions).value;
      && |actions| <= NetWork(net) - NetWork(t)
      && (!CanGoOn(cfg, t) ==> Settled(t) && AllDone(t.client))
    decreases actions
  {
    if actions == [] {
      if !Settled(net) {
        UnsettledGoesOn(cfg, net);
      } else {
        SettledIsDone(net.client);
      }
    } else {
      var t := Apply(cfg, net, actions[0]);
      GoodStep(cfg, net, actions[0]);
      GoodRunsComplete(cfg, t, actions[1..]);
    }
  }

  lemma GoodStep(cfg: S.Config, net: Net, a: Action)
    requires Inv(cfg, net) && Healthy(net) && AllTracked(net) && AllRegistered(cfg, net.client)
    requires cfg.timeoutMessage != "" && Enabled(cfg, net, a) && Good(a)
    ensures var t := Apply(cfg, net, a);
      && Inv(cfg, t) && Healthy(t) && AllTracked(t) && AllRegistered(cfg, t.client) && NetWork(t) < NetWork(net)
  {
    GoodKeepsHealth(cfg, net, a);
    GoodKeepsRegistered(cfg, net, a);
    GoodReducesWork(cfg, net, a);
    StepKeepsInv(cfg, net, a);
    StepKeepsTracked(cfg, net, a);
  }

  // From every reachable state in which nothing has failed.
  lemma EveryCallCompletes(cfg: S.Config, net: Net, actions: seq<Action>)
    requires Reachable(cfg, net) && Healthy(net) && AllRegistered(cfg, net.client) && cfg.timeoutMessage != ""
    requires Run(cfg, net, actions).Some? && forall a :: a in actions ==> Good(a)
    ensures var t := Run(cfg, net, actions).value;
      && |actions| <= NetWork(net)
      && (!CanGoOn(cfg, t) ==> Settled(t) && AllDone(t.client))
  {
    ReachableTracked(cfg, net);
    GoodRunsComplete(cfg, net, actions);
  }
}
