// What a response does to the call it is for, with the server and the pipes in between.
module RpcNetOutcome {
  import opened Options
  import opened RpcWire
  import opened RpcNet
  import C = RpcProtocol
  import CS = RpcSafety
  import O = RpcOutcome
  import RpcClient

  // The client's part in a step, if it has one.
  function ClientPart(a: Action): seq<C.Action> {
    match a
    case Client(ca) => [ca]
    case ClientWrites(c, ok, _) => [C.WriteReturns(c, ok)]
    case ClientReadsHeader(h) => [C.HeaderArrives(h)]
    case ClientReadsBody(body) => [C.BodyArrives(body)]
    case _ => []
  }

  function ClientParts(actions: seq<Action>): seq<C.Action> {
    if actions == [] then [] else ClientPart(actions[0]) + ClientParts(actions[1..])
  }

  // A run of the net is a run of its client.
  lemma {:induction false} RunOfClient(cfg: S.Config, net: Net, actions: seq<Action>)
    requires Run(cfg, net, actions).Some?
    ensures C.Run(net.client, ClientParts(actions)) == Some(Run(cfg, net, actions).value.client)
    decreases actions
  {
    if actions != [] {
      var t := Apply(cfg, net, actions[0]);
      RunOfClient(cfg, t, actions[1..]);
      var part := ClientPart(actions[0]);
      if part == [] {
        assert part + ClientParts(actions[1..]) == ClientParts(actions[1..]);
      } else {
        assert (part + ClientParts(actions[1..]))[1..] == ClientParts(actions[1..]);
      }
    }
  }

  lemma ClientIsReachable(cfg: S.Config, net: Net)
    requires Reachable(cfg, net)
    ensures C.Reachable(net.client)
  {
    var actions :| Run(cfg, INIT, actions) == Some(net);
    RunOfClient(cfg, INIT, actions);
  }

  // What the receive loop looks up is the header of the frame that it has read last.
  lemma LookupIsOfFrame(cfg: S.Config, net: Net)
    requires Reachable(cfg, net) && AllRegistered(cfg, net.client) && cfg.timeoutMessage != ""
    requires net.client.receiver.RemoveHeld? || net.client.receiver.ReadBody?
    ensures 0 < net.down.pos <= |net.down.log| && net.down.log[net.down.pos - 1] == HeaderFrame(net.client.receiver.h)
  {
    ReachableInv(cfg, net);
  }

  // The response just read carries an error: whoever made the call that is
  // pending under its number gets this error, whatever happens next.
  lemma ServerErrorReachesCaller(cfg: S.Config, net: Net, h: Header, actions: seq<Action>)
    requires Reachable(cfg, net) && net.client.receiver == C.RemoveHeld(h) && h.error != ""
    requires h.number in net.client.shared.core.pending && Run(cfg, net, actions).Some?
    ensures var c, t := net.client.shared.core.pending[h.number], Run(cfg, net, actions).value.client;
      c < |t.calls| && (t.calls[c].strobes > 0 ==> t.calls[c].error == Some(RpcClient.ServerError(h.error)))
  {
    ClientIsReachable(cfg, net);
    O.ServerErrorReachesCaller(net.client, h);
    RunOfClient(cfg, net, actions);
  }
}
