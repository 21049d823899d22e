// Client and server joined by the two directions of one connection. Frames
// arrive in order but may stop arriving, writes may deliver less than they
// report, reads may fail at any time, and a frame read at the wrong place
// decodes to anything.
module RpcNet {
  import opened Options
  import opened RpcWire
  import C = RpcProtocol
  import CS = RpcSafety
  import S = RpcServer
  import SS = RpcServerSafety

  datatype Net = Net(client: C.State, server: S.Server, up: Pipe, down: Pipe)

  const INIT := Net(C.INIT, S.INIT, Pipe([], 0, false, false), Pipe([], 0, false, false))

  datatype Action =
    | Client(ca: C.Action)                        // a step without I/O, or a failing read
    | ClientWrites(c: nat, ok: bool, n: nat)      // n frames get through
    | ClientReadsHeader(h: Header)
    | ClientReadsBody(body: Payload)
    | Server(sa: S.Action)
    | ServerWrites(sa: S.Action, ok: bool, n: nat)
    | ServerReadsHeader(h: Header)
    | ServerReadsBody(args: string)

  predicate Enabled(cfg: S.Config, net: Net, a: Action) {
    match a
    case Client(ca) => C.Enabled(net.client, ca) && !ca.WriteReturns? && !ca.HeaderArrives? && !ca.BodyArrives?
    case ClientWrites(c, ok, n) => C.Enabled(net.client, C.WriteReturns(c, ok)) && net.up.CanWrite(n)
    case ClientReadsHeader(h) => C.Enabled(net.client, C.HeaderArrives(h)) && net.down.CanReadHeader(h)
    case ClientReadsBody(body) => C.Enabled(net.client, C.BodyArrives(body)) && net.down.CanReadBody(body)
    case Server(sa) =>
      && S.Enabled(cfg, net.server, sa) && !S.Writes(sa) && !sa.HeaderArrives? && !sa.BodyArrives?
      && (sa.BodyFails? && sa.consumed ==> net.up.pos < |net.up.log|)
    case ServerWrites(sa, ok, n) =>
      S.Enabled(cfg, net.server, sa) && S.Writes(sa) && |net.server.requests| > 0 && net.down.CanWrite(n)
    case ServerReadsHeader(h) => S.Enabled(cfg, net.server, S.HeaderArrives(h)) && net.up.CanReadHeader(h)
    case ServerReadsBody(args) => S.Enabled(cfg, net.server, S.BodyArrives(args)) && net.up.CanReadBody(Args(args))
  }

  function Apply(cfg: S.Config, net: Net, a: Action): Net
    requires Enabled(cfg, net, a)
  {
    match a
    case Client(ca) => net.(client := C.Apply(net.client, ca))
    case ClientWrites(c, ok, n) =>
      net.(client := C.Apply(net.client, C.WriteReturns(c, ok)),
           up := net.up.Write(net.client.shared.header, Args(net.client.calls[c].args), ok, n))
    case ClientReadsHeader(h) =>
      net.(client := C.Apply(net.client, C.HeaderArrives(h)), down := net.down.Advance())
    case ClientReadsBody(body) =>
      net.(client := C.Apply(net.client, C.BodyArrives(body)), down := net.down.Advance())
    case Server(sa) => ServerMoves(net, S.Apply(cfg, net.server, sa))
    case ServerWrites(sa, ok, n) =>
      var (h, body) := S.Response(cfg, net.server, sa);
      net.(server := S.Apply(cfg, net.server, sa), down := net.down.Write(h, body, ok, n))
    case ServerReadsHeader(h) => ServerMoves(net, S.Apply(cfg, net.server, S.HeaderArrives(h)))
    case ServerReadsBody(args) => ServerMoves(net, S.Apply(cfg, net.server, S.BodyArrives(args)))
  }

  function ServerMoves(net: Net, server: S.Server): Net {
    net.(server := server, up := net.up.(pos := server.pos, dead := server.dead))
  }

  function Run(cfg: S.Config, net: Net, actions: seq<Action>): Option<Net>
    decreases actions
  {
    if actions == [] then Some(net)
    else if !Enabled(cfg, net, actions[0]) then None
    else Run(cfg, Apply(cfg, net, actions[0]), actions[1..])
  }

  ghost predicate Reachable(cfg: S.Config, net: Net) {
    exists actions :: Run(cfg, INIT, actions) == Some(net)
  }

  // Every call names a method that the server has.
  ghost predicate AllRegistered(cfg: S.Config, client: C.State) {
    forall c :: 0 <= c < |client.calls| ==> cfg.Registered(client.calls[c].target)
  }

  // ---- what was asked under each number ----

  datatype Question = Question(target: string, args: string)

  type Ledger = map<nat, Question>

  function Asked(client: C.State): Ledger
    requires CS.Filed(client.calls, client.shared)
  {
    map n | n in client.shared.issued ::
      Question(client.calls[client.shared.issued[n]].target, client.calls[client.shared.issued[n]].args)
  }

  ghost predicate Grows(l: Ledger, l': Ledger) {
    forall n :: n in l ==> n in l' && l'[n] == l[n]
  }

  // A reply without error is the method's own answer. A method failing with an
  // empty message cannot be told from success: the caller gets the placeholder.
  ghost predicate Answers(cfg: S.Config, n: nat, q: Question, body: Payload) {
    match cfg.run(n, q.target, q.args)
    case Ok(reply) => body == Reply(reply)
    case Fail(message) => message == "" && body == Placeholder
  }

  // An error reported by the server is the method's own, or a timeout, or an unreadable body.
  ghost predicate Explains(cfg: S.Config, n: nat, q: Question, error: string) {
    || cfg.run(n, q.target, q.args) == S.Fail(error)
    || (cfg.timed && error == cfg.timeoutMessage)
    || error == S.BODY_MESSAGE
  }

  // A response, with an error or without, is one to what was asked under its number.
  ghost predicate Responds(cfg: S.Config, l: Ledger, h: Header, body: Payload)
    requires h.number in l
  {
    if h.error == "" then Answers(cfg, h.number, l[h.number], body) else Explains(cfg, h.number, l[h.number], h.error)
  }

  // ---- invariants of the parts ----

  ghost predicate UpAt(l: Ledger, log: seq<Frame>, i: nat)
    requires i < |log|
  {
    if i % 2 == 0 then
      log[i].HeaderFrame? && log[i].h.number in l && log[i].h == Header(l[log[i].h.number].target, log[i].h.number, "")
    else
      log[i - 1].HeaderFrame? && log[i - 1].h.number in l && log[i] == BodyFrame(Args(l[log[i - 1].h.number].args))
  }

  ghost predicate UpOk(l: Ledger, log: seq<Frame>) {
    forall i :: 0 <= i < |log| ==> UpAt(l, log, i)
  }

  ghost predicate RequestRead(log: seq<Frame>, req: S.Request) {
    && req.at % 2 == 0 && req.at < |log| && log[req.at] == HeaderFrame(req.h)
    && (req.handled ==> req.at + 1 < |log| && log[req.at + 1] == BodyFrame(Args(req.args)))
    && (!req.handled ==> req.error == S.BODY_MESSAGE)
  }

  // The server's reader: before a header it is at an even position, before a
  // body right behind that body's header.
  ghost predicate ReaderOk(up: Pipe, server: S.Server) {
    && up.pos == server.pos <= |up.log| && up.dead == server.dead
    && (!server.loop.ReadBody? && !server.dead ==> server.pos % 2 == 0)
    && (server.loop.ReadBody? ==>
          && server.pos % 2 == 1 && server.loop.at == server.pos - 1
          && up.log[server.pos - 1] == HeaderFrame(server.loop.h))
  }

  ghost predicate ServerOk(up: Pipe, server: S.Server) {
    ReaderOk(up, server) && forall r :: 0 <= r < |server.requests| ==> RequestRead(up.log, server.requests[r])
  }

  ghost predicate DownAt(cfg: S.Config, l: Ledger, log: seq<Frame>, i: nat)
    requires i < |log|
  {
    if i % 2 == 0 then
      && log[i].HeaderFrame? && log[i].h.number in l
      && (log[i].h.error != "" ==> Explains(cfg, log[i].h.number, l[log[i].h.number], log[i].h.error))
    else
      && log[i - 1].HeaderFrame? && log[i - 1].h.number in l && log[i].BodyFrame?
      && (log[i - 1].h.error == "" ==> Answers(cfg, log[i - 1].h.number, l[log[i - 1].h.number], log[i].body))
  }

  ghost predicate DownOk(cfg: S.Config, l: Ledger, log: seq<Frame>) {
    forall i :: 0 <= i < |log| ==> DownAt(cfg, l, log, i)
  }

  ghost predicate ReceiverOk(cfg: S.Config, l: Ledger, down: Pipe, r: C.ReceiverPc) {
    && down.pos <= |down.log|
    && (r.ReadHeader? ==> down.pos % 2 == 0)
    && (r.RemoveWait? || r.RemoveHeld? || r.ReadBody? ==>
          down.pos % 2 == 1 && down.log[down.pos - 1] == HeaderFrame(r.h))
    && (r.Complete? ==>
          && (!r.last ==> down.pos % 2 == 0)
          && r.n in l
          && (r.outcome.Good? ==> Answers(cfg, r.n, l[r.n], r.outcome.body))
          && (r.outcome.Err? && r.outcome.error.ServerError? ==> Explains(cfg, r.n, l[r.n], r.outcome.error.message)))
  }

  ghost predicate ResultOk(cfg: S.Config, call: C.CallState) {
    var q := Question(call.target, call.args);
    && (call.strobes == 0 ==> call.error == None && call.reply == None)
    && (call.strobes > 0 && call.error == None ==> call.reply.Some? && Answers(cfg, call.number, q, call.reply.value))
    && (call.error.Some? && call.error.value.ServerError? ==> Explains(cfg, call.number, q, call.error.value.message))
  }

  ghost predicate Inv(cfg: S.Config, net: Net) {
    && CS.Inv(net.client) && SS.Inv(cfg, net.server)
    && (net.up.cut || |net.up.log| % 2 == 0) && (net.down.cut || |net.down.log| % 2 == 0)
    && var l := Asked(net.client);
      && UpOk(l, net.up.log)
      && ServerOk(net.up, net.server)
      && DownOk(cfg, l, net.down.log)
      && ReceiverOk(cfg, l, net.down, net.client.receiver)
      && (forall c :: 0 <= c < |net.client.calls| ==> ResultOk(cfg, net.client.calls[c]))
  }

  // ---- the client's side ----

  lemma StepKeepsQuestion(client: C.State, a: C.Action, c: nat)
    requires C.Enabled(client, a) && c < |client.calls|
    ensures var t := C.Apply(client, a);
      && |client.calls| <= |t.calls|
      && t.calls[c].target == client.calls[c].target && t.calls[c].args == client.calls[c].args
  {
  }

  lemma StepKeepsIssued(client: C.State, a: C.Action, n: nat)
    requires CS.SharedOk(client.shared, client.receiver) && C.Enabled(client, a) && n in client.shared.issued
    ensures n in C.Apply(client, a).shared.issued && C.Apply(client, a).shared.issued[n] == client.shared.issued[n]
  {
  }

  lemma ClientGrows(client: C.State, a: C.Action)
    requires CS.Inv(client) && C.Enabled(client, a)
    ensures CS.Inv(C.Apply(client, a)) && Grows(Asked(client), Asked(C.Apply(client, a)))
  {
    CS.StepKeepsInv(client, a);
    forall n | n in client.shared.issued
      ensures n in C.Apply(client, a).shared.issued && Asked(C.Apply(client, a))[n] == Asked(client)[n]
    {
      StepKeepsIssued(client, a, n);
      StepKeepsQuestion(client, a, client.shared.issued[n]);
    }
  }

  lemma ClientKeepsRegistered(cfg: S.Config, client: C.State, a: C.Action)
    requires C.Enabled(client, a) && AllRegistered(cfg, C.Apply(client, a))
    ensures AllRegistered(cfg, client)
  {
    forall c | 0 <= c < |client.calls|
      ensures cfg.Registered(client.calls[c].target)
    {
      StepKeepsQuestion(client, a, c);
    }
  }

  lemma PipesGrow(cfg: S.Config, l: Ledger, l': Ledger, up: seq<Frame>, down: seq<Frame>)
    requires Grows(l, l') && UpOk(l, up) && DownOk(cfg, l, down)
    ensures UpOk(l', up) && DownOk(cfg, l', down)
  {
    forall i | 0 <= i < |up|
      ensures UpAt(l', up, i)
    {
      assert UpAt(l, up, i);
    }
    forall i | 0 <= i < |down|
      ensures DownAt(cfg, l', down, i)
    {
      assert DownAt(cfg, l, down, i);
    }
  }

  // ---- results of calls ----

  lemma AdvanceResult(cfg: S.Config, c: nat, call: C.CallState, sh: C.Shared)
    requires C.CanAdvance(call, sh) && ResultOk(cfg, call) && (call.pc.RegisterHeld? ==> call.strobes == 0)
    ensures ResultOk(cfg, C.AdvanceCaller(c, call, sh).0)
  {
  }

  lemma FinishResult(cfg: S.Config, client: C.State, down: Pipe)
    requires CS.Inv(client) && C.Enabled(client, C.Finish)
    requires ReceiverOk(cfg, Asked(client), down, client.receiver)
    requires ResultOk(cfg, client.calls[client.receiver.c])
    ensures ResultOk(cfg, C.Apply(client, C.Finish).calls[client.receiver.c])
  {
    var c := client.receiver.c;
    assert CS.CallOk(c, client.calls[c], client.shared, client.receiver);
    assert Asked(client)[client.receiver.n] == Question(client.calls[c].target, client.calls[c].args);
  }

  lemma ResultsKept(cfg: S.Config, client: C.State, down: Pipe, a: C.Action, c: nat)
    requires CS.Inv(client) && C.Enabled(client, a) && c < |C.Apply(client, a).calls|
    requires ReceiverOk(cfg, Asked(client), down, client.receiver)
    requires c < |client.calls| ==> ResultOk(cfg, client.calls[c])
    ensures ResultOk(cfg, C.Apply(client, a).calls[c])
  {
    if c < |client.calls| {
      if a.Advance? {
        if a.c == c {
          assert CS.CallOk(c, client.calls[c], client.shared, client.receiver);
          AdvanceResult(cfg, c, client.calls[c], client.shared);
        }
      } else if a.Finish? && client.receiver.c == c {
        FinishResult(cfg, client, down);
      }
    }
  }

  lemma ReceiverKept(cfg: S.Config, client: C.State, down: Pipe, a: C.Action)
    requires CS.Inv(client) && C.Enabled(client, a)
    requires a.Receive? || a.Finish? || a.Sweep? || a.HeaderFails? || a.BodyFails?
    requires DownOk(cfg, Asked(client), down.log)
    requires ReceiverOk(cfg, Asked(client), down, client.receiver)
    ensures ReceiverOk(cfg, Asked(client), down, C.Apply(client, a).receiver)
  {
    var l := Asked(client);
    if a.BodyFails? {
      assert DownAt(cfg, l, down.log, down.pos - 1);
    }
  }

  lemma BodyKept(cfg: S.Config, client: C.State, down: Pipe, body: Payload)
    requires CS.Inv(client) && C.Enabled(client, C.BodyArrives(body)) && down.CanReadBody(body)
    requires DownOk(cfg, Asked(client), down.log)
    requires ReceiverOk(cfg, Asked(client), down, client.receiver)
    ensures ReceiverOk(cfg, Asked(client), down.Advance(), C.Apply(client, C.BodyArrives(body)).receiver)
  {
    var l := Asked(client);
    assert DownAt(cfg, l, down.log, down.pos - 1) && DownAt(cfg, l, down.log, down.pos);
  }

  lemma HeaderKept(cfg: S.Config, client: C.State, down: Pipe, h: Header)
    requires CS.Inv(client) && C.Enabled(client, C.HeaderArrives(h)) && down.CanReadHeader(h)
    requires DownOk(cfg, Asked(client), down.log)
    requires ReceiverOk(cfg, Asked(client), down, client.receiver)
    ensures ReceiverOk(cfg, Asked(client), down.Advance(), C.Apply(client, C.HeaderArrives(h)).receiver)
  {
    assert DownAt(cfg, Asked(client), down.log, down.pos);
  }

  // ---- writes ----

  lemma UpWrite(l: Ledger, up: Pipe, h: Header, body: Payload, ok: bool, n: nat)
    requires UpOk(l, up.log) && up.CanWrite(n) && (up.cut || |up.log| % 2 == 0)
    requires h.number in l && h == Header(l[h.number].target, h.number, "") && body == Args(l[h.number].args)
    ensures var up' := up.Write(h, body, ok, n);
      UpOk(l, up'.log) && (up'.cut || |up'.log| % 2 == 0) && up.log <= up'.log
  {
    var up' := up.Write(h, body, ok, n);
    forall i | 0 <= i < |up'.log|
      ensures UpAt(l, up'.log, i)
    {
      if i < |up.log| {
        assert UpAt(l, up.log, i);
      }
    }
  }

  lemma DownWrite(cfg: S.Config, l: Ledger, down: Pipe, h: Header, body: Payload, ok: bool, n: nat)
    requires DownOk(cfg, l, down.log) && down.CanWrite(n) && (down.cut || |down.log| % 2 == 0)
    requires h.number in l
    requires Responds(cfg, l, h, body)
    ensures var down' := down.Write(h, body, ok, n);
      DownOk(cfg, l, down'.log) && (down'.cut || |down'.log| % 2 == 0) && down.log <= down'.log
  {
    var down' := down.Write(h, body, ok, n);
    forall i | 0 <= i < |down'.log|
      ensures DownAt(cfg, l, down'.log, i)
    {
      if i < |down.log| {
        assert DownAt(cfg, l, down.log, i);
      }
    }
  }

  // The server's response to a request it read from an orderly pipe.
  lemma ResponseOk(cfg: S.Config, l: Ledger, up: Pipe, server: S.Server, a: S.Action)
    requires SS.Inv(cfg, server) && UpOk(l, up.log) && ServerOk(up, server) && cfg.timeoutMessage != ""
    requires S.Enabled(cfg, server, a) && S.Writes(a) && |server.requests| > 0
    ensures var (h, body) := S.Response(cfg, server, a);
      && h.number in l
      && Responds(cfg, l, h, body)
  {
    var r := if a.LoopWrites? then |server.requests| - 1 else a.r;
    var req := server.requests[r];
    assert RequestRead(up.log, req);
    assert SS.RequestOk(cfg, r, req, server.shared);
    assert UpAt(l, up.log, req.at);
    if req.handled {
      assert UpAt(l, up.log, req.at + 1);
    }
  }

  // ---- the server's side ----

  // What the server may read at its position in the pipe.
  ghost predicate CanRead(up: Pipe, a: S.Action) {
    && (a.HeaderArrives? ==> up.CanReadHeader(a.h))
    && (a.BodyArrives? ==> up.CanReadBody(Args(a.args)))
    && (a.BodyFails? && a.consumed ==> up.pos < |up.log|)
  }

  lemma ReaderStaysOk(cfg: S.Config, l: Ledger, up: Pipe, server: S.Server, a: S.Action)
    requires SS.PositionsOk(cfg, server) && UpOk(l, up.log) && ReaderOk(up, server)
    requires forall n :: n in l ==> cfg.Registered(l[n].target)
    requires S.LoopEnabled(server, a) && CanRead(up, a)
    ensures var t := S.LoopStep(cfg, server, a); ReaderOk(up.(pos := t.pos, dead := t.dead), t)
  {
    if a.HeaderArrives? {
      assert UpAt(l, up.log, up.pos);
      assert cfg.Registered(a.h.target);
    }
  }

  lemma NewRequestRead(cfg: S.Config, l: Ledger, up: Pipe, server: S.Server, a: S.Action)
    requires SS.PositionsOk(cfg, server) && UpOk(l, up.log) && ReaderOk(up, server)
    requires forall n :: n in l ==> cfg.Registered(l[n].target)
    requires S.LoopEnabled(server, a) && CanRead(up, a)
    ensures var t := S.LoopStep(cfg, server, a);
      |t.requests| > |server.requests| ==> RequestRead(up.log, t.requests[|server.requests|])
  {
    if a.HeaderArrives? || a.BodyArrives? {
      assert UpAt(l, up.log, up.pos);
    }
  }

  lemma ReadsOk(cfg: S.Config, l: Ledger, up: Pipe, server: S.Server, a: S.Action)
    requires SS.Inv(cfg, server) && UpOk(l, up.log) && ServerOk(up, server)
    requires forall n :: n in l ==> cfg.Registered(l[n].target)
    requires S.Enabled(cfg, server, a) && CanRead(up, a)
    ensures var t := S.Apply(cfg, server, a); ServerOk(up.(pos := t.pos, dead := t.dead), t)
  {
    if S.Subject(a).None? {
      ReaderStaysOk(cfg, l, up, server, a);
      NewRequestRead(cfg, l, up, server, a);
    }
    var t := S.Apply(cfg, server, a);
    forall r | 0 <= r < |t.requests|
      ensures RequestRead(up.log, t.requests[r])
    {
      if r < |server.requests| {
        OldRequestRead(cfg, up, server, a, r);
      }
    }
  }

  lemma OldRequestRead(cfg: S.Config, up: Pipe, server: S.Server, a: S.Action, r: nat)
    requires SS.Inv(cfg, server) && ServerOk(up, server) && S.Enabled(cfg, server, a) && r < |server.requests|
    ensures RequestRead(up.log, S.Apply(cfg, server, a).requests[r])
  {
    assert RequestRead(up.log, server.requests[r]);
    assert SS.RequestOk(cfg, r, server.requests[r], server.shared);
    if S.Subject(a) == Some(r) {
      SteppedRequestRead(cfg, up.log, r, server.requests[r], server.shared, a);
    }
  }

  lemma SteppedRequestRead(cfg: S.Config, log: seq<Frame>, r: nat, req: S.Request, sh: S.Shared, a: S.Action)
    requires RequestRead(log, req) && SS.RequestOk(cfg, r, req, sh) && S.RequestEnabled(cfg, req, sh, a)
    ensures RequestRead(log, S.RequestStep(cfg, r, req, sh, a).0)
  {
  }

  lemma LongerLogRead(up: Pipe, up': Pipe, server: S.Server)
    requires ServerOk(up, server) && up.log <= up'.log && up'.pos == up.pos && up'.dead == up.dead
    ensures ServerOk(up', server)
  {
    forall r | 0 <= r < |server.requests|
      ensures RequestRead(up'.log, server.requests[r])
    {
      assert RequestRead(up.log, server.requests[r]);
    }
  }

  // ---- every step ----

  lemma AllResultsKept(cfg: S.Config, client: C.State, down: Pipe, ca: C.Action)
    requires CS.Inv(client) && C.Enabled(client, ca) && ReceiverOk(cfg, Asked(client), down, client.receiver)
    requires forall c :: 0 <= c < |client.calls| ==> ResultOk(cfg, client.calls[c])
    ensures forall c :: 0 <= c < |C.Apply(client, ca).calls| ==> ResultOk(cfg, C.Apply(client, ca).calls[c])
  {
    var t := C.Apply(client, ca);
    forall c | 0 <= c < |t.calls|
      ensures ResultOk(cfg, t.calls[c])
    {
      ResultsKept(cfg, client, down, ca, c);
    }
  }

  lemma ClientReceiverKept(cfg: S.Config, client: C.State, down: Pipe, ca: C.Action)
    requires CS.Inv(client) && C.Enabled(client, ca) && !ca.HeaderArrives? && !ca.BodyArrives?
    requires DownOk(cfg, Asked(client), down.log) && ReceiverOk(cfg, Asked(client), down, client.receiver)
    ensures ReceiverOk(cfg, Asked(client), down, C.Apply(client, ca).receiver)
  {
    if ca.Receive? || ca.Finish? || ca.Sweep? || ca.HeaderFails? || ca.BodyFails? {
      ReceiverKept(cfg, client, down, ca);
    } else {
      assert C.Apply(client, ca).receiver == client.receiver;
    }
  }

  // More numbers in the ledger and more frames behind change nothing for the receiver.
  lemma ReceiverStaysOk(cfg: S.Config, l: Ledger, l': Ledger, down: Pipe, down': Pipe, r: C.ReceiverPc)
    requires ReceiverOk(cfg, l, down, r) && Grows(l, l') && down.log <= down'.log && down'.pos == down.pos
    ensures ReceiverOk(cfg, l', down', r)
  {
  }

  // A client's step that leaves its receiver in order keeps everything in order.
  lemma ClientMoveKeepsInv(cfg: S.Config, net: Net, ca: C.Action, down: Pipe)
    requires Inv(cfg, net) && C.Enabled(net.client, ca)
    requires down.log == net.down.log && down.cut == net.down.cut
    requires ReceiverOk(cfg, Asked(net.client), down, C.Apply(net.client, ca).receiver)
    ensures Inv(cfg, net.(client := C.Apply(net.client, ca), down := down))
  {
    var t := C.Apply(net.client, ca);
    ClientGrows(net.client, ca);
    PipesGrow(cfg, Asked(net.client), Asked(t), net.up.log, net.down.log);
    AllResultsKept(cfg, net.client, net.down, ca);
    ReceiverStaysOk(cfg, Asked(net.client), Asked(t), down, down, t.receiver);
  }

  lemma ClientWriteKeepsInv(cfg: S.Config, net: Net, c: nat, ok: bool, n: nat)
    requires Inv(cfg, net) && Enabled(cfg, net, ClientWrites(c, ok, n))
    ensures Inv(cfg, Apply(cfg, net, ClientWrites(c, ok, n)))
  {
    var ca := C.WriteReturns(c, ok);
    var up := net.up.Write(net.client.shared.header, Args(net.client.calls[c].args), ok, n);
    RequestWritten(net.client, net.up, c, ok, n);
    LongerLogRead(net.up, up, net.server);
    var m := net.(up := up);
    assert Inv(cfg, m);
    ClientReceiverKept(cfg, m.client, m.down, ca);
    ClientMoveKeepsInv(cfg, m, ca, m.down);
  }

  lemma RequestWritten(client: C.State, up: Pipe, c: nat, ok: bool, n: nat)
    requires CS.Inv(client) && C.Enabled(client, C.WriteReturns(c, ok)) && up.CanWrite(n)
    requires UpOk(Asked(client), up.log) && (up.cut || |up.log| % 2 == 0)
    ensures var up' := up.Write(client.shared.header, Args(client.calls[c].args), ok, n);
      UpOk(Asked(client), up'.log) && (up'.cut || |up'.log| % 2 == 0) && up.log <= up'.log
  {
    assert CS.CallOk(c, client.calls[c], client.shared, client.receiver);
    UpWrite(Asked(client), up, client.shared.header, Args(client.calls[c].args), ok, n);
  }

  lemma ServerMoveKeepsInv(cfg: S.Config, net: Net, sa: S.Action)
    requires Inv(cfg, net) && AllRegistered(cfg, net.client) && S.Enabled(cfg, net.server, sa)
    requires CanRead(net.up, sa)
    ensures Inv(cfg, ServerMoves(net, S.Apply(cfg, net.server, sa)))
  {
    assert forall n :: n in Asked(net.client) ==> cfg.Registered(Asked(net.client)[n].target);
    SS.StepKeepsInv(cfg, net.server, sa);
    ReadsOk(cfg, Asked(net.client), net.up, net.server, sa);
  }

  lemma ServerWriteKeepsInv(cfg: S.Config, net: Net, sa: S.Action, ok: bool, n: nat)
    requires Inv(cfg, net) && AllRegistered(cfg, net.client) && cfg.timeoutMessage != ""
    requires Enabled(cfg, net, ServerWrites(sa, ok, n))
    ensures Inv(cfg, Apply(cfg, net, ServerWrites(sa, ok, n)))
  {
    var l := Asked(net.client);
    ServerMoveKeepsInv(cfg, net, sa);
    assert net.up == ServerMoves(net, S.Apply(cfg, net.server, sa)).up;
    ResponseOk(cfg, l, net.up, net.server, sa);
    var (h, body) := S.Response(cfg, net.server, sa);
    DownWrite(cfg, l, net.down, h, body, ok, n);
    ReceiverStaysOk(cfg, l, l, net.down, net.down.Write(h, body, ok, n), net.client.receiver);
  }

  lemma StepKeepsInv(cfg: S.Config, net: Net, a: Action)
    requires Inv(cfg, net) && Enabled(cfg, net, a)
    requires AllRegistered(cfg, net.client) && cfg.timeoutMessage != ""
    ensures Inv(cfg, Apply(cfg, net, a))
  {
    match a
    case Client(ca) =>
      ClientReceiverKept(cfg, net.client, net.down, ca);
      ClientMoveKeepsInv(cfg, net, ca, net.down);
    case ClientReadsHeader(h) =>
      HeaderKept(cfg, net.client, net.down, h);
      ClientMoveKeepsInv(cfg, net, C.HeaderArrives(h), net.down.Advance());
    case ClientReadsBody(body) =>
      BodyKept(cfg, net.client, net.down, body);
      ClientMoveKeepsInv(cfg, net, C.BodyArrives(body), net.down.Advance());
    case ClientWrites(c, ok, n) => ClientWriteKeepsInv(cfg, net, c, ok, n);
    case Server(sa) => ServerMoveKeepsInv(cfg, net, sa);
    case ServerReadsHeader(h) => ServerMoveKeepsInv(cfg, net, S.HeaderArrives(h));
    case ServerReadsBody(args) => ServerMoveKeepsInv(cfg, net, S.BodyArrives(args));
    case ServerWrites(sa, ok, n) => ServerWriteKeepsInv(cfg, net, sa, ok, n);
  }

  lemma StepKeepsCalls(cfg: S.Config, net: Net, a: Action)
    requires Enabled(cfg, net, a) && AllRegistered(cfg, Apply(cfg, net, a).client)
    ensures AllRegistered(cfg, net.client)
  {
    match a
    case Client(ca) => ClientKeepsRegistered(cfg, net.client, ca);
    case ClientReadsHeader(h) => ClientKeepsRegistered(cfg, net.client, C.HeaderArrives(h));
    case ClientReadsBody(body) => ClientKeepsRegistered(cfg, net.client, C.BodyArrives(body));
    case ClientWrites(c, ok, n) => ClientKeepsRegistered(cfg, net.client, C.WriteReturns(c, ok));
    case Server(_) =>
    case ServerReadsHeader(_) =>
    case ServerReadsBody(_) =>
    case ServerWrites(_, _, _) =>
  }

  lemma {:induction false} RunKeepsCalls(cfg: S.Config, net: Net, actions: seq<Action>)
    requires Run(cfg, net, actions).Some? && AllRegistered(cfg, Run(cfg, net, actions).value.client)
    ensures AllRegistered(cfg, net.client)
    decreases actions
  {
    if actions != [] {
      RunKeepsCalls(cfg, Apply(cfg, net, actions[0]), actions[1..]);
      StepKeepsCalls(cfg, net, actions[0]);
    }
  }

  lemma {:induction false} RunKeepsInv(cfg: S.Config, net: Net, actions: seq<Action>)
    requires Inv(cfg, net) && Run(cfg, net, actions).Some? && cfg.timeoutMessage != ""
    requires AllRegistered(cfg, Run(cfg, net, actions).value.client)
    ensures Inv(cfg, Run(cfg, net, actions).value)
    decreases actions
  {
    if actions != [] {
      RunKeepsCalls(cfg, net, actions);
      StepKeepsInv(cfg, net, actions[0]);
      RunKeepsInv(cfg, Apply(cfg, net, actions[0]), actions[1..]);
    }
  }

  lemma ReachableInv(cfg: S.Config, net: Net)
    requires Reachable(cfg, net) && AllRegistered(cfg, net.client) && cfg.timeoutMessage != ""
    ensures Inv(cfg, net)
  {
    var actions :| Run(cfg, INIT, actions) == Some(net);
    RunKeepsInv(cfg, INIT, actions);
  }

  // ---- main results ----

  // A call completed without error has the answer of its own method to its own
  // arguments, however many calls are outstanding and in whatever order the
  // responses come; a server error is one that this very call can have caused.
  lemma ReplyMatchesCall(cfg: S.Config, net: Net, c: nat)
    requires Reachable(cfg, net) && AllRegistered(cfg, net.client) && cfg.timeoutMessage != ""
    requires c < |net.client.calls| && net.client.calls[c].strobes > 0
    ensures var call := net.client.calls[c]; var q := Question(call.target, call.args);
      && (call.error == None ==> call.reply.Some? && Answers(cfg, call.number, q, call.reply.value))
      && (call.error.Some? && call.error.value.ServerError? ==> Explains(cfg, call.number, q, call.error.value.message))
  {
    ReachableInv(cfg, net);
    assert ResultOk(cfg, net.client.calls[c]);
  }

  // Whenever a header is about to be read, the next frame is a header, and
  // whenever a body is, the next frame is a body: neither reader loses framing.
  lemma BothReadersAligned(cfg: S.Config, net: Net)
    requires Reachable(cfg, net) && AllRegistered(cfg, net.client) && cfg.timeoutMessage != ""
    ensures net.client.receiver.ReadHeader? && net.down.pos < |net.down.log| ==>
      net.down.log[net.down.pos].HeaderFrame?
    ensures net.client.receiver.ReadBody? && net.down.pos < |net.down.log| ==>
      net.down.log[net.down.pos].BodyFrame?
    ensures net.server.loop.ReadHeader? && !net.server.dead && net.up.pos < |net.up.log| ==>
      net.up.log[net.up.pos].HeaderFrame?
    ensures net.server.loop.ReadBody? && net.up.pos < |net.up.log| ==>
      net.up.log[net.up.pos].BodyFrame?
  {
    ReachableInv(cfg, net);
    DownAligned(cfg, net);
    UpAligned(cfg, net);
  }

  lemma DownAligned(cfg: S.Config, net: Net)
    requires Inv(cfg, net)
    ensures net.client.receiver.ReadHeader? && net.down.pos < |net.down.log| ==>
      net.down.log[net.down.pos].HeaderFrame?
    ensures net.client.receiver.ReadBody? && net.down.pos < |net.down.log| ==>
      net.down.log[net.down.pos].BodyFrame?
  {
    if net.down.pos < |net.down.log| {
      assert DownAt(cfg, Asked(net.client), net.down.log, net.down.pos);
    }
  }

  lemma UpAligned(cfg: S.Config, net: Net)
    requires Inv(cfg, net)
    ensures net.server.loop.ReadHeader? && !net.server.dead && net.up.pos < |net.up.log| ==>
      net.up.log[net.up.pos].HeaderFrame?
    ensures net.server.loop.ReadBody? && net.up.pos < |net.up.log| ==>
      net.up.log[net.up.pos].BodyFrame? && net.up.log[net.up.pos].body.Args?
  {
    if net.up.pos < |net.up.log| {
      assert UpAt(Asked(net.client), net.up.log, net.up.pos);
    }
  }
}
