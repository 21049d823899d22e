// One served connection: the read loop of serveCodec and, for each request, the
// goroutine of handleRequest with the worker goroutine it starts. One step is
// one channel rendezvous, one lock operation, one read or one write.
module RpcServer {
  import opened Options
  import opened RpcWire

  // ---- finding the service ----

  datatype Lookup =
    | Found(service: string, operation: string)
    | IllFormed
    | NoService(service: string)
    | NoMethod(operation: string)

  // Index of the last dot, or -1.
  function LastDot(s: string): (i: int)
    ensures -1 <= i < |s|
    ensures i >= 0 ==> s[i] == '.'
    ensures forall j :: i < j < |s| ==> s[j] != '.'
  {
    if s == [] then -1
    else if s[|s| - 1] == '.' then |s| - 1
    else LastDot(s[..|s| - 1])
  }

  function FindService(services: map<string, set<string>>, target: string): Lookup {
    var dot := LastDot(target);
    if dot < 0 then IllFormed
    else
      var service, operation := target[..dot], target[dot + 1..];
      if service !in services then NoService(service)
      else if operation !in services[service] then NoMethod(operation)
      else Found(service, operation)
  }

  function LookupMessage(l: Lookup, target: string): string {
    match l
    case Found(_, _) => ""
    case IllFormed => "rpc server: service/method request ill-formed: " + target
    case NoService(service) => "rpc server: can't find service " + service
    case NoMethod(operation) => "rpc server: can't find method " + operation
  }

  // Exactly the names "service.method" resolve; a service name may have dots, a method name may not.
  lemma FindServiceResolves(services: map<string, set<string>>, service: string, operation: string, target: string)
    ensures FindService(services, target) == Found(service, operation) <==>
      target == service + "." + operation && '.' !in operation && service in services && operation in services[service]
  {
    if target == service + "." + operation && '.' !in operation {
      assert target[|service|] == '.';
      assert forall j :: |service| < j < |target| ==> target[j] == operation[j - |service| - 1];
      assert LastDot(target) == |service|;
      assert target[..|service|] == service && target[|service| + 1..] == operation;
    }
    if FindService(services, target) == Found(service, operation) {
      var dot := LastDot(target);
      assert target == target[..dot] + [target[dot]] + target[dot + 1..];
    }
  }

  // ---- requests ----

  datatype Result = Ok(reply: string) | Fail(message: string)

  datatype Config = Config(
    services: map<string, set<string>>,
    run: (nat, string, string) -> Result,  // what the call with this number answers, by target and arguments
    timed: bool,                      // HandleTimeout is not 0
    timeoutMessage: string)
  {
    predicate Registered(target: string) {
      FindService(services, target).Found?
    }
  }

  // The goroutine started by handleRequest.
  datatype WorkerPc =
    | Calling
    | OfferCalled(r: Result)  // at called <- struct{}{}
    | Issue(r: Result)        // about to call sendResponse
    | RespondWait(r: Result)  // in sendResponse, before sending.Lock
    | Responding(r: Result)   // holds sending; in cc.Write
    | OfferSent               // at sent <- struct{}{}
    | Exited

  // handleRequest itself.
  datatype MainPc =
    | Waiting                 // in the select, or at <-called when there is no timeout
    | TimeoutIssue
    | TimeoutWait
    | TimeoutWriting
    | AwaitSent
    | Returned

  datatype Request = Request(
    h: Header, at: nat,       // the header, and the position it was read at
    args: string,
    handled: bool,            // handed to handleRequest, rather than refused by the read loop
    main: MainPc, worker: WorkerPc,
    error: string,            // the Error field of the header, as it will be sent
    issued: nat)              // history: calls of sendResponse for this request

  datatype Owner = Free | ByLoop | ByMain(r: nat) | ByWorker(r: nat)

  datatype LoopPc =
    | ReadHeader
    | ReadBody(h: Header, at: nat)
    | ErrIssue | ErrWait | ErrWriting  // refusing the latest request
    | Draining                         // in wg.Wait
    | Closed

  datatype Shared = Shared(sending: Owner, wg: int)

  datatype Server = Server(
    loop: LoopPc, requests: seq<Request>, shared: Shared,
    pos: nat,     // frames consumed
    dead: bool)   // a read failed in transport; no later read succeeds

  const INIT := Server(ReadHeader, [], Shared(Free, 0), 0, false)

  datatype Action =
    | HeaderArrives(h: Header)
    | HeaderFails
    | BodyArrives(args: string)
    | BodyFails(consumed: bool)  // a decoding error consumes the frame, a transport error does not
    | Loop                       // the read loop's next step, where there is only one
    | LoopWrites
    | CallReturns(r: nat)
    | Called(r: nat)             // rendezvous on `called`
    | Timer(r: nat)
    | Worker(r: nat)
    | WorkerWrites(r: nat)
    | Sent(r: nat)               // rendezvous on `sent`
    | Main(r: nat)
    | MainWrites(r: nat)

  // ---- steps of one request ----

  predicate RequestEnabled(cfg: Config, req: Request, sh: Shared, a: Action) {
    match a
    case CallReturns(_) => req.worker.Calling?
    case Called(_) => req.worker.OfferCalled? && req.main.Waiting?
    case Timer(_) => cfg.timed && req.main.Waiting?
    case Worker(_) => req.worker.Issue? || (req.worker.RespondWait? && sh.sending.Free?)
    case WorkerWrites(_) => req.worker.Responding?
    case Sent(_) => req.worker.OfferSent? && req.main.AwaitSent?
    case Main(_) => req.main.TimeoutIssue? || (req.main.TimeoutWait? && sh.sending.Free?)
    case MainWrites(_) => req.main.TimeoutWriting?
    case _ => false
  }

  function RequestStep(cfg: Config, r: nat, req: Request, sh: Shared, a: Action): (Request, Shared)
    requires RequestEnabled(cfg, req, sh, a)
  {
    match a
    case CallReturns(_) => (req.(worker := OfferCalled(cfg.run(req.h.number, req.h.target, req.args))), sh)
    case Called(_) => (req.(main := AwaitSent, worker := Issue(req.worker.r)), sh)
    case Timer(_) => (req.(main := TimeoutIssue), sh)
    case Worker(_) =>
      if req.worker.Issue? then
        var error := if req.worker.r.Fail? then req.worker.r.message else req.error;
        (req.(worker := RespondWait(req.worker.r), error := error, issued := req.issued + 1), sh)
      else (req.(worker := Responding(req.worker.r)), sh.(sending := ByWorker(r)))
    case WorkerWrites(_) => (req.(worker := OfferSent), sh.(sending := Free))
    case Sent(_) => (req.(main := Returned, worker := Exited), sh.(wg := sh.wg - 1))
    case Main(_) =>
      if req.main.TimeoutIssue? then
        (req.(main := TimeoutWait, error := cfg.timeoutMessage, issued := req.issued + 1), sh)
      else (req.(main := TimeoutWriting), sh.(sending := ByMain(r)))
    case MainWrites(_) => (req.(main := Returned), sh.(sending := Free, wg := sh.wg - 1))
  }

  // The request an action belongs to.
  function Subject(a: Action): Option<nat> {
    match a
    case CallReturns(r) => Some(r)
    case Called(r) => Some(r)
    case Timer(r) => Some(r)
    case Worker(r) => Some(r)
    case WorkerWrites(r) => Some(r)
    case Sent(r) => Some(r)
    case Main(r) => Some(r)
    case MainWrites(r) => Some(r)
    case _ => None
  }

  // ---- steps of the read loop ----

  function Refused(h: Header, at: nat, error: string): Request {
    Request(h, at, "", false, Returned, Exited, error, 0)
  }

  function Accepted(h: Header, at: nat, args: string): Request {
    Request(h, at, args, true, Waiting, Calling, h.error, 0)
  }

  predicate LoopEnabled(s: Server, a: Action) {
    match a
    case HeaderArrives(_) => s.loop.ReadHeader? && !s.dead
    case HeaderFails => s.loop.ReadHeader?
    case BodyArrives(_) | BodyFails(_) => s.loop.ReadBody? && !s.dead
    case Loop =>
      (s.loop.ErrIssue? && |s.requests| > 0) || (s.loop.ErrWait? && s.shared.sending.Free?) ||
      (s.loop.Draining? && s.shared.wg == 0)
    case LoopWrites => s.loop.ErrWriting?
    case _ => false
  }

  // Stands for what the decoder says about a body it cannot read.
  const BODY_MESSAGE := "read body error"

  function LoopStep(cfg: Config, s: Server, a: Action): Server
    requires LoopEnabled(s, a)
  {
    match a
    case HeaderArrives(h) =>
      if cfg.Registered(h.target) then s.(loop := ReadBody(h, s.pos), pos := s.pos + 1)
      else
        var message := LookupMessage(FindService(cfg.services, h.target), h.target);
        s.(loop := ErrIssue, requests := s.requests + [Refused(h, s.pos, message)], pos := s.pos + 1)
    case HeaderFails => s.(loop := Draining)
    case BodyArrives(args) =>
      s.(loop := ReadHeader, requests := s.requests + [Accepted(s.loop.h, s.loop.at, args)],
         shared := s.shared.(wg := s.shared.wg + 1), pos := s.pos + 1)
    case BodyFails(consumed) =>
      s.(loop := ErrIssue, requests := s.requests + [Refused(s.loop.h, s.loop.at, BODY_MESSAGE)],
         pos := if consumed then s.pos + 1 else s.pos, dead := !consumed)
    case Loop =>
      if s.loop.ErrIssue? then
        var last := |s.requests| - 1;
        s.(loop := ErrWait, requests := s.requests[last := s.requests[last].(issued := s.requests[last].issued + 1)])
      else if s.loop.ErrWait? then s.(loop := ErrWriting, shared := s.shared.(sending := ByLoop))
      else s.(loop := Closed)
    case LoopWrites => s.(loop := ReadHeader, shared := s.shared.(sending := Free))
  }

  predicate Enabled(cfg: Config, s: Server, a: Action) {
    match Subject(a)
    case Some(r) => r < |s.requests| && RequestEnabled(cfg, s.requests[r], s.shared, a)
    case None => LoopEnabled(s, a)
  }

  function Apply(cfg: Config, s: Server, a: Action): Server
    requires Enabled(cfg, s, a)
  {
    match Subject(a)
    case Some(r) =>
      var (req, sh) := RequestStep(cfg, r, s.requests[r], s.shared, a);
      s.(requests := s.requests[r := req], shared := sh)
    case None => LoopStep(cfg, s, a)
  }

  // What a writing step sends.
  predicate Writes(a: Action) {
    a.LoopWrites? || a.WorkerWrites? || a.MainWrites?
  }

  function Response(cfg: Config, s: Server, a: Action): (Header, Payload)
    requires Enabled(cfg, s, a) && Writes(a) && |s.requests| > 0
  {
    var req := if a.LoopWrites? then s.requests[|s.requests| - 1] else s.requests[a.r];
    (Header(req.h.target, req.h.number, req.error),
     if a.WorkerWrites? && req.worker.r.Ok? then Reply(req.worker.r.reply) else Placeholder)
  }

  function Run(cfg: Config, s: Server, actions: seq<Action>): Option<Server>
    decreases actions
  {
    if actions == [] then Some(s)
    else if !Enabled(cfg, s, actions[0]) then None
    else Run(cfg, Apply(cfg, s, actions[0]), actions[1..])
  }

  ghost predicate Reachable(cfg: Config, s: Server) {
    exists actions :: Run(cfg, INIT, actions) == Some(s)
  }
}
