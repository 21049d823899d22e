// Exactly one response per request header, and when the connection may close.
module RpcServerSafety {
  import opened Options
  import opened RpcWire
  import opened RpcServer

  // The pairs of program counters in which handleRequest and its worker can be,
  // with the number of responses issued so far.
  ghost predicate Paired(req: Request) {
    match req.main
    case Waiting => (req.worker.Calling? || req.worker.OfferCalled?) && req.issued == 0
    case TimeoutIssue => (req.worker.Calling? || req.worker.OfferCalled?) && req.issued == 0
    case TimeoutWait | TimeoutWriting => (req.worker.Calling? || req.worker.OfferCalled?) && req.issued == 1
    case AwaitSent =>
      (req.worker.Issue? && req.issued == 0) ||
      ((req.worker.RespondWait? || req.worker.Responding? || req.worker.OfferSent?) && req.issued == 1)
    case Returned => (req.worker.Calling? || req.worker.OfferCalled? || req.worker.Exited?) && req.issued == 1
  }

  // A worker answers what the method answered; a refusal or a timeout says so.
  ghost predicate Truthful(cfg: Config, req: Request) {
    && (req.worker.OfferCalled? || req.worker.Issue? || req.worker.RespondWait? || req.worker.Responding? ==>
          req.worker.r == cfg.run(req.h.number, req.h.target, req.args))
    && (req.main.Waiting? || (req.main.AwaitSent? && req.worker.Issue?) ==> req.error == req.h.error)
    && (req.worker.RespondWait? || req.worker.Responding? ==>
          req.error == if req.worker.r.Fail? then req.worker.r.message else req.h.error)
    && (req.main.TimeoutIssue? || req.main.TimeoutWait? || req.main.TimeoutWriting? ==> cfg.timed)
    && (req.main.TimeoutWait? || req.main.TimeoutWriting? ==> req.error == cfg.timeoutMessage)
  }

  ghost predicate RequestOk(cfg: Config, r: nat, req: Request, sh: Shared) {
    && (req.handled ==> Paired(req) && Truthful(cfg, req))
    && (!req.handled ==> req.main.Returned? && req.worker.Exited?)
    && (sh.sending == ByMain(r) <==> req.main.TimeoutWriting?)
    && (sh.sending == ByWorker(r) <==> req.worker.Responding?)
  }

  // Requests whose handleRequest has not returned.
  function Live(requests: seq<Request>): nat {
    if requests == [] then 0
    else Live(requests[..|requests| - 1]) + (if requests[|requests| - 1].main.Returned? then 0 else 1)
  }

  lemma {:induction false} LiveUpdate(requests: seq<Request>, r: nat, req: Request)
    requires r < |requests|
    ensures Live(requests[r := req]) ==
      Live(requests) - (if requests[r].main.Returned? then 0 else 1) + (if req.main.Returned? then 0 else 1)
    decreases |requests|
  {
    var last := |requests| - 1;
    if r == last {
      assert requests[r := req][..last] == requests[..last];
    } else {
      LiveUpdate(requests[..last], r, req);
      assert requests[r := req][..last] == requests[..last][r := req];
    }
  }

  lemma {:induction false} LiveZero(requests: seq<Request>, r: nat)
    requires r < |requests| && !requests[r].main.Returned?
    ensures Live(requests) > 0
    decreases |requests|
  {
    if r < |requests| - 1 {
      LiveZero(requests[..|requests| - 1], r);
    }
  }

  // Refusing is in progress for the latest request only; before that no response was issued for it.
  ghost predicate RefusalsOk(s: Server) {
    && (s.loop.ErrIssue? || s.loop.ErrWait? || s.loop.ErrWriting? ==>
          |s.requests| > 0 && !s.requests[|s.requests| - 1].handled)
    && (forall r :: 0 <= r < |s.requests| && !s.requests[r].handled ==>
          s.requests[r].issued == if s.loop.ErrIssue? && r == |s.requests| - 1 then 0 else 1)
  }

  ghost predicate SharedOk(s: Server) {
    && (s.shared.sending.ByLoop? <==> s.loop.ErrWriting?)
    && ((s.shared.sending.ByMain? || s.shared.sending.ByWorker?) ==> s.shared.sending.r < |s.requests|)
    && s.shared.wg == Live(s.requests)
    && (s.loop.Closed? ==> s.shared.wg == 0)
  }

  // Where each header was read: one frame after a request of an unknown method,
  // two after any other.
  ghost predicate PositionsOk(cfg: Config, s: Server) {
    && (forall r :: 0 <= r < |s.requests| ==> Placed(cfg, s.requests, r))
    && (!s.dead && s.loop.ReadBody? ==> s.pos == s.loop.at + 1)
    && (s.loop.ReadBody? ==> cfg.Registered(s.loop.h.target) && s.loop.at == NextAt(cfg, s))
    && (!s.dead && !s.loop.ReadBody? ==> s.pos == NextAt(cfg, s))
    && (s.dead ==> !s.loop.ReadBody?)
  }

  ghost predicate Placed(cfg: Config, requests: seq<Request>, r: nat)
    requires r < |requests|
  {
    requests[r].at == if r == 0 then 0 else requests[r - 1].at + Stride(cfg, requests[r - 1])
  }

  function Stride(cfg: Config, req: Request): nat {
    if cfg.Registered(req.h.target) then 2 else 1
  }

  function NextAt(cfg: Config, s: Server): nat {
    if s.requests == [] then 0 else s.requests[|s.requests| - 1].at + Stride(cfg, s.requests[|s.requests| - 1])
  }

  ghost predicate Inv(cfg: Config, s: Server) {
    && (forall r :: 0 <= r < |s.requests| ==> RequestOk(cfg, r, s.requests[r], s.shared))
    && RefusalsOk(s) && SharedOk(s) && PositionsOk(cfg, s)
  }

  // What a step of request r leaves alone, and how it moves the wait group and `sending`.
  ghost predicate OneStep(r: nat, req: Request, sh: Shared, req': Request, sh': Shared) {
    && req'.handled == req.handled && req'.at == req.at && req'.h == req.h && req'.args == req.args
    && (!req.handled ==> req'.issued == req.issued)
    && (req.main.Returned? ==> req'.main.Returned?)
    && sh'.wg - sh.wg == (if req'.main.Returned? then 0 else 1) - (if req.main.Returned? then 0 else 1)
    && (sh'.sending.ByLoop? <==> sh.sending.ByLoop?)
    && (sh'.sending == sh.sending || sh'.sending.Free? || sh'.sending == ByMain(r) || sh'.sending == ByWorker(r))
  }

  lemma RequestStepOk(cfg: Config, r: nat, req: Request, sh: Shared, a: Action)
    requires RequestOk(cfg, r, req, sh) && RequestEnabled(cfg, req, sh, a)
    ensures var (req', sh') := RequestStep(cfg, r, req, sh, a);
      RequestOk(cfg, r, req', sh') && OneStep(r, req, sh, req', sh')
  {
  }

  lemma RequestNoInterference(cfg: Config, r: nat, req: Request, q: nat, other: Request, sh: Shared, a: Action)
    requires RequestOk(cfg, r, req, sh) && RequestOk(cfg, q, other, sh) && r != q
    requires RequestEnabled(cfg, req, sh, a)
    ensures RequestOk(cfg, q, other, RequestStep(cfg, r, req, sh, a).1)
  {
  }

  lemma RequestKeepsInv(cfg: Config, s: Server, a: Action)
    requires Inv(cfg, s) && Enabled(cfg, s, a) && Subject(a).Some?
    ensures Inv(cfg, Apply(cfg, s, a))
  {
    var r := Subject(a).value;
    var (req, sh) := RequestStep(cfg, r, s.requests[r], s.shared, a);
    RequestStepOk(cfg, r, s.requests[r], s.shared, a);
    forall q | 0 <= q < |s.requests| && q != r
      ensures RequestOk(cfg, q, s.requests[q], sh)
    {
      RequestNoInterference(cfg, r, s.requests[r], q, s.requests[q], s.shared, a);
    }
    ReplacedKeepsInv(cfg, s, r, req, sh);
  }

  lemma ReplacedKeepsInv(cfg: Config, s: Server, r: nat, req: Request, sh: Shared)
    requires Inv(cfg, s) && r < |s.requests| && RequestOk(cfg, r, req, sh)
    requires forall q :: 0 <= q < |s.requests| && q != r ==> RequestOk(cfg, q, s.requests[q], sh)
    requires OneStep(r, s.requests[r], s.shared, req, sh)
    ensures Inv(cfg, s.(requests := s.requests[r := req], shared := sh))
  {
    LiveUpdate(s.requests, r, req);
    var t := s.(requests := s.requests[r := req], shared := sh);
    ReplacedKeepsPositions(cfg, s, r, req, sh);
    assert RefusalsOk(t);
    assert SharedOk(t);
  }

  lemma ReplacedKeepsPositions(cfg: Config, s: Server, r: nat, req: Request, sh: Shared)
    requires PositionsOk(cfg, s) && r < |s.requests| && req.at == s.requests[r].at && req.h == s.requests[r].h
    ensures PositionsOk(cfg, s.(requests := s.requests[r := req], shared := sh))
  {
    var requests := s.requests[r := req];
    forall q | 0 <= q < |requests|
      ensures Placed(cfg, requests, q)
    {
      assert Placed(cfg, s.requests, q);
    }
  }

  lemma AppendedKeepsPlaces(cfg: Config, s: Server, req: Request)
    requires PositionsOk(cfg, s) && req.at == NextAt(cfg, s)
    ensures var requests := s.requests + [req];
      forall r :: 0 <= r < |requests| ==> Placed(cfg, requests, r)
  {
    var requests := s.requests + [req];
    forall r | 0 <= r < |requests|
      ensures Placed(cfg, requests, r)
    {
      if r < |s.requests| {
        assert Placed(cfg, s.requests, r);
      }
    }
  }

  // Refusing appends a record with no goroutines of its own.
  lemma RefuseKeepsInv(cfg: Config, s: Server, h: Header, error: string)
    requires Inv(cfg, s) && s.loop.ReadHeader? && !s.dead && !cfg.Registered(h.target)
    ensures Inv(cfg, s.(loop := ErrIssue, requests := s.requests + [Refused(h, s.pos, error)], pos := s.pos + 1))
  {
    AppendedKeepsPlaces(cfg, s, Refused(h, s.pos, error));
    var requests := s.requests + [Refused(h, s.pos, error)];
    assert requests[..|s.requests|] == s.requests;
    forall r | 0 <= r < |requests|
      ensures RequestOk(cfg, r, requests[r], s.shared)
    {
      if r < |s.requests| {
        assert RequestOk(cfg, r, s.requests[r], s.shared);
      }
    }
  }

  lemma HeaderKeepsInv(cfg: Config, s: Server, h: Header)
    requires Inv(cfg, s) && LoopEnabled(s, HeaderArrives(h))
    ensures Inv(cfg, LoopStep(cfg, s, HeaderArrives(h)))
  {
    if !cfg.Registered(h.target) {
      RefuseKeepsInv(cfg, s, h, LookupMessage(FindService(cfg.services, h.target), h.target));
    }
  }

  lemma BodyKeepsInv(cfg: Config, s: Server, a: Action)
    requires Inv(cfg, s) && LoopEnabled(s, a) && (a.BodyArrives? || a.BodyFails?)
    ensures Inv(cfg, LoopStep(cfg, s, a))
  {
    var t := LoopStep(cfg, s, a);
    AppendedKeepsPlaces(cfg, s, t.requests[|s.requests|]);
    assert t.requests[..|s.requests|] == s.requests;
    forall r | 0 <= r < |t.requests|
      ensures RequestOk(cfg, r, t.requests[r], t.shared)
    {
      if r < |s.requests| {
        assert RequestOk(cfg, r, s.requests[r], s.shared);
      }
    }
  }

  lemma RefusalKeepsInv(cfg: Config, s: Server)
    requires Inv(cfg, s) && LoopEnabled(s, Loop) && s.loop.ErrIssue?
    ensures Inv(cfg, LoopStep(cfg, s, Loop))
  {
    var last := |s.requests| - 1;
    var t := LoopStep(cfg, s, Loop);
    LiveUpdate(s.requests, last, t.requests[last]);
    ReplacedKeepsPositions(cfg, s, last, t.requests[last], s.shared);
    forall r | 0 <= r < |t.requests|
      ensures RequestOk(cfg, r, t.requests[r], t.shared)
    {
      assert RequestOk(cfg, r, s.requests[r], s.shared);
    }
  }

  lemma LoopKeepsInv(cfg: Config, s: Server, a: Action)
    requires Inv(cfg, s) && LoopEnabled(s, a)
    ensures Inv(cfg, LoopStep(cfg, s, a))
  {
    if a.HeaderArrives? {
      HeaderKeepsInv(cfg, s, a.h);
    } else if a.BodyArrives? || a.BodyFails? {
      BodyKeepsInv(cfg, s, a);
    } else if a.Loop? && s.loop.ErrIssue? {
      RefusalKeepsInv(cfg, s);
    }
  }

  lemma StepKeepsInv(cfg: Config, s: Server, a: Action)
    requires Inv(cfg, s) && Enabled(cfg, s, a)
    ensures Inv(cfg, Apply(cfg, s, a))
  {
    if Subject(a).Some? {
      RequestKeepsInv(cfg, s, a);
    } else {
      LoopKeepsInv(cfg, s, a);
    }
  }

  lemma {:induction false} RunKeepsInv(cfg: Config, s: Server, actions: seq<Action>)
    requires Inv(cfg, s) && Run(cfg, s, actions).Some?
    ensures Inv(cfg, Run(cfg, s, actions).value)
    decreases actions
  {
    if actions != [] {
      StepKeepsInv(cfg, s, actions[0]);
      RunKeepsInv(cfg, Apply(cfg, s, actions[0]), actions[1..]);
    }
  }

  lemma ReachableInv(cfg: Config, s: Server)
    requires Reachable(cfg, s)
    ensures Inv(cfg, s)
  {
    var actions :| Run(cfg, INIT, actions) == Some(s);
    RunKeepsInv(cfg, INIT, actions);
  }

  // ---- main results ----

  // Never two responses for one request; and once handleRequest has returned,
  // none is still to be issued or written, whichever of timer and worker won.
  lemma AtMostOneResponse(cfg: Config, s: Server, r: nat)
    requires Reachable(cfg, s) && r < |s.requests|
    ensures s.requests[r].issued <= 1
    ensures s.requests[r].handled && s.requests[r].main.Returned? ==>
      && s.requests[r].issued == 1
      && forall a :: Subject(a) == Some(r) && Enabled(cfg, s, a) ==> a.CallReturns?
  {
    assert RequestOk(cfg, r, s.requests[r], s.shared) && RefusalsOk(s) by {
      ReachableInv(cfg, s);
    }
  }

  // What a request is refused with: a method that is not there, or else its body.
  function Refusal(cfg: Config, target: string): string {
    if cfg.Registered(target) then BODY_MESSAGE else LookupMessage(FindService(cfg.services, target), target)
  }

  ghost predicate Explained(cfg: Config, s: Server) {
    && (forall r :: 0 <= r < |s.requests| && !s.requests[r].handled ==>
          s.requests[r].error == Refusal(cfg, s.requests[r].h.target))
    && (s.loop.ReadBody? ==> cfg.Registered(s.loop.h.target))
  }

  lemma StepKeepsExplained(cfg: Config, s: Server, a: Action)
    requires Inv(cfg, s) && Enabled(cfg, s, a) && Explained(cfg, s)
    ensures Explained(cfg, Apply(cfg, s, a))
  {
    if Subject(a).Some? {
      assert RequestOk(cfg, Subject(a).value, s.requests[Subject(a).value], s.shared);
    }
  }

  lemma {:induction false} RunKeepsExplained(cfg: Config, s: Server, actions: seq<Action>)
    requires Inv(cfg, s) && Explained(cfg, s) && Run(cfg, s, actions).Some?
    ensures Explained(cfg, Run(cfg, s, actions).value)
    decreases actions
  {
    if actions != [] {
      StepKeepsInv(cfg, s, actions[0]);
      StepKeepsExplained(cfg, s, actions[0]);
      RunKeepsExplained(cfg, Apply(cfg, s, actions[0]), actions[1..]);
    }
  }

  // A worker's response is what its method answered.
  lemma WorkerSays(cfg: Config, s: Server, r: nat)
    requires Reachable(cfg, s) && Enabled(cfg, s, WorkerWrites(r))
    ensures var req := s.requests[r]; var (h, body) := Response(cfg, s, WorkerWrites(r));
      && h.target == req.h.target && h.number == req.h.number
      && match cfg.run(h.number, h.target, req.args)
         case Ok(reply) => h.error == req.h.error && body == Reply(reply)
         case Fail(message) => h.error == message && body == Placeholder
  {
    assert RequestOk(cfg, r, s.requests[r], s.shared) by { ReachableInv(cfg, s); }
  }

  // One after a timeout says so.
  lemma TimeoutSays(cfg: Config, s: Server, r: nat)
    requires Reachable(cfg, s) && Enabled(cfg, s, MainWrites(r))
    ensures var req := s.requests[r];
      Response(cfg, s, MainWrites(r)) == (Header(req.h.target, req.h.number, cfg.timeoutMessage), Placeholder)
  {
    assert RequestOk(cfg, r, s.requests[r], s.shared) by { ReachableInv(cfg, s); }
  }

  // And a refusal says why.
  lemma RefusalSays(cfg: Config, s: Server)
    requires Reachable(cfg, s) && Enabled(cfg, s, LoopWrites)
    ensures s.requests != [] && var h := s.requests[|s.requests| - 1].h;
      Response(cfg, s, LoopWrites) == (Header(h.target, h.number, Refusal(cfg, h.target)), Placeholder)
  {
    ReachableInv(cfg, s);
    var actions :| Run(cfg, INIT, actions) == Some(s);
    RunKeepsExplained(cfg, INIT, actions);
  }

  // The three ways not to find a method.
  lemma RefusalSaysWhy(cfg: Config, service: string, operation: string, target: string)
    ensures '.' !in target ==> Refusal(cfg, target) == "rpc server: service/method request ill-formed: " + target
    ensures target == service + "." + operation && '.' !in operation && service !in cfg.services ==>
      Refusal(cfg, target) == "rpc server: can't find service " + service
    ensures target == service + "." + operation && '.' !in operation && service in cfg.services ==>
      operation in cfg.services[service] || Refusal(cfg, target) == "rpc server: can't find method " + operation
  {
    if target == service + "." + operation && '.' !in operation {
      assert target[|service|] == '.';
      assert forall j :: |service| < j < |target| ==> target[j] == operation[j - |service| - 1];
      assert LastDot(target) == |service|;
      assert target[..|service|] == service && target[|service| + 1..] == operation;
    }
  }

  // When serveCodec closes the connection every request has had its one
  // response, no handleRequest is left, and no response is half written.
  lemma ClosedAfterAllResponses(cfg: Config, s: Server, r: nat)
    requires Reachable(cfg, s) && s.loop.Closed? && r < |s.requests|
    ensures s.requests[r].issued == 1 && s.requests[r].main.Returned? && s.shared.sending.Free?
  {
    ReachableInv(cfg, s);
    assert RequestOk(cfg, r, s.requests[r], s.shared);
    if !s.requests[r].main.Returned? {
      LiveZero(s.requests, r);
    }
    if s.shared.sending.ByMain? || s.shared.sending.ByWorker? {
      var q := s.shared.sending.r;
      assert RequestOk(cfg, q, s.requests[q], s.shared);
      if !s.requests[q].main.Returned? {
        LiveZero(s.requests, q);
      }
    }
  }

  // The timer has won the race: the worker cannot get past its first rendezvous.
  ghost predicate Late(req: Request) {
    && req.handled
    && (req.main.TimeoutIssue? || req.main.TimeoutWait? || req.main.TimeoutWriting? ||
        (req.main.Returned? && !req.worker.Exited?))
  }

  lemma RequestStepLate(cfg: Config, r: nat, req: Request, sh: Shared, a: Action)
    requires RequestOk(cfg, r, req, sh) && RequestEnabled(cfg, req, sh, a)
    ensures Late(RequestStep(cfg, r, req, sh, a).0) <==> Late(req) || (req.handled && a.Timer?)
  {
  }

  lemma StepLate(cfg: Config, s: Server, a: Action, r: nat)
    requires Inv(cfg, s) && Enabled(cfg, s, a) && r < |Apply(cfg, s, a).requests|
    requires Apply(cfg, s, a).requests[r].handled
    ensures Late(Apply(cfg, s, a).requests[r]) <==> (r < |s.requests| && Late(s.requests[r])) || a == Timer(r)
    ensures r < |s.requests| ==> s.requests[r].handled
  {
    if r < |s.requests| {
      assert RequestOk(cfg, r, s.requests[r], s.shared);
      if Subject(a) == Some(r) {
        RequestStepLate(cfg, r, s.requests[r], s.shared, a);
      }
    }
  }

  lemma StepKeepsRequests(cfg: Config, s: Server, a: Action, r: nat)
    requires Enabled(cfg, s, a) && r < |s.requests|
    ensures r < |Apply(cfg, s, a).requests| && Apply(cfg, s, a).requests[r].handled == s.requests[r].handled
  {
  }

  // Over any run: a handled request is late afterwards exactly if it was before
  // or its timer fired on the way.
  lemma {:induction false} RunLate(cfg: Config, s: Server, actions: seq<Action>, r: nat)
    requires Inv(cfg, s) && Run(cfg, s, actions).Some?
    requires var t := Run(cfg, s, actions).value; r < |t.requests| && t.requests[r].handled
    ensures Late(Run(cfg, s, actions).value.requests[r]) <==>
      (r < |s.requests| && Late(s.requests[r])) || Timer(r) in actions
    ensures r < |s.requests| ==> s.requests[r].handled
    decreases actions
  {
    if actions != [] {
      var t := Apply(cfg, s, actions[0]);
      StepKeepsInv(cfg, s, actions[0]);
      RunLate(cfg, t, actions[1..], r);
      assert Timer(r) in actions <==> actions[0] == Timer(r) || Timer(r) in actions[1..];
      if r < |t.requests| {
        StepLate(cfg, s, actions[0], r);
      } else if r < |s.requests| {
        StepKeepsRequests(cfg, s, actions[0], r);
      }
    }
  }

  // The worker of a request whose timer has fired never ends, in any
  // continuation; any other's has ended once handleRequest has returned.
  lemma WorkerLeaksIffTimerFired(cfg: Config, actions: seq<Action>, r: nat)
    requires Run(cfg, INIT, actions).Some?
    requires var s := Run(cfg, INIT, actions).value; r < |s.requests| && s.requests[r].handled
    ensures var req := Run(cfg, INIT, actions).value.requests[r];
      && (Timer(r) in actions ==> req.worker.Calling? || req.worker.OfferCalled?)
      && (req.main.Returned? ==> (req.worker.Exited? <==> Timer(r) !in actions))
  {
    var s := Run(cfg, INIT, actions).value;
    RunKeepsInv(cfg, INIT, actions);
    RunLate(cfg, INIT, actions, r);
    assert RequestOk(cfg, r, s.requests[r], s.shared);
  }

  lemma {:induction false} RunKeepsRequests(cfg: Config, s: Server, actions: seq<Action>, r: nat)
    requires Run(cfg, s, actions).Some? && r < |s.requests|
    ensures var t := Run(cfg, s, actions).value; r < |t.requests| && t.requests[r].handled == s.requests[r].handled
    decreases actions
  {
    if actions != [] {
      StepKeepsRequests(cfg, s, actions[0], r);
      RunKeepsRequests(cfg, Apply(cfg, s, actions[0]), actions[1..], r);
    }
  }

  // After a timeout the worker never gets past its first rendezvous, whatever happens.
  lemma TimedOutWorkerLeaks(cfg: Config, s: Server, r: nat, actions: seq<Action>)
    requires Reachable(cfg, s) && r < |s.requests| && Late(s.requests[r]) && Run(cfg, s, actions).Some?
    ensures var t := Run(cfg, s, actions).value;
      && r < |t.requests| && Late(t.requests[r])
      && (t.requests[r].worker.Calling? || t.requests[r].worker.OfferCalled?)
  {
    var t := Run(cfg, s, actions).value;
    ReachableInv(cfg, s);
    RunKeepsInv(cfg, s, actions);
    RunKeepsRequests(cfg, s, actions, r);
    RunLate(cfg, s, actions, r);
    assert RequestOk(cfg, r, t.requests[r], t.shared);
  }

  // A request of an unknown method leaves its body unread. Every header was read
  // from a header's place (an even position) if and only if all requests but
  // the latest named a registered method.
  lemma AlignedIffRegistered(cfg: Config, s: Server)
    requires Reachable(cfg, s)
    ensures (forall r :: 0 <= r < |s.requests| ==> s.requests[r].at % 2 == 0) <==>
            (forall r :: 0 <= r < |s.requests| - 1 ==> cfg.Registered(s.requests[r].h.target))
  {
    assert PositionsOk(cfg, s) by { ReachableInv(cfg, s); }
    if forall r :: 0 <= r < |s.requests| - 1 ==> cfg.Registered(s.requests[r].h.target) {
      forall r | 0 <= r < |s.requests|
        ensures s.requests[r].at % 2 == 0
      {
        EvenPrefix(cfg, s, r);
      }
    } else {
      var r :| 0 <= r < |s.requests| - 1 && !cfg.Registered(s.requests[r].h.target);
      assert Placed(cfg, s.requests, r + 1);
    }
  }

  // It does happen: a request of an unknown method, answered, and then whatever
  // the reader makes of its body.
  lemma UnknownMethodMisaligns(cfg: Config, h: Header)
    requires !cfg.Registered(h.target)
    ensures exists s :: Reachable(cfg, s) && |s.requests| == 2 && s.requests[1].at == 1
  {
    var s1 := Apply(cfg, INIT, HeaderArrives(h));
    assert s1.loop == ErrIssue && |s1.requests| == 1 && s1.shared == Shared(Free, 0) && s1.pos == 1 && !s1.dead;
    assert Run(cfg, INIT, []) == Some(INIT);
    StepReached(cfg, INIT, HeaderArrives(h));
    var s4 := RefusalAnswered(cfg, s1);
    var s5 := Apply(cfg, s4, HeaderArrives(h));
    StepReached(cfg, s4, HeaderArrives(h));
    assert |s5.requests| == 2 && s5.requests[1].at == 1;
  }

  lemma RefusalAnswered(cfg: Config, s: Server) returns (t: Server)
    requires Reachable(cfg, s) && s.loop.ErrIssue? && |s.requests| > 0 && s.shared.sending.Free?
    ensures Reachable(cfg, t) && |t.requests| == |s.requests|
    ensures t.loop == ReadHeader && t.pos == s.pos && t.dead == s.dead && t.shared == s.shared
  {
    var s2 := Apply(cfg, s, Loop);
    StepReached(cfg, s, Loop);
    var s3 := Apply(cfg, s2, Loop);
    StepReached(cfg, s2, Loop);
    t := Apply(cfg, s3, LoopWrites);
    StepReached(cfg, s3, LoopWrites);
  }

  lemma StepReached(cfg: Config, s: Server, a: Action)
    requires Reachable(cfg, s) && Enabled(cfg, s, a)
    ensures Reachable(cfg, Apply(cfg, s, a))
  {
    var actions :| Run(cfg, INIT, actions) == Some(s);
    RunOneMore(cfg, INIT, actions, a);
  }

  lemma {:induction false} RunOneMore(cfg: Config, s: Server, actions: seq<Action>, a: Action)
    requires Run(cfg, s, actions).Some? && Enabled(cfg, Run(cfg, s, actions).value, a)
    ensures Run(cfg, s, actions + [a]) == Some(Apply(cfg, Run(cfg, s, actions).value, a))
    decreases actions
  {
    if actions == [] {
      assert [a][1..] == [] && [] + [a] == [a];
    } else {
      assert (actions + [a])[1..] == actions[1..] + [a];
      RunOneMore(cfg, Apply(cfg, s, actions[0]), actions[1..], a);
    }
  }

  lemma {:induction false} EvenPrefix(cfg: Config, s: Server, r: nat)
    requires PositionsOk(cfg, s) && r < |s.requests|
    requires forall q :: 0 <= q < |s.requests| - 1 ==> cfg.Registered(s.requests[q].h.target)
    ensures s.requests[r].at == 2 * r
  {
    if r > 0 {
      EvenPrefix(cfg, s, r - 1);
      assert Placed(cfg, s.requests, r);
      assert cfg.Registered(s.requests[r - 1].h.target);
    }
  }

  // A step towards closing the connection: of the read loop, or of a request
  // whose handleRequest has not returned.
  ghost predicate Progresses(cfg: Config, s: Server, a: Action) {
    Enabled(cfg, s, a) &&
    match Subject(a)
    case None => a.Loop?
    case Some(r) => !s.requests[r].main.Returned?
  }

  // While methods return and writes return, the connection gets closed: as long
  // as the read loop waits for the requests, something can go on.
  lemma DrainingProgresses(cfg: Config, s: Server)
    requires Reachable(cfg, s) && s.loop.Draining?
    ensures exists a :: Progresses(cfg, s, a)
  {
    ReachableInv(cfg, s);
    if s.shared.wg == 0 {
      assert LoopEnabled(s, Loop);
      assert Progresses(cfg, s, Loop);
    } else if s.shared.sending.Free? {
      var r := LiveWitness(s.requests);
      assert RequestOk(cfg, r, s.requests[r], s.shared);
      RequestProgresses(cfg, s, r);
    } else {
      HolderProgresses(cfg, s);
    }
  }

  lemma HolderProgresses(cfg: Config, s: Server)
    requires Inv(cfg, s) && (s.shared.sending.ByMain? || s.shared.sending.ByWorker?)
    ensures exists a :: Progresses(cfg, s, a)
  {
    var q := s.shared.sending.r;
    assert RequestOk(cfg, q, s.requests[q], s.shared);
    assert Progresses(cfg, s, if s.shared.sending.ByMain? then MainWrites(q) else WorkerWrites(q));
  }

  lemma RequestProgresses(cfg: Config, s: Server, r: nat)
    requires r < |s.requests| && s.shared.sending.Free?
    requires RequestOk(cfg, r, s.requests[r], s.shared) && s.requests[r].handled && !s.requests[r].main.Returned?
    ensures exists a :: Progresses(cfg, s, a)
  {
    var req := s.requests[r];
    if req.main.TimeoutIssue? || req.main.TimeoutWait? {
      assert Progresses(cfg, s, Main(r));
    } else if req.worker.Calling? {
      assert Progresses(cfg, s, CallReturns(r));
    } else if req.worker.OfferCalled? {
      assert Progresses(cfg, s, Called(r));
    } else if req.worker.OfferSent? {
      assert Progresses(cfg, s, Sent(r));
    } else {
      assert Progresses(cfg, s, Action.Worker(r));
    }
  }

  lemma {:induction false} LiveWitness(requests: seq<Request>) returns (r: nat)
    requires Live(requests) > 0
    ensures r < |requests| && !requests[r].main.Returned?
    decreases |requests|
  {
    r := |requests| - 1;
    if requests[r].main.Returned? {
      r := LiveWitness(requests[..r]);
    }
  }

  // ---- the connection gets closed ----

  // Steps still to come in a request, at most.
  function RequestWork(req: Request): nat {
    (match req.main
     case Waiting => 4 case TimeoutIssue => 3 case TimeoutWait => 2 case TimeoutWriting => 1
     case AwaitSent => 3 case Returned => 0) +
    match req.worker
    case Calling => 6 case OfferCalled(_) => 5 case Issue(_) => 4 case RespondWait(_) => 3
    case Responding(_) => 2 case OfferSent => 1 case Exited => 0
  }

  function RequestsWork(requests: seq<Request>): nat {
    if requests == [] then 0
    else RequestsWork(requests[..|requests| - 1]) + RequestWork(requests[|requests| - 1])
  }

  function DrainingWork(s: Server): nat {
    RequestsWork(s.requests) + if s.loop.Closed? then 0 else 1
  }

  lemma {:induction false} RequestsWorkUpdate(requests: seq<Request>, r: nat, req: Request)
    requires r < |requests|
    ensures RequestsWork(requests[r := req]) == RequestsWork(requests) - RequestWork(requests[r]) + RequestWork(req)
    decreases |requests|
  {
    var last := |requests| - 1;
    if r == last {
      assert requests[r := req][..last] == requests[..last];
    } else {
      RequestsWorkUpdate(requests[..last], r, req);
      assert requests[r := req][..last] == requests[..last][r := req];
    }
  }

  lemma RequestStepReducesWork(cfg: Config, r: nat, req: Request, sh: Shared, a: Action)
    requires RequestEnabled(cfg, req, sh, a)
    ensures RequestWork(RequestStep(cfg, r, req, sh, a).0) < RequestWork(req)
  {
  }

  lemma DrainingReducesWork(cfg: Config, s: Server, a: Action)
    requires (s.loop.Draining? || s.loop.Closed?) && Enabled(cfg, s, a)
    ensures var t := Apply(cfg, s, a); (t.loop.Draining? || t.loop.Closed?) && DrainingWork(t) < DrainingWork(s)
  {
    if Subject(a).Some? {
      var r := Subject(a).value;
      var (req, sh) := RequestStep(cfg, r, s.requests[r], s.shared, a);
      RequestStepReducesWork(cfg, r, s.requests[r], s.shared, a);
      RequestsWorkUpdate(s.requests, r, req);
    }
  }

  // Once the read loop has stopped, whatever happens ends within a bounded
  // number of steps, if methods and writes return, and then the connection is closed.
  lemma {:induction false} DrainingCloses(cfg: Config, s: Server, actions: seq<Action>)
    requires Reachable(cfg, s) && (s.loop.Draining? || s.loop.Closed?) && Run(cfg, s, actions).Some?
    ensures var t := Run(cfg, s, actions).value;
      && |actions| <= DrainingWork(s) - DrainingWork(t)
      && ((forall a :: !Enabled(cfg, t, a)) ==> t.loop.Closed?)
    decreases actions
  {
    if actions == [] {
      if s.loop.Draining? {
        DrainingProgresses(cfg, s);
      }
    } else {
      DrainingReducesWork(cfg, s, actions[0]);
      StepReached(cfg, s, actions[0]);
      DrainingCloses(cfg, Apply(cfg, s, actions[0]), actions[1..]);
    }
  }
}
