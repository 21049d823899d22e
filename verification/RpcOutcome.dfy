// Which error, or which reply, a call is completed with, and why.
module RpcOutcome {
  import opened Options
  import opened RpcWire
  import opened RpcClient
  import opened RpcProtocol
  import opened RpcSafety

  datatype Final = Final(error: Option<CallError>, reply: Option<Payload>)

  ghost predicate CompletedAs(call: CallState, f: Final) {
    call.strobes == 1 && call.error == f.error && call.reply == f.reply
  }

  // The receive loop has looked up a response with an error, or has already
  // read what follows the header.
  ghost predicate HeaderPromises(s: State, c: nat, f: Final) {
    match s.receiver
    case RemoveHeld(h) =>
      && h.error != "" && f == Final(Some(ServerError(h.error)), None)
      && h.number in s.shared.core.pending && s.shared.core.pending[h.number] == c
    case ReadBody(h, call) => h.error != "" && call == Some(c) && f == Final(Some(ServerError(h.error)), None)
    case Complete(_, d, Good(body), _) => d == c && f == Final(None, Some(body))
    case Complete(_, d, Err(error), _) => d == c && f == Final(Some(error), None)
    case _ => false
  }

  // Who is about to complete call c, and how.
  ghost predicate Promised(s: State, c: nat, f: Final)
    requires c < |s.calls|
  {
    || HeaderPromises(s, c, f)
    || (s.calls[c].pc.Reject? && f == Final(Some(ErrShutdown), None))
    || (s.calls[c].pc.FailDone? && f == Final(Some(WriteError), None))
    || (s.receiver.TermLoop? && s.calls[c].number in s.receiver.todo && f == Final(Some(Terminated), None))
  }

  // A call that has not been completed has no result.
  ghost predicate Blank(call: CallState) {
    call.strobes == 0 ==> call.error == None && call.reply == None
  }

  ghost predicate Settles(s: State, c: nat, f: Final) {
    && c < |s.calls| && Inv(s) && Blank(s.calls[c])
    && (CompletedAs(s.calls[c], f) || (s.calls[c].strobes == 0 && Promised(s, c, f)))
  }

  lemma StepKeepsBlank(s: State, a: Action, c: nat)
    requires Enabled(s, a) && c < |Apply(s, a).calls| && (c < |s.calls| ==> Blank(s.calls[c]))
    ensures Blank(Apply(s, a).calls[c])
  {
  }

  lemma {:induction false} RunKeepsBlank(s: State, actions: seq<Action>, c: nat)
    requires Run(s, actions).Some? && c < |Run(s, actions).value.calls| && (c < |s.calls| ==> Blank(s.calls[c]))
    ensures Blank(Run(s, actions).value.calls[c])
    decreases actions
  {
    if actions != [] {
      var t := Apply(s, actions[0]);
      if c < |t.calls| {
        StepKeepsBlank(s, actions[0], c);
      }
      RunKeepsBlank(t, actions[1..], c);
    }
  }

  // A completed call is left alone.
  lemma CompletedStays(s: State, a: Action, c: nat, f: Final)
    requires Inv(s) && Enabled(s, a) && c < |s.calls| && CompletedAs(s.calls[c], f)
    ensures c < |Apply(s, a).calls| && CompletedAs(Apply(s, a).calls[c], f)
  {
    assert CallOk(c, s.calls[c], s.shared, s.receiver);
    StepKeepsInv(s, a);
    assert CallOk(c, Apply(s, a).calls[c], Apply(s, a).shared, Apply(s, a).receiver);
  }

  lemma AdvanceKeepsPromise(s: State, d: nat, c: nat, f: Final)
    requires Settles(s, c, f) && s.calls[c].strobes == 0 && Enabled(s, Advance(d))
    ensures c < |Apply(s, Advance(d)).calls|
    ensures var t := Apply(s, Advance(d));
      CompletedAs(t.calls[c], f) || (t.calls[c].strobes == 0 && Promised(t, c, f))
  {
    assert CallOk(c, s.calls[c], s.shared, s.receiver);
    assert CallOk(d, s.calls[d], s.shared, s.receiver);
  }

  lemma CallerKeepsPromise(s: State, a: Action, c: nat, f: Final)
    requires Settles(s, c, f) && s.calls[c].strobes == 0 && Enabled(s, a)
    requires a.WriteReturns? || a.TakeBack? || a.Take? || a.Cancel? || a.NewCall? || a.NewCloser? || a.CloserStep?
    ensures c < |Apply(s, a).calls|
    ensures var t := Apply(s, a); CompletedAs(t.calls[c], f) || (t.calls[c].strobes == 0 && Promised(t, c, f))
  {
    assert CallOk(c, s.calls[c], s.shared, s.receiver);
  }

  lemma ReceiverKeepsPromise(s: State, a: Action, c: nat, f: Final)
    requires Settles(s, c, f) && s.calls[c].strobes == 0 && Enabled(s, a)
    requires a.Receive? || a.HeaderArrives? || a.HeaderFails? || a.BodyArrives? || a.BodyFails? || a.Finish? || a.Sweep?
    ensures c < |Apply(s, a).calls|
    ensures var t := Apply(s, a); CompletedAs(t.calls[c], f) || (t.calls[c].strobes == 0 && Promised(t, c, f))
  {
    assert CallOk(c, s.calls[c], s.shared, s.receiver);
  }

  // ---- main results ----

  // Whatever happens next, a call is completed as promised or is still to be.
  lemma {:induction false} PromiseKept(s: State, actions: seq<Action>, c: nat, f: Final)
    requires Settles(s, c, f) && Run(s, actions).Some?
    ensures Settles(Run(s, actions).value, c, f)
    decreases actions
  {
    if actions != [] {
      var t := Apply(s, actions[0]);
      StepKeepsInv(s, actions[0]);
      StepKeepsBlank(s, actions[0], c);
      if s.calls[c].strobes == 0 {
        var a := actions[0];
        if a.Receive? || a.HeaderArrives? || a.HeaderFails? || a.BodyArrives? || a.BodyFails? || a.Finish? || a.Sweep? {
          ReceiverKeepsPromise(s, a, c, f);
        } else if a.Advance? {
          AdvanceKeepsPromise(s, a.c, c, f);
        } else {
          CallerKeepsPromise(s, a, c, f);
        }
      } else {
        CompletedStays(s, actions[0], c, f);
      }
      PromiseKept(t, actions[1..], c, f);
    }
  }

  // What becomes of call c once it has been completed.
  ghost predicate WillBe(s: State, c: nat, f: Final) {
    forall actions :: Run(s, actions).Some? ==>
      var t := Run(s, actions).value; c < |t.calls| && (t.calls[c].strobes > 0 ==> CompletedAs(t.calls[c], f))
  }

  lemma PromisedWillBe(s: State, c: nat, f: Final)
    requires Settles(s, c, f)
    ensures WillBe(s, c, f)
  {
    forall actions | Run(s, actions).Some?
      ensures var t := Run(s, actions).value; c < |t.calls| && (t.calls[c].strobes > 0 ==> CompletedAs(t.calls[c], f))
    {
      PromiseKept(s, actions, c, f);
    }
  }

  lemma ReachableBlank(s: State, c: nat)
    requires Reachable(s) && c < |s.calls|
    ensures Inv(s) && Blank(s.calls[c])
  {
    ReachableInv(s);
    var actions :| Run(INIT, actions) == Some(s);
    RunKeepsBlank(INIT, actions, c);
  }

  // The receive loop has read a header with an error for a pending call, and is
  // about to look the call up: that error is what its caller gets, in every
  // continuation, whether or not the body that follows can be read.
  lemma ServerErrorReachesCaller(s: State, h: Header)
    requires Reachable(s) && s.receiver == RemoveHeld(h) && h.error != "" && h.number in s.shared.core.pending
    ensures WillBe(s, s.shared.core.pending[h.number], Final(Some(ServerError(h.error)), None))
  {
    var c := s.shared.core.pending[h.number];
    ReachableInv(s);
    ReachableBlank(s, c);
    assert CallOk(c, s.calls[c], s.shared, s.receiver);
    PromisedWillBe(s, c, Final(Some(ServerError(h.error)), None));
  }

  // Without an error it is the body that decides.
  lemma BodyReachesCaller(s: State, h: Header, c: nat, a: Action)
    requires Reachable(s) && s.receiver == ReadBody(h, Some(c)) && h.error == "" && (a.BodyArrives? || a.BodyFails?)
    ensures Enabled(s, a)
    ensures a.BodyArrives? ==> WillBe(Apply(s, a), c, Final(None, Some(a.body)))
    ensures a.BodyFails? ==> WillBe(Apply(s, a), c, Final(Some(BodyError), None))
  {
    ReachableInv(s);
    assert CallOk(c, s.calls[c], s.shared, s.receiver);
    StepReached(s, a);
    ReachableBlank(Apply(s, a), c);
    PromisedWillBe(Apply(s, a), c, if a.BodyArrives? then Final(None, Some(a.body)) else Final(Some(BodyError), None));
  }

  // The call that a response is for is the pending one with its number.
  lemma LookupFindsPending(s: State, h: Header)
    requires Reachable(s) && s.receiver == RemoveHeld(h)
    ensures Enabled(s, Receive)
    ensures Apply(s, Receive).receiver ==
      ReadBody(h, if h.number in s.shared.core.pending then Some(s.shared.core.pending[h.number]) else None)
    ensures h.number !in Apply(s, Receive).shared.core.pending
  {
  }

  // A send that finds the client closed or shut down.
  lemma RefusalReachesCaller(s: State, c: nat)
    requires Reachable(s) && c < |s.calls| && s.calls[c].pc.RegisterHeld?
    requires s.shared.core.closing || s.shared.core.shutdown
    ensures WillBe(Apply(s, Advance(c)), c, Final(Some(ErrShutdown), None))
  {
    ReachableInv(s);
    assert CallOk(c, s.calls[c], s.shared, s.receiver);
    StepReached(s, Advance(c));
    ReachableBlank(Apply(s, Advance(c)), c);
    PromisedWillBe(Apply(s, Advance(c)), c, Final(Some(ErrShutdown), None));
  }

  // A failed write whose call is still pending.
  lemma WriteErrorReachesCaller(s: State, c: nat)
    requires Reachable(s) && c < |s.calls| && s.calls[c].pc.FailHeld?
    requires s.calls[c].number in s.shared.core.pending && !Swept(s.receiver, s.calls[c].number)
    ensures WillBe(Apply(s, Advance(c)), c, Final(Some(WriteError), None))
  {
    ReachableInv(s);
    assert CallOk(c, s.calls[c], s.shared, s.receiver);
    StepReached(s, Advance(c));
    ReachableBlank(Apply(s, Advance(c)), c);
    PromisedWillBe(Apply(s, Advance(c)), c, Final(Some(WriteError), None));
  }

  // What terminateCalls finds pending.
  lemma TerminationReachesCaller(s: State, n: nat)
    requires Reachable(s) && s.receiver.TermMu? && s.shared.mu.Free? && n in s.shared.core.pending
    ensures WillBe(Apply(s, Receive), s.shared.core.pending[n], Final(Some(Terminated), None))
  {
    var c := s.shared.core.pending[n];
    ReachableInv(s);
    assert CallOk(c, s.calls[c], s.shared, s.receiver);
    StepReached(s, Receive);
    ReachableBlank(Apply(s, Receive), c);
    PromisedWillBe(Apply(s, Receive), c, Final(Some(Terminated), None));
  }

  // ---- and only then ----

  // The failures behind the errors that there are so far.
  ghost predicate Caused(s: State, past: seq<Action>) {
    && (forall c :: 0 <= c < |s.calls| ==> CallCaused(c, s.calls[c], s.shared, past))
    && (s.receiver.Complete? && s.receiver.outcome.Err? ==>
          s.receiver.outcome.error.ServerError? || (s.receiver.outcome.error == BodyError && BodyFails in past))
    && (s.receiver.TermLoop? || s.receiver.TermRelease? || s.receiver.Ended? ==> s.shared.core.shutdown)
  }

  ghost predicate CallCaused(c: nat, call: CallState, sh: Shared, past: seq<Action>) {
    && Blank(call)
    && (call.error == Some(ErrShutdown) ==> call.number == 0)
    && (call.error == Some(WriteError) || call.pc.FailWait? || call.pc.FailHeld? || call.pc.FailDone? ==>
          WriteReturns(c, false) in past)
    && (call.error == Some(BodyError) ==> BodyFails in past)
    && (call.error == Some(Terminated) ==> sh.core.shutdown)
    && (call.pc.Select? || call.pc.CancelWait? || call.pc.CancelHeld? ==> call.waits)
    && (call.pc.CancelWait? || call.pc.CancelHeld? ==> Cancel(c) in past)
    && (call.pc.Returned? && call.waits ==> call.strobes > 0 || Cancel(c) in past)
  }

  lemma LongerPast(c: nat, call: CallState, sh: Shared, past: seq<Action>, a: Action)
    requires CallCaused(c, call, sh, past)
    ensures CallCaused(c, call, sh, past + [a])
  {
    assert forall b :: b in past ==> b in past + [a];
  }

  lemma AdvanceKeepsCallCaused(c: nat, call: CallState, sh: Shared, r: ReceiverPc, past: seq<Action>)
    requires CallOk(c, call, sh, r) && CanAdvance(call, sh) && CallCaused(c, call, sh, past)
    ensures var (call', sh') := AdvanceCaller(c, call, sh); CallCaused(c, call', sh', past)
  {
  }

  // Completions.
  lemma StrobeKeepsCallCaused(s: State, a: Action, past: seq<Action>, c: nat)
    requires Inv(s) && Enabled(s, a) && Caused(s, past) && c < |s.calls|
    requires a.TakeBack? || a.Finish? || a.Sweep?
    ensures CallCaused(c, Apply(s, a).calls[c], Apply(s, a).shared, past)
  {
    assert CallOk(c, s.calls[c], s.shared, s.receiver) && CallCaused(c, s.calls[c], s.shared, past);
    if a.TakeBack? {
      assert CallOk(a.c, s.calls[a.c], s.shared, s.receiver) && CallCaused(a.c, s.calls[a.c], s.shared, past);
    }
  }

  // All other steps.
  lemma MoveKeepsCallCaused(s: State, a: Action, past: seq<Action>, c: nat)
    requires Inv(s) && Enabled(s, a) && c < |s.calls| && CallCaused(c, s.calls[c], s.shared, past) && a in past
    requires !a.TakeBack? && !a.Finish? && !a.Sweep?
    ensures CallCaused(c, Apply(s, a).calls[c], Apply(s, a).shared, past)
  {
    if a == Advance(c) {
      assert CallOk(c, s.calls[c], s.shared, s.receiver);
      AdvanceKeepsCallCaused(c, s.calls[c], s.shared, s.receiver, past);
    } else {
      var call, call' := s.calls[c], Apply(s, a).calls[c];
      assert call'.error == call.error && call'.number == call.number && Blank(call');
      assert s.shared.core.shutdown ==> Apply(s, a).shared.core.shutdown;
    }
  }

  lemma StepKeepsCallCaused(s: State, a: Action, past: seq<Action>, c: nat)
    requires Inv(s) && Enabled(s, a) && Caused(s, past) && c < |Apply(s, a).calls|
    ensures CallCaused(c, Apply(s, a).calls[c], Apply(s, a).shared, past + [a])
  {
    if c < |s.calls| {
      assert CallCaused(c, s.calls[c], s.shared, past);
      if a.TakeBack? || a.Finish? || a.Sweep? {
        StrobeKeepsCallCaused(s, a, past, c);
        LongerPast(c, Apply(s, a).calls[c], Apply(s, a).shared, past, a);
      } else {
        assert (past + [a])[|past|] == a;
        LongerPast(c, s.calls[c], s.shared, past, a);
        MoveKeepsCallCaused(s, a, past + [a], c);
      }
    }
  }

  lemma StepKeepsCaused(s: State, a: Action, past: seq<Action>)
    requires Inv(s) && Enabled(s, a) && Caused(s, past)
    ensures Caused(Apply(s, a), past + [a])
  {
    var t := Apply(s, a);
    forall c | 0 <= c < |t.calls|
      ensures CallCaused(c, t.calls[c], t.shared, past + [a])
    {
      StepKeepsCallCaused(s, a, past, c);
    }
    assert (past + [a])[|past|] == a;
    assert BodyFails in past ==> BodyFails in past + [a];
  }

  lemma {:induction false} RunKeepsCaused(s: State, actions: seq<Action>, past: seq<Action>)
    requires Inv(s) && Caused(s, past) && Run(s, actions).Some?
    ensures Caused(Run(s, actions).value, past + actions)
    decreases actions
  {
    if actions == [] {
      assert past + actions == past;
    } else {
      var a, t := actions[0], Apply(s, actions[0]);
      StepKeepsInv(s, a);
      StepKeepsCaused(s, a, past);
      RunKeepsCaused(t, actions[1..], past + [a]);
      assert past + [a] + actions[1..] == past + actions;
    }
  }

  // Call returns when it has been completed, or its context is done; Go does not wait.
  lemma CallWaits(actions: seq<Action>, c: nat)
    requires Run(INIT, actions).Some? && c < |Run(INIT, actions).value.calls|
    ensures var call := Run(INIT, actions).value.calls[c];
      && (call.waits && call.pc.Returned? ==> call.strobes == 1 || Cancel(c) in actions)
      && (!call.waits ==> !call.pc.Select?)
  {
    var s := Run(INIT, actions).value;
    RunKeepsCaused(INIT, actions, []);
    assert [] + actions == actions;
    RunKeepsInv(INIT, actions);
    assert CallOk(c, s.calls[c], s.shared, s.receiver);
    assert CallCaused(c, s.calls[c], s.shared, actions);
  }

  // Each error has its own cause: ErrShutdown means that the call never got a
  // number, a write error that its own write failed, BodyError that a body could
  // not be read, and the error of terminateCalls that the loop had ended.
  lemma ErrorsHaveCauses(actions: seq<Action>, c: nat)
    requires Run(INIT, actions).Some? && c < |Run(INIT, actions).value.calls|
    ensures var s := Run(INIT, actions).value; var call := s.calls[c];
      && (call.error == Some(ErrShutdown) ==> call.number == 0)
      && (call.error == Some(WriteError) ==> WriteReturns(c, false) in actions)
      && (call.error == Some(BodyError) ==> BodyFails in actions)
      && (call.error == Some(Terminated) ==> s.shared.core.shutdown)
  {
    RunKeepsCaused(INIT, actions, []);
    assert [] + actions == actions;
    var s := Run(INIT, actions).value;
    assert CallCaused(c, s.calls[c], s.shared, actions);
  }
}
