// What every interleaving of the client's goroutines keeps, and what follows.
module RpcSafety {
  import opened Options
  import opened RpcWire
  import opened RpcClient
  import opened RpcProtocol

  // terminateCalls has already completed the pending call numbered n.
  predicate Swept(r: ReceiverPc, n: nat) {
    (r.TermLoop? && n !in r.todo) || r.TermRelease? || r.Ended?
  }

  // The call sits in `pending` and is still to be completed from there.
  predicate Live(call: CallState, sh: Shared, r: ReceiverPc) {
    call.number in sh.core.pending && !Swept(r, call.number)
  }

  function Bit(b: bool): nat { if b then 1 else 0 }

  // All the places where the obligation to complete call c can be, and the two
  // ways in which it can have been met.
  function Tokens(c: nat, call: CallState, sh: Shared, r: ReceiverPc): nat {
    call.strobes + Bit(call.withdrawn) + Bit(call.pc.Fresh()) + Bit(call.pc.FailDone?) +
    Bit(r.Holds(c)) + Bit(Live(call, sh, r))
  }

  ghost predicate Placed(c: nat, call: CallState, sh: Shared) {
    // locks
    && (call.pc.HoldsSending() <==> sh.sending == ByCaller(c))
    && (call.pc.HoldsMu() <==> sh.mu == ByCaller(c))
    // numbers
    && (call.number != 0 ==> call.number in sh.issued && sh.issued[call.number] == c)
    && (call.pc.Fresh() ==> call.number == 0)
    && (call.pc.InWrite() ==> call.number != 0 && !sh.core.shutdown)
    && (call.pc.FailDone? ==> call.pc.d == c)
    // the header shared by all sends is the writer's own while it writes
    && (call.pc.Writing? ==> sh.header == Header(call.target, call.number, ""))
  }

  // The obligation to complete the call is in exactly one place.
  ghost predicate Accounted(c: nat, call: CallState, sh: Shared, r: ReceiverPc) {
    && Tokens(c, call, sh, r) == 1
    && (call.number in sh.core.pending && Swept(r, call.number) ==> call.strobes == 1)
    && call.capacity >= 1 && call.queued <= call.strobes
  }

  ghost predicate CallOk(c: nat, call: CallState, sh: Shared, r: ReceiverPc) {
    Placed(c, call, sh) && Accounted(c, call, sh, r)
  }

  ghost predicate SharedOk(sh: Shared, r: ReceiverPc) {
    && (sh.sending.ByReceiver? <==> r.HoldsSending())
    && (sh.mu.ByReceiver? <==> r.HoldsMu())
    && !sh.sending.ByCloser?
    && 1 <= sh.core.next
    && (forall n :: n in sh.issued <==> 1 <= n < sh.core.next)
    && (forall n :: n in sh.core.pending ==> n in sh.issued && sh.core.pending[n] == sh.issued[n])
    && (sh.core.shutdown <==> r.TermLoop? || r.TermRelease? || r.Ended?)
    && (r.ReadBody? && r.call.Some? ==> r.h.number in sh.issued && r.call.value == sh.issued[r.h.number])
    && (r.Complete? ==> r.n in sh.issued && r.c == sh.issued[r.n])
    && (r.TermLoop? ==> r.todo <= sh.core.pending.Keys)
  }

  // Each issued number is the number of the call it was issued to.
  ghost predicate Filed(calls: seq<CallState>, sh: Shared) {
    forall n :: n in sh.issued ==> sh.issued[n] < |calls| && calls[sh.issued[n]].number == n
  }

  ghost predicate OwnersExist(s: State) {
    && (s.shared.sending.ByCaller? ==> s.shared.sending.c < |s.calls|)
    && (s.shared.mu.ByCaller? ==> s.shared.mu.c < |s.calls|)
    && (s.shared.mu.ByCloser? ==> s.shared.mu.k < |s.closers|)
    && (forall k :: 0 <= k < |s.closers| ==> (s.closers[k].CloseHeld? <==> s.shared.mu == ByCloser(k)))
  }

  ghost predicate Inv(s: State) {
    && SharedOk(s.shared, s.receiver)
    && Filed(s.calls, s.shared)
    && OwnersExist(s)
    && (forall c :: 0 <= c < |s.calls| ==> CallOk(c, s.calls[c], s.shared, s.receiver))
  }

  // A caller's step keeps its own record in order and does not interfere with another's.
  lemma RegisterAccounted(c: nat, call: CallState, sh: Shared, r: ReceiverPc)
    requires SharedOk(sh, r) && CallOk(c, call, sh, r) && call.pc.RegisterHeld?
    ensures var (call', sh') := AdvanceCaller(c, call, sh); Accounted(c, call', sh', r)
  {
  }

  lemma RemoveAccounted(c: nat, call: CallState, sh: Shared, r: ReceiverPc)
    requires SharedOk(sh, r) && CallOk(c, call, sh, r) && (call.pc.FailHeld? || call.pc.CancelHeld?)
    ensures var (call', sh') := AdvanceCaller(c, call, sh); Accounted(c, call', sh', r)
  {
  }

  lemma OtherAccounted(c: nat, call: CallState, sh: Shared, r: ReceiverPc)
    requires SharedOk(sh, r) && CallOk(c, call, sh, r) && CanAdvance(call, sh)
    requires !call.pc.RegisterHeld? && !call.pc.FailHeld? && !call.pc.CancelHeld?
    ensures var (call', sh') := AdvanceCaller(c, call, sh); Accounted(c, call', sh', r)
  {
  }

  lemma CallerPlaced(c: nat, call: CallState, sh: Shared, r: ReceiverPc)
    requires SharedOk(sh, r) && CallOk(c, call, sh, r) && CanAdvance(call, sh)
    ensures var (call', sh') := AdvanceCaller(c, call, sh); Placed(c, call', sh')
  {
  }

  lemma CallerOk(c: nat, call: CallState, sh: Shared, r: ReceiverPc)
    requires SharedOk(sh, r) && CallOk(c, call, sh, r) && CanAdvance(call, sh)
    ensures var (call', sh') := AdvanceCaller(c, call, sh); CallOk(c, call', sh', r)
  {
    CallerPlaced(c, call, sh, r);
    if call.pc.RegisterHeld? {
      RegisterAccounted(c, call, sh, r);
    } else if call.pc.FailHeld? || call.pc.CancelHeld? {
      RemoveAccounted(c, call, sh, r);
    } else {
      OtherAccounted(c, call, sh, r);
    }
  }

  lemma CallerSharedOk(c: nat, call: CallState, sh: Shared, r: ReceiverPc)
    requires SharedOk(sh, r) && CallOk(c, call, sh, r) && CanAdvance(call, sh)
    ensures SharedOk(AdvanceCaller(c, call, sh).1, r)
  {
  }

  lemma CallerNoInterference(c: nat, call: CallState, d: nat, other: CallState, sh: Shared, r: ReceiverPc)
    requires SharedOk(sh, r) && CallOk(c, call, sh, r) && CallOk(d, other, sh, r) && c != d && CanAdvance(call, sh)
    ensures CallOk(d, other, AdvanceCaller(c, call, sh).1, r)
  {
  }

  lemma ReceiverOk(sh: Shared, r: ReceiverPc)
    requires SharedOk(sh, r) && CanReceive(r, sh)
    ensures var (r', sh') := AdvanceReceiver(r, sh); SharedOk(sh', r')
  {
  }

  lemma ReceiverNoInterference(c: nat, call: CallState, sh: Shared, r: ReceiverPc)
    requires SharedOk(sh, r) && CallOk(c, call, sh, r) && CanReceive(r, sh)
    requires forall n :: n in sh.issued && sh.issued[n] == c ==> call.number == n
    ensures var (r', sh') := AdvanceReceiver(r, sh); CallOk(c, call, sh', r')
  {
  }

  lemma AdvanceKeepsInv(s: State, c: nat)
    requires Inv(s) && Enabled(s, Advance(c))
    ensures Inv(Apply(s, Advance(c)))
  {
    CallerOk(c, s.calls[c], s.shared, s.receiver);
    CallerSharedOk(c, s.calls[c], s.shared, s.receiver);
    assert Filed(Apply(s, Advance(c)).calls, Apply(s, Advance(c)).shared);
    assert OwnersExist(Apply(s, Advance(c)));
    forall d | 0 <= d < |s.calls| && d != c
      ensures CallOk(d, s.calls[d], Apply(s, Advance(c)).shared, s.receiver)
    {
      CallerNoInterference(c, s.calls[c], d, s.calls[d], s.shared, s.receiver);
    }
  }

  lemma ReceiveKeepsInv(s: State)
    requires Inv(s) && Enabled(s, Receive)
    ensures Inv(Apply(s, Receive))
  {
    ReceiverOk(s.shared, s.receiver);
    forall d | 0 <= d < |s.calls|
      ensures CallOk(d, s.calls[d], Apply(s, Receive).shared, Apply(s, Receive).receiver)
    {
      ReceiverNoInterference(d, s.calls[d], s.shared, s.receiver);
    }
  }

  lemma StartKeepsInv(s: State, a: Action)
    requires Inv(s) && Enabled(s, a) && (a.NewCall? || a.NewCloser?)
    ensures Inv(Apply(s, a))
  {
  }

  // Replacing one call's record by one in order with the same number.
  lemma ReplacedKeepsInv(s: State, c: nat, call: CallState)
    requires Inv(s) && c < |s.calls| && call.number == s.calls[c].number
    requires CallOk(c, call, s.shared, s.receiver)
    ensures Inv(s.(calls := s.calls[c := call]))
  {
    var t := s.(calls := s.calls[c := call]);
    forall d | 0 <= d < |t.calls|
      ensures CallOk(d, t.calls[d], t.shared, t.receiver)
    {
      assert CallOk(d, s.calls[d], s.shared, s.receiver);
    }
  }

  lemma CallerMoveKeepsInv(s: State, a: Action)
    requires Inv(s) && Enabled(s, a) && (a.WriteReturns? || a.Take? || a.Cancel?)
    ensures Inv(Apply(s, a))
  {
    var t := Apply(s, a);
    assert t == s.(calls := s.calls[a.c := t.calls[a.c]]);
    MovedCallOk(s, a);
    ReplacedKeepsInv(s, a.c, t.calls[a.c]);
  }

  lemma MovedCallOk(s: State, a: Action)
    requires Inv(s) && Enabled(s, a) && (a.WriteReturns? || a.Take? || a.Cancel?)
    ensures var call := Apply(s, a).calls[a.c];
      CallOk(a.c, call, s.shared, s.receiver) && call.number == s.calls[a.c].number
  {
    assert CallOk(a.c, s.calls[a.c], s.shared, s.receiver);
  }

  lemma TakeBackKeepsInv(s: State, c: nat)
    requires Inv(s) && Enabled(s, TakeBack(c))
    ensures Inv(Apply(s, TakeBack(c)))
  {
    assert CallOk(c, s.calls[c], s.shared, s.receiver);
  }

  lemma ReadKeepsInv(s: State, a: Action)
    requires Inv(s) && Enabled(s, a) && (a.HeaderArrives? || a.HeaderFails? || a.BodyArrives? || a.BodyFails?)
    ensures Inv(Apply(s, a))
  {
    assert SharedOk(s.shared, Apply(s, a).receiver);
    forall c | 0 <= c < |s.calls|
      ensures CallOk(c, s.calls[c], s.shared, Apply(s, a).receiver)
    {
      assert CallOk(c, s.calls[c], s.shared, s.receiver);
    }
  }

  lemma FinishKeepsInv(s: State)
    requires Inv(s) && Enabled(s, Finish)
    ensures Inv(Apply(s, Finish))
  {
    var t := Apply(s, Finish);
    forall c | 0 <= c < |s.calls|
      ensures CallOk(c, t.calls[c], s.shared, t.receiver)
    {
      assert CallOk(c, s.calls[c], s.shared, s.receiver);
    }
  }

  lemma SweepKeepsInv(s: State, n: nat)
    requires Inv(s) && Enabled(s, Sweep(n))
    ensures Inv(Apply(s, Sweep(n)))
  {
    var t := Apply(s, Sweep(n));
    forall c | 0 <= c < |s.calls|
      ensures CallOk(c, t.calls[c], s.shared, t.receiver)
    {
      assert CallOk(c, s.calls[c], s.shared, s.receiver);
    }
  }

  lemma CloserKeepsInv(s: State, k: nat)
    requires Inv(s) && Enabled(s, CloserStep(k))
    ensures Inv(Apply(s, CloserStep(k)))
  {
    var t := Apply(s, CloserStep(k));
    forall c | 0 <= c < |s.calls|
      ensures CallOk(c, s.calls[c], t.shared, s.receiver)
    {
      CloserNoInterference(c, s.calls[c], s.shared, t.shared, s.receiver);
    }
  }

  // A closer takes mu from nobody and gives back its own.
  lemma CloserNoInterference(c: nat, call: CallState, sh: Shared, sh': Shared, r: ReceiverPc)
    requires CallOk(c, call, sh, r) && !sh.mu.ByCaller? && !sh'.mu.ByCaller?
    requires sh' == sh.(mu := sh'.mu, core := sh'.core) && sh'.core == sh.core.(closing := sh'.core.closing)
    ensures CallOk(c, call, sh', r)
  {
  }

  lemma StepKeepsInv(s: State, a: Action)
    requires Inv(s) && Enabled(s, a)
    ensures Inv(Apply(s, a))
  {
    match a
    case NewCall(_, _, _, _) => StartKeepsInv(s, a);
    case NewCloser => StartKeepsInv(s, a);
    case Advance(c) => AdvanceKeepsInv(s, c);
    case WriteReturns(_, _) => CallerMoveKeepsInv(s, a);
    case Take(_) => CallerMoveKeepsInv(s, a);
    case Cancel(_) => CallerMoveKeepsInv(s, a);
    case TakeBack(c) => TakeBackKeepsInv(s, c);
    case Receive => ReceiveKeepsInv(s);
    case HeaderArrives(_) => ReadKeepsInv(s, a);
    case HeaderFails => ReadKeepsInv(s, a);
    case BodyArrives(_) => ReadKeepsInv(s, a);
    case BodyFails => ReadKeepsInv(s, a);
    case Finish => FinishKeepsInv(s);
    case Sweep(n) => SweepKeepsInv(s, n);
    case CloserStep(k) => CloserKeepsInv(s, k);
  }

  lemma {:induction false} RunKeepsInv(s: State, actions: seq<Action>)
    requires Inv(s) && Run(s, actions).Some?
    ensures Inv(Run(s, actions).value)
    decreases actions
  {
    if actions != [] {
      StepKeepsInv(s, actions[0]);
      RunKeepsInv(Apply(s, actions[0]), actions[1..]);
    }
  }

  lemma ReachableInv(s: State)
    requires Reachable(s)
    ensures Inv(s)
  {
    var actions :| Run(INIT, actions) == Some(s);
    RunKeepsInv(INIT, actions);
  }

  // ---- main results ----

  // Holders of call c besides the call's own goroutine before registration.
  predicate InPending(s: State, c: nat) {
    c < |s.calls| && s.calls[c].number in s.shared.core.pending && s.shared.core.pending[s.calls[c].number] == c
  }

  // No call is completed twice, although terminateCalls leaves what it has
  // completed in `pending`, where a send or a cancellation can still look.
  lemma CompletedAtMostOnce(s: State, c: nat)
    requires Reachable(s) && c < |s.calls|
    ensures s.calls[c].strobes <= 1
    ensures s.calls[c].withdrawn ==> s.calls[c].strobes == 0
  {
    ReachableInv(s);
    assert CallOk(c, s.calls[c], s.shared, s.receiver);
  }

  // A call neither completed nor withdrawn is still in its own send before
  // registration, or in `pending`, or held by exactly one goroutine.
  lemma NeverInLimbo(s: State, c: nat)
    requires Reachable(s) && c < |s.calls|
    requires s.calls[c].strobes == 0 && !s.calls[c].withdrawn
    ensures Bit(s.calls[c].pc.Fresh()) + Bit(InPending(s, c)) +
            Bit(s.calls[c].pc == FailDone(c)) + Bit(s.receiver.Holds(c)) == 1
  {
    ReachableInv(s);
    assert CallOk(c, s.calls[c], s.shared, s.receiver);
  }

  // When the receive loop has ended and every send has returned, each call has
  // been completed, or its own context took it out of `pending` before that.
  lemma NoCallLost(s: State, c: nat)
    requires Reachable(s) && c < |s.calls|
    requires s.receiver.Ended? && !s.calls[c].pc.Begin? && !s.calls[c].pc.HoldsSending()
    ensures s.calls[c].strobes == 1 <==> !s.calls[c].withdrawn
  {
    ReachableInv(s);
    assert CallOk(c, s.calls[c], s.shared, s.receiver);
  }

  // No two calls have the same number.
  lemma NumbersAreDistinct(s: State, c: nat, d: nat)
    requires Reachable(s) && c < |s.calls| && d < |s.calls| && c != d && s.calls[c].number != 0
    ensures s.calls[c].number != s.calls[d].number
  {
    ReachableInv(s);
    assert CallOk(c, s.calls[c], s.shared, s.receiver) && CallOk(d, s.calls[d], s.shared, s.receiver);
  }

  // ---- after Close ----

  // A closer that has returned has closed the client, and only the first one
  // that did says so.
  ghost predicate ClosersOk(s: State) {
    && (forall k :: 0 <= k < |s.closers| && s.closers[k].Closed? ==> s.shared.core.closing)
    && (s.shared.core.closing ==> exists k :: 0 <= k < |s.closers| && s.closers[k] == Closed(true))
    && (forall j, k :: 0 <= j < k < |s.closers| && s.closers[j] == Closed(true) ==> s.closers[k] != Closed(true))
  }

  lemma StepKeepsClosersOk(s: State, a: Action)
    requires ClosersOk(s) && Enabled(s, a)
    ensures ClosersOk(Apply(s, a))
  {
    var t := Apply(s, a);
    if s.shared.core.closing {
      var k :| 0 <= k < |s.closers| && s.closers[k] == Closed(true);
      assert t.closers[k] == Closed(true);
    } else if t.shared.core.closing {
      assert t.closers[a.k] == Closed(true);
    }
  }

  lemma {:induction false} RunKeepsClosersOk(s: State, actions: seq<Action>)
    requires ClosersOk(s) && Run(s, actions).Some?
    ensures ClosersOk(Run(s, actions).value)
    decreases actions
  {
    if actions != [] {
      StepKeepsClosersOk(s, actions[0]);
      RunKeepsClosersOk(Apply(s, actions[0]), actions[1..]);
    }
  }

  // At most one Close succeeds, and one has once any has returned.
  lemma OneCloseSucceeds(s: State, j: nat, k: nat)
    requires Reachable(s) && j < |s.closers| && k < |s.closers| && s.closers[j].Closed?
    ensures s.closers[j] == Closed(true) && s.closers[k] == Closed(true) ==> j == k
    ensures s.shared.core.closing && exists i :: 0 <= i < |s.closers| && s.closers[i] == Closed(true)
  {
    var actions :| Run(INIT, actions) == Some(s);
    RunKeepsClosersOk(INIT, actions);
  }

  // Once a Close has returned no call gets a number any more, in any continuation.
  lemma {:induction false} NoNumberAfterClose(s: State, actions: seq<Action>)
    requires s.shared.core.closing && Run(s, actions).Some?
    ensures var t := Run(s, actions).value;
      && t.shared.core.closing && t.shared.issued == s.shared.issued && t.shared.core.next == s.shared.core.next
      && t.shared.core.pending.Keys <= s.shared.core.pending.Keys
    decreases actions
  {
    if actions != [] {
      ClosedStaysClosed(s, actions[0]);
      NoNumberAfterClose(Apply(s, actions[0]), actions[1..]);
    }
  }

  lemma ClosedStaysClosed(s: State, a: Action)
    requires s.shared.core.closing && Enabled(s, a)
    ensures var t := Apply(s, a);
      && t.shared.core.closing && t.shared.issued == s.shared.issued && t.shared.core.next == s.shared.core.next
      && t.shared.core.pending.Keys <= s.shared.core.pending.Keys
  {
  }

  // ---- what is taken out of `pending` ----

  // The caller is about to take its call out, or it is out for good.
  ghost predicate TakenOut(s: State, c: nat) {
    && c < |s.calls| && Inv(s)
    && var pc := s.calls[c].pc;
      || pc.FailWait? || pc.FailHeld? || pc.CancelWait? || pc.CancelHeld?
      || (!pc.Fresh() && s.calls[c].number !in s.shared.core.pending)
  }

  // A number that has been issued does not come back into `pending`.
  lemma NumberStaysOut(s: State, a: Action, n: nat)
    requires SharedOk(s.shared, s.receiver) && Enabled(s, a)
    requires n < s.shared.core.next && n !in s.shared.core.pending
    ensures n !in Apply(s, a).shared.core.pending
  {
  }

  lemma StepKeepsTakenOut(s: State, a: Action, c: nat)
    requires TakenOut(s, c) && Enabled(s, a)
    ensures TakenOut(Apply(s, a), c)
  {
    StepKeepsInv(s, a);
    assert CallOk(c, s.calls[c], s.shared, s.receiver);
    if a.TakeBack? {
      assert CallOk(a.c, s.calls[a.c], s.shared, s.receiver);
    }
    if s.calls[c].number !in s.shared.core.pending {
      NumberStaysOut(s, a, s.calls[c].number);
    }
  }

  lemma {:induction false} RunKeepsTakenOut(s: State, c: nat, actions: seq<Action>)
    requires TakenOut(s, c) && Run(s, actions).Some?
    ensures TakenOut(Run(s, actions).value, c)
    decreases actions
  {
    if actions != [] {
      StepKeepsTakenOut(s, actions[0], c);
      RunKeepsTakenOut(Apply(s, actions[0]), c, actions[1..]);
    }
  }

  // After a failed write, and after a cancellation, the call is out of `pending`
  // once the send, or Call, has gone on.
  lemma FailedAndCancelledAreTakenOut(s: State, a: Action, actions: seq<Action>)
    requires Reachable(s) && Enabled(s, a) && (a.Cancel? || (a.WriteReturns? && !a.ok))
    requires Run(Apply(s, a), actions).Some?
    ensures TakenOut(Run(Apply(s, a), actions).value, a.c)
  {
    ReachableInv(s);
    StepKeepsInv(s, a);
    RunKeepsTakenOut(Apply(s, a), a.c, actions);
  }

  // Wherever done() is next, the channel has room for it.
  lemma DoneNeverBlocks(s: State, c: nat)
    requires Reachable(s) && c < |s.calls|
    ensures s.calls[c].pc.Reject? ==> Enabled(s, Advance(c))
    ensures s.calls[c].pc.FailDone? ==> Enabled(s, TakeBack(c))
    ensures s.receiver.Complete? && s.receiver.c == c ==> Enabled(s, Finish)
    ensures s.receiver.TermLoop? && s.calls[c].number in s.receiver.todo ==> Enabled(s, Sweep(s.calls[c].number))
  {
    ReachableInv(s);
    assert CallOk(c, s.calls[c], s.shared, s.receiver);
  }

  // ---- progress ----

  // Steps that wait neither for the network nor for a user: `Write` returning is
  // one of them, a frame arriving, a new call or a cancellation is not.
  predicate Internal(a: Action) {
    a.Advance? || a.WriteReturns? || a.TakeBack? || a.Receive? || a.Finish? || a.Sweep? || a.CloserStep?
  }

  ghost predicate CanProgress(s: State) {
    exists a :: Internal(a) && Enabled(s, a)
  }

  lemma ReceiverProgresses(s: State)
    requires Inv(s) && s.shared.mu.ByReceiver?
    ensures CanProgress(s)
  {
    if s.receiver.TermLoop? && s.receiver.todo != {} {
      var n :| n in s.receiver.todo;
      var c := s.shared.core.pending[n];
      assert CallOk(c, s.calls[c], s.shared, s.receiver);
      assert Enabled(s, Sweep(n));
    } else {
      assert Enabled(s, Receive);
    }
  }

  lemma MuOwnerProgresses(s: State)
    requires Inv(s) && !s.shared.mu.Free?
    ensures CanProgress(s)
  {
    match s.shared.mu
    case ByCaller(c) =>
      assert CallOk(c, s.calls[c], s.shared, s.receiver);
      assert Enabled(s, Advance(c));
    case ByReceiver => ReceiverProgresses(s);
    case ByCloser(k) => assert Enabled(s, CloserStep(k));
  }

  lemma CallerProgresses(s: State, c: nat)
    requires Inv(s) && s.shared.mu.Free? && c < |s.calls|
    requires !s.calls[c].pc.Idle() && !s.calls[c].pc.Begin?
    ensures CanProgress(s)
  {
    assert CallOk(c, s.calls[c], s.shared, s.receiver);
    if s.calls[c].pc.Writing? {
      assert Enabled(s, WriteReturns(c, true));
    } else if s.calls[c].pc.FailDone? {
      assert Enabled(s, TakeBack(c));
    } else {
      assert Enabled(s, Advance(c));
    }
  }

  // While writes return, an unfinished send or removal never means a deadlock.
  lemma NoDeadlock(s: State, c: nat)
    requires Reachable(s) && c < |s.calls| && !s.calls[c].pc.Idle()
    ensures CanProgress(s)
  {
    ReachableInv(s);
    UnfinishedProgresses(s, c);
  }

  lemma UnfinishedProgresses(s: State, c: nat)
    requires Inv(s) && c < |s.calls| && !s.calls[c].pc.Idle()
    ensures CanProgress(s)
  {
    if !s.shared.mu.Free? {
      MuOwnerProgresses(s);
    } else if !s.calls[c].pc.Begin? {
      CallerProgresses(s, c);
    } else {
      match s.shared.sending
      case Free => assert Enabled(s, Advance(c));
      case ByReceiver => assert Enabled(s, Receive);
      case ByCaller(d) =>
        assert CallOk(d, s.calls[d], s.shared, s.receiver);
        CallerProgresses(s, d);
    }
  }

  // ---- termination of sends ----

  function CallerWork(pc: CallerPc): nat {
    match pc
    case Begin => 12 case RegisterWait => 11 case RegisterHeld => 10
    case Prepare => 8 case Writing => 7 case FailWait => 6 case FailHeld => 5 case FailDone(_) => 4
    case Reject => 2 case Unlock => 1 case Select => 0
    case CancelWait => 2 case CancelHeld => 1 case Returned => 0
  }

  // A registration adds an entry for terminateCalls to go through, and takes two off the caller.
  function ReceiverWork(r: ReceiverPc, pending: nat): nat {
    match r
    case ReadHeader => 0 case ReadBody(_, _) => 0
    case RemoveWait(_) => 2 case RemoveHeld(_) => 1
    case Complete(_, _, _, _) => pending + 5
    case TermSending => pending + 4 case TermMu => pending + 3
    case TermLoop(todo) => |todo| + 2
    case TermRelease => 1 case Ended => 0
  }

  function CloserWork(pc: CloserPc): nat {
    match pc
    case CloseWait => 2 case CloseHeld => 1 case Closed(_) => 0
  }

  function CallsWork(calls: seq<CallState>): nat {
    if calls == [] then 0 else CallsWork(calls[..|calls| - 1]) + CallerWork(calls[|calls| - 1].pc)
  }

  function ClosersWork(closers: seq<CloserPc>): nat {
    if closers == [] then 0 else ClosersWork(closers[..|closers| - 1]) + CloserWork(closers[|closers| - 1])
  }

  function Work(s: State): nat {
    CallsWork(s.calls) + ClosersWork(s.closers) + ReceiverWork(s.receiver, |s.shared.core.pending|)
  }

  lemma {:induction false} CallsWorkUpdate(calls: seq<CallState>, c: nat, call: CallState)
    requires c < |calls|
    ensures CallsWork(calls[c := call]) == CallsWork(calls) - CallerWork(calls[c].pc) + CallerWork(call.pc)
    decreases |calls|
  {
    var last := |calls| - 1;
    if c == last {
      assert calls[c := call][..last] == calls[..last];
    } else {
      CallsWorkUpdate(calls[..last], c, call);
      assert calls[c := call][..last] == calls[..last][c := call];
    }
  }

  lemma {:induction false} ClosersWorkUpdate(closers: seq<CloserPc>, k: nat, pc: CloserPc)
    requires k < |closers|
    ensures ClosersWork(closers[k := pc]) == ClosersWork(closers) - CloserWork(closers[k]) + CloserWork(pc)
    decreases |closers|
  {
    var last := |closers| - 1;
    if k == last {
      assert closers[k := pc][..last] == closers[..last];
    } else {
      ClosersWorkUpdate(closers[..last], k, pc);
      assert closers[k := pc][..last] == closers[..last][k := pc];
    }
  }

  lemma RemoveShrinks(core: Core<nat>, n: nat)
    ensures |Remove(core, n).0.pending| <= |core.pending|
  {
    if n in core.pending {
      assert (core.pending - {n}).Keys == core.pending.Keys - {n};
    }
  }

  lemma RegisterGrows(core: Core<nat>, c: nat)
    ensures |Register(core, c).0.pending| <= |core.pending| + 1
  {
    assert core.pending[core.next := c].Keys == core.pending.Keys + {core.next};
  }

  lemma StepReducesOwnWork(c: nat, call: CallState, sh: Shared)
    requires CanAdvance(call, sh)
    ensures var (call', sh') := AdvanceCaller(c, call, sh);
      CallerWork(call'.pc) + |sh'.core.pending| < CallerWork(call.pc) + |sh.core.pending|
      && CallerWork(call'.pc) < CallerWork(call.pc)
  {
    if call.pc.RegisterHeld? {
      RegisterGrows(sh.core, c);
    } else if call.pc.FailHeld? || call.pc.CancelHeld? {
      RemoveShrinks(sh.core, call.number);
    } else {
      assert AdvanceCaller(c, call, sh).1.core == sh.core;
    }
  }

  lemma AdvanceReducesWork(s: State, c: nat)
    requires Enabled(s, Advance(c))
    ensures Work(Apply(s, Advance(c))) < Work(s)
  {
    var (call, sh) := AdvanceCaller(c, s.calls[c], s.shared);
    CallsWorkUpdate(s.calls, c, call);
    StepReducesOwnWork(c, s.calls[c], s.shared);
  }

  lemma ReceiveReducesWork(s: State)
    requires Enabled(s, Receive)
    ensures Work(Apply(s, Receive)) < Work(s)
  {
    if s.receiver.RemoveHeld? {
      RemoveShrinks(s.shared.core, s.receiver.h.number);
    }
    assert |s.shared.core.pending.Keys| == |s.shared.core.pending|;
  }

  // A strobe changes one call, whose own work does not grow, and one of the two
  // program counters involved.
  lemma StrobeReducesWork(s: State, c: nat, call: CallState, r: ReceiverPc)
    requires c < |s.calls| && CallerWork(call.pc) <= CallerWork(s.calls[c].pc)
    requires ReceiverWork(r, |s.shared.core.pending|) <= ReceiverWork(s.receiver, |s.shared.core.pending|)
    requires CallerWork(call.pc) < CallerWork(s.calls[c].pc) ||
             ReceiverWork(r, |s.shared.core.pending|) < ReceiverWork(s.receiver, |s.shared.core.pending|)
    ensures Work(s.(calls := s.calls[c := call], receiver := r)) < Work(s)
  {
    CallsWorkUpdate(s.calls, c, call);
  }

  lemma TakeBackReducesWork(s: State, c: nat)
    requires Inv(s) && Enabled(s, TakeBack(c))
    ensures Work(Apply(s, TakeBack(c))) < Work(s)
  {
    assert Placed(c, s.calls[c], s.shared) by {
      assert CallOk(c, s.calls[c], s.shared, s.receiver);
    }
    var call := s.calls[c].Complete(WriteError).(pc := Unlock);
    assert Apply(s, TakeBack(c)) == s.(calls := s.calls[c := call], receiver := s.receiver);
    StrobeReducesWork(s, c, call, s.receiver);
  }

  lemma ReceiverStrobeReducesWork(s: State, a: Action)
    requires Enabled(s, a) && (a.Finish? || a.Sweep?)
    ensures Work(Apply(s, a)) < Work(s)
  {
    var c := if a.Finish? then s.receiver.c else s.shared.core.pending[a.n];
    var t := Apply(s, a);
    assert t == s.(calls := s.calls[c := t.calls[c]], receiver := t.receiver);
    StrobeReducesWork(s, c, t.calls[c], t.receiver);
  }

  lemma WriteReducesWork(s: State, c: nat, ok: bool)
    requires Enabled(s, WriteReturns(c, ok))
    ensures Work(Apply(s, WriteReturns(c, ok))) < Work(s)
  {
    CallsWorkUpdate(s.calls, c, Apply(s, WriteReturns(c, ok)).calls[c]);
  }

  lemma CloserReducesWork(s: State, k: nat)
    requires Enabled(s, CloserStep(k))
    ensures Work(Apply(s, CloserStep(k))) < Work(s)
  {
    ClosersWorkUpdate(s.closers, k, Apply(s, CloserStep(k)).closers[k]);
  }

  // Internal steps alone cannot go on for ever: with NoDeadlock, sends and
  // removals finish once writes return and no new calls are started.
  lemma InternalReducesWork(s: State, a: Action)
    requires Inv(s) && Enabled(s, a) && Internal(a)
    ensures Work(Apply(s, a)) < Work(s)
  {
    if a.Advance? {
      AdvanceReducesWork(s, a.c);
    } else if a.WriteReturns? {
      WriteReducesWork(s, a.c, a.ok);
    } else if a.CloserStep? {
      CloserReducesWork(s, a.k);
    } else if a.Receive? {
      ReceiveReducesWork(s);
    } else if a.TakeBack? {
      TakeBackReducesWork(s, a.c);
    } else {
      ReceiverStrobeReducesWork(s, a);
    }
  }

  lemma {:induction false} InternalRunsEnd(s: State, actions: seq<Action>)
    requires Inv(s) && Run(s, actions).Some?
    requires forall i :: 0 <= i < |actions| ==> Internal(actions[i])
    ensures |actions| <= Work(s) - Work(Run(s, actions).value)
    decreases actions
  {
    if actions != [] {
      InternalReducesWork(s, actions[0]);
      StepKeepsInv(s, actions[0]);
      InternalRunsEnd(Apply(s, actions[0]), actions[1..]);
    }
  }

  lemma {:induction false} RunOneMore(s: State, actions: seq<Action>, a: Action)
    requires Run(s, actions).Some? && Enabled(Run(s, actions).value, a)
    ensures Run(s, actions + [a]) == Some(Apply(Run(s, actions).value, a))
    decreases actions
  {
    if actions == [] {
      assert [a][1..] == [] && [] + [a] == [a];
    } else {
      assert (actions + [a])[1..] == actions[1..] + [a];
      RunOneMore(Apply(s, actions[0]), actions[1..], a);
    }
  }

  lemma StepReached(s: State, a: Action)
    requires Reachable(s) && Enabled(s, a)
    ensures Reachable(Apply(s, a))
  {
    var actions :| Run(INIT, actions) == Some(s);
    RunOneMore(INIT, actions, a);
  }

  // No send and no removal is unfinished.
  ghost predicate AllIdle(s: State) {
    forall c :: 0 <= c < |s.calls| ==> s.calls[c].pc.Idle()
  }

  // Internal steps, taken in any order as long as there are any, finish every
  // send and removal.
  lemma {:induction false} InternalRunsFinish(s: State, actions: seq<Action>)
    requires Reachable(s) && Run(s, actions).Some?
    requires forall i :: 0 <= i < |actions| ==> Internal(actions[i])
    requires !CanProgress(Run(s, actions).value)
    ensures AllIdle(Run(s, actions).value)
    decreases actions
  {
    if actions == [] {
      forall c | 0 <= c < |s.calls|
        ensures s.calls[c].pc.Idle()
      {
        if !s.calls[c].pc.Idle() {
          NoDeadlock(s, c);
        }
      }
    } else {
      StepReached(s, actions[0]);
      InternalRunsFinish(Apply(s, actions[0]), actions[1..]);
    }
  }

  lemma NextInternal(s: State) returns (a: Action)
    requires Reachable(s) && CanProgress(s)
    ensures Internal(a) && Enabled(s, a) && Reachable(Apply(s, a)) && Work(Apply(s, a)) < Work(s)
  {
    a :| Internal(a) && Enabled(s, a);
    ReachableInv(s);
    InternalReducesWork(s, a);
    StepReached(s, a);
  }

  // From every reachable state they can be finished that way.
  lemma {:induction false} SendsCanFinish(s: State) returns (actions: seq<Action>)
    requires Reachable(s)
    ensures Run(s, actions).Some? && AllIdle(Run(s, actions).value)
    ensures forall i :: 0 <= i < |actions| ==> Internal(actions[i])
    ensures |actions| <= Work(s)
    decreases Work(s)
  {
    actions := [];
    if CanProgress(s) {
      var a := NextInternal(s);
      var rest := SendsCanFinish(Apply(s, a));
      actions := [a] + rest;
      assert actions[1..] == rest;
    } else {
      InternalRunsFinish(s, []);
    }
  }
}
