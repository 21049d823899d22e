// The goroutines around one RPC client: any number of calls (each its own
// goroutine, from Go or Call), any number of Close callers, and the single
// receive loop. One step acquires or releases a lock, runs one critical section
// or does one I/O operation, so every interleaving at that grain is a run.
module RpcProtocol {
  import opened Options
  import opened RpcWire
  import opened RpcClient

  datatype Owner = Free | ByCaller(c: nat) | ByReceiver | ByCloser(k: nat)

  // Where a call's goroutine stands.
  datatype CallerPc =
    | Begin            // in send, before sending.Lock
    | RegisterWait     // holds sending; before mu.Lock in registerCall
    | RegisterHeld     // holds sending and mu
    | Reject           // holds sending; registerCall failed, done() is next
    | Prepare          // holds sending; fills the shared header
    | Writing          // holds sending; in cc.Write
    | FailWait         // holds sending; the write failed, before mu.Lock in removeCall
    | FailHeld         // holds sending and mu
    | FailDone(d: nat) // holds sending; took call d back, done() is next
    | Unlock           // holds sending; about to release it
    | Select           // in Call, waiting for the context or the Done channel
    | CancelWait       // the context won; before mu.Lock in removeCall
    | CancelHeld       // holds mu
    | Returned
  {
    predicate HoldsSending() {
      RegisterWait? || RegisterHeld? || Reject? || Prepare? || Writing? ||
      FailWait? || FailHeld? || FailDone? || Unlock?
    }

    predicate HoldsMu() {
      RegisterHeld? || FailHeld? || CancelHeld?
    }

    // Not yet given a number.
    predicate Fresh() {
      Begin? || RegisterWait? || RegisterHeld? || Reject?
    }

    // Between registration and the end of a write, good or bad.
    predicate InWrite() {
      Prepare? || Writing? || FailWait? || FailHeld? || FailDone?
    }

    predicate Idle() {
      Select? || Returned?
    }
  }

  datatype Outcome = Good(body: Payload) | Err(error: CallError)

  datatype ReceiverPc =
    | ReadHeader
    | RemoveWait(h: Header)
    | RemoveHeld(h: Header)
    | ReadBody(h: Header, call: Option<nat>)
    | Complete(n: nat, c: nat, outcome: Outcome, last: bool)  // done() is next; `last` if the read failed
    | TermSending                     // terminateCalls, before sending.Lock
    | TermMu                          // holds sending; before mu.Lock
    | TermLoop(todo: set<nat>)        // holds both
    | TermRelease                     // holds sending
    | Ended
  {
    predicate HoldsSending() {
      TermMu? || TermLoop? || TermRelease?
    }

    predicate HoldsMu() {
      RemoveHeld? || TermLoop?
    }

    predicate Holds(c: nat) {
      (ReadBody? && call == Some(c)) || (Complete? && this.c == c)
    }
  }

  datatype CloserPc = CloseWait | CloseHeld | Closed(ok: bool)

  datatype CallState = CallState(
    target: string, args: string,
    waits: bool,      // made by Call, which waits, rather than by Go
    capacity: nat,    // of the Done channel
    pc: CallerPc, number: nat, error: Option<CallError>, reply: Option<Payload>,
    queued: nat,      // messages in the Done channel
    strobes: nat,     // history: how often done() was performed on this call
    withdrawn: bool)  // history: its own context took it out of pending in time
  {
    predicate HasRoom() {
      queued < capacity
    }

    // call.done()
    function Strobe(): CallState {
      this.(queued := queued + 1, strobes := strobes + 1)
    }

    // call.Error = error; call.done()
    function Complete(error: CallError): CallState {
      this.(error := Some(error)).Strobe()
    }
  }

  // What the goroutines share: the two locks, the fields mu guards, and the
  // header that sending guards.
  datatype Shared = Shared(
    sending: Owner, mu: Owner, core: Core<nat>, header: Header,
    issued: map<nat, nat>)  // history: which call each number was given to

  datatype State = State(calls: seq<CallState>, closers: seq<CloserPc>, receiver: ReceiverPc, shared: Shared)

  const INIT := State([], [], ReadHeader, Shared(Free, Free, Core(1, map[], false, false), Header("", 0, ""), map[]))

  function Started(target: string, args: string, waits: bool, capacity: nat): CallState {
    CallState(target, args, waits, capacity, Begin, 0, None, None, 0, 0, false)
  }

  datatype Action =
    | NewCall(target: string, args: string, waits: bool, capacity: nat)
    | NewCloser
    | Advance(c: nat)                  // the caller's next step, where there is only one
    | WriteReturns(c: nat, ok: bool)
    | TakeBack(c: nat)                 // the failed send completes the call it took back
    | Take(c: nat)                     // Call's select receives from Done
    | Cancel(c: nat)                   // Call's select sees its context done
    | Receive                          // the receiver's next step, where there is only one
    | HeaderArrives(h: Header)
    | HeaderFails
    | BodyArrives(body: Payload)
    | BodyFails
    | Finish                           // the receiver completes the call it holds
    | Sweep(n: nat)                    // terminateCalls completes the pending call numbered n
    | CloserStep(k: nat)

  // ---- steps of one goroutine on its own record and the shared fields ----

  predicate CanAdvance(call: CallState, sh: Shared) {
    match call.pc
    case Begin => sh.sending.Free?
    case RegisterWait | FailWait | CancelWait => sh.mu.Free?
    case RegisterHeld | FailHeld | CancelHeld | Prepare | Unlock => true
    case Reject => call.HasRoom()
    case FailDone(_) | Writing | Select | Returned => false
  }

  function AdvanceCaller(c: nat, call: CallState, sh: Shared): (CallState, Shared)
    requires CanAdvance(call, sh)
  {
    match call.pc
    case Begin => (call.(pc := RegisterWait), sh.(sending := ByCaller(c)))
    case RegisterWait => (call.(pc := RegisterHeld), sh.(mu := ByCaller(c)))
    case RegisterHeld =>
      var (core, r) := Register(sh.core, c);
      if r.None? then (call.(pc := Reject), sh.(core := core, mu := Free))
      else (call.(pc := Prepare, number := r.value), sh.(core := core, mu := Free, issued := sh.issued[r.value := c]))
    case Reject => (call.Complete(ErrShutdown).(pc := Unlock), sh)
    case Prepare => (call.(pc := Writing), sh.(header := Header(call.target, call.number, "")))
    case FailWait => (call.(pc := FailHeld), sh.(mu := ByCaller(c)))
    case FailHeld =>
      var (core, r) := Remove(sh.core, call.number);
      (call.(pc := if r.None? then Unlock else FailDone(r.value)), sh.(core := core, mu := Free))
    case Unlock => (call.(pc := if call.waits then Select else Returned), sh.(sending := Free))
    case CancelWait => (call.(pc := CancelHeld), sh.(mu := ByCaller(c)))
    case CancelHeld =>
      var (core, r) := Remove(sh.core, call.number);
      (call.(pc := Returned, withdrawn := call.withdrawn || (r == Some(c) && call.strobes == 0)),
       sh.(core := core, mu := Free))
  }

  predicate CanReceive(r: ReceiverPc, sh: Shared) {
    match r
    case RemoveWait(_) | TermMu => sh.mu.Free?
    case RemoveHeld(_) | TermRelease => true
    case TermSending => sh.sending.Free?
    case TermLoop(todo) => todo == {}
    case ReadHeader | ReadBody(_, _) | Complete(_, _, _, _) | Ended => false
  }

  function AdvanceReceiver(r: ReceiverPc, sh: Shared): (ReceiverPc, Shared)
    requires CanReceive(r, sh)
  {
    match r
    case RemoveWait(h) => (RemoveHeld(h), sh.(mu := ByReceiver))
    case RemoveHeld(h) =>
      var (core, call) := Remove(sh.core, h.number);
      (ReadBody(h, call), sh.(core := core, mu := Free))
    case TermSending => (TermMu, sh.(sending := ByReceiver))
    case TermMu => (TermLoop(sh.core.pending.Keys), sh.(mu := ByReceiver, core := sh.core.(shutdown := true)))
    case TermLoop(_) => (TermRelease, sh.(mu := Free))
    case TermRelease => (Ended, sh.(sending := Free))
  }

  // The three branches of receive: one body has been read, or its read failed (None).
  function AfterBody(h: Header, call: Option<nat>, body: Option<Payload>): ReceiverPc {
    if call.None? then (if body.None? then TermSending else ReadHeader)
    else if h.error != "" then Complete(h.number, call.value, Err(ServerError(h.error)), body.None?)
    else if body.None? then Complete(h.number, call.value, Err(BodyError), true)
    else Complete(h.number, call.value, Good(body.value), false)
  }

  // ---- steps of the whole client ----

  predicate Enabled(s: State, a: Action) {
    match a
    case NewCall(_, _, _, capacity) => capacity >= 1  // Go panics on an unbuffered channel
    case NewCloser => true
    case Advance(c) => c < |s.calls| && CanAdvance(s.calls[c], s.shared)
    case WriteReturns(c, _) => c < |s.calls| && s.calls[c].pc.Writing?
    case TakeBack(c) =>
      c < |s.calls| && s.calls[c].pc.FailDone? && s.calls[c].pc.d < |s.calls| && s.calls[s.calls[c].pc.d].HasRoom()
    case Take(c) => c < |s.calls| && s.calls[c].pc.Select? && s.calls[c].queued > 0
    case Cancel(c) => c < |s.calls| && s.calls[c].pc.Select?
    case Receive => CanReceive(s.receiver, s.shared)
    case HeaderArrives(_) | HeaderFails => s.receiver.ReadHeader?
    case BodyArrives(_) | BodyFails => s.receiver.ReadBody?
    case Finish => s.receiver.Complete? && s.receiver.c < |s.calls| && s.calls[s.receiver.c].HasRoom()
    case Sweep(n) =>
      && s.receiver.TermLoop? && n in s.receiver.todo && n in s.shared.core.pending
      && s.shared.core.pending[n] < |s.calls| && s.calls[s.shared.core.pending[n]].HasRoom()
    case CloserStep(k) =>
      k < |s.closers| && (s.closers[k].CloseHeld? || (s.closers[k].CloseWait? && s.shared.mu.Free?))
  }

  function Apply(s: State, a: Action): State
    requires Enabled(s, a)
  {
    match a
    case NewCall(target, args, waits, capacity) => s.(calls := s.calls + [Started(target, args, waits, capacity)])
    case NewCloser => s.(closers := s.closers + [CloseWait])
    case Advance(c) =>
      var (call, sh) := AdvanceCaller(c, s.calls[c], s.shared);
      s.(calls := s.calls[c := call], shared := sh)
    case WriteReturns(c, ok) => s.(calls := s.calls[c := s.calls[c].(pc := if ok then Unlock else FailWait)])
    case TakeBack(c) =>
      var d := s.calls[c].pc.d;
      var calls := s.calls[d := s.calls[d].Complete(WriteError)];
      s.(calls := calls[c := calls[c].(pc := Unlock)])
    case Take(c) => s.(calls := s.calls[c := s.calls[c].(queued := s.calls[c].queued - 1, pc := Returned)])
    case Cancel(c) => s.(calls := s.calls[c := s.calls[c].(pc := CancelWait)])
    case Receive =>
      var (r, sh) := AdvanceReceiver(s.receiver, s.shared);
      s.(receiver := r, shared := sh)
    case HeaderArrives(h) => s.(receiver := RemoveWait(h))
    case HeaderFails => s.(receiver := TermSending)
    case BodyArrives(body) => s.(receiver := AfterBody(s.receiver.h, s.receiver.call, Some(body)))
    case BodyFails => s.(receiver := AfterBody(s.receiver.h, s.receiver.call, None))
    case Finish =>
      var Complete(_, c, outcome, last) := s.receiver;
      var call := s.calls[c];
      s.(calls := s.calls[c := if outcome.Err? then call.Complete(outcome.error)
                               else call.(reply := Some(outcome.body)).Strobe()],
         receiver := if last then TermSending else ReadHeader)
    case Sweep(n) =>
      var c := s.shared.core.pending[n];
      s.(calls := s.calls[c := s.calls[c].Complete(Terminated)], receiver := TermLoop(s.receiver.todo - {n}))
    case CloserStep(k) =>
      var sh := s.shared;
      if s.closers[k].CloseWait? then s.(shared := sh.(mu := ByCloser(k)), closers := s.closers[k := CloseHeld])
      else s.(shared := sh.(mu := Free, core := sh.core.(closing := true)),
              closers := s.closers[k := Closed(!sh.core.closing)])
  }

  // ---- runs ----

  function Run(s: State, actions: seq<Action>): Option<State>
    decreases actions
  {
    if actions == [] then Some(s)
    else if !Enabled(s, actions[0]) then None
    else Run(Apply(s, actions[0]), actions[1..])
  }

  ghost predicate Reachable(s: State) {
    exists actions :: Run(INIT, actions) == Some(s)
  }
}
