// The fields of an RPC client that Client.mu guards, and the methods that run
// while holding it. The functions on `Core` are what the transition system in
// RpcProtocol.dfy uses for the same critical sections.
module RpcClient {
  import opened Options

  datatype CallError =
    | ErrShutdown
    | WriteError
    | ServerError(message: string)
    | BodyError
    | Terminated

  // C identifies a call.
  datatype Core<C> = Core(next: nat, pending: map<nat, C>, closing: bool, shutdown: bool)

  // The call is filed under the next number, unless the client is going down.
  function Register<C>(core: Core<C>, call: C): (Core<C>, Option<nat>) {
    if core.closing || core.shutdown then (core, None)
    else (core.(pending := core.pending[core.next := call], next := core.next + 1), Some(core.next))
  }

  function Remove<C>(core: Core<C>, number: nat): (Core<C>, Option<C>) {
    if number in core.pending then (core.(pending := core.pending - {number}), Some(core.pending[number]))
    else (core, None)
  }

  class Call {
    var number: nat
    var error: Option<CallError>
    var strobes: nat  // messages put on the Done channel so far

    constructor ()
      ensures number == 0 && error == None && strobes == 0
    {
      number, error, strobes := 0, None, 0;
    }

    method Done()
      modifies this`strobes
      ensures strobes == old(strobes) + 1
    {
      strobes := strobes + 1;
    }
  }

  class Client {
    var next: nat
    var pending: map<nat, Call>
    var closing: bool
    var shutdown: bool

    function State(): Core<Call>
      reads this
    {
      Core(next, pending, closing, shutdown)
    }

    // Every pending call is filed under its own number, hence under one only.
    ghost predicate Valid()
      reads this, pending.Values
    {
      && 1 <= next
      && (forall n :: n in pending ==> 1 <= n < next && pending[n].number == n)
    }

    constructor ()
      ensures Valid() && State() == Core(1, map[], false, false)
    {
      next, pending, closing, shutdown := 1, map[], false, false;
    }

    method Close() returns (ok: bool)
      requires Valid()
      modifies this`closing
      ensures Valid() && State() == old(State()).(closing := true) && ok == !old(closing)
    {
      if closing {
        return false;
      }
      closing := true;
      return true;
    }

    method RegisterCall(call: Call) returns (r: Option<nat>)
      requires Valid() && call !in pending.Values
      modifies this`next, this`pending, call`number
      ensures Valid()
      ensures (State(), r) == Register(old(State()), call)
      ensures r.None? <==> old(closing) || old(shutdown)
      ensures r.None? ==> State() == old(State())
      ensures r.Some? ==> r.value == old(next) && pending == old(pending)[r.value := call]
      ensures call.number == if r.Some? then r.value else old(call.number)
    {
      if closing || shutdown {
        return None;
      }
      call.number := next;
      pending := pending[call.number := call];
      next := next + 1;
      return Some(call.number);
    }

    method RemoveCall(number: nat) returns (r: Option<Call>)
      requires Valid()
      modifies this`pending
      ensures Valid()
      ensures (State(), r) == Remove(old(State()), number)
    {
      r := if number in pending then Some(pending[number]) else None;
      assert number !in pending ==> pending - {number} == pending;
      pending := pending - {number};
    }

    // Every pending call gets the error and exactly one strobe; none leaves the map.
    method TerminateCalls(err: CallError)
      requires Valid()
      modifies this`shutdown, pending.Values
      ensures Valid() && State() == old(State()).(shutdown := true)
      ensures forall c :: c in pending.Values ==>
        c.error == Some(err) && c.strobes == old(c.strobes) + 1 && c.number == old(c.number)
    {
      shutdown := true;
      var todo := pending.Keys;
      while todo != {}
        invariant todo <= pending.Keys
        invariant Valid() && State() == old(State()).(shutdown := true)
        invariant forall n :: n in pending && n !in todo ==>
          pending[n].error == Some(err) && pending[n].strobes == old(pending[n].strobes) + 1
        invariant forall n :: n in todo ==> pending[n].strobes == old(pending[n].strobes)
        invariant forall n :: n in pending ==> pending[n].number == old(pending[n].number)
      {
        var n :| n in todo;
        pending[n].error := Some(err);
        pending[n].Done();
        todo := todo - {n};
      }
    }
  }
}
