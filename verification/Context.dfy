// The handler chain of one request. A handler is a finite script, and the index
// arithmetic of Next is set against a reading of the chain as nested calls.
module Context {

  datatype Op =
    | Emit(tag: int)  // anything a handler does by itself
    | Next
    | Fail
    | Panic

  datatype Handler =
    | Script(ops: seq<Op>)
    | Recovery

  datatype Event =
    | Started(i: nat)
    | Emitted(i: nat, tag: int)
    | Failed(i: nat)

  // ---- the chain as nested calls ----

  // What running something has done, and whether it ended in a panic.
  datatype Trace = Trace(events: seq<Event>, panicked: bool)

  // The same for a handler alone; `pending` if it returned without having
  // called Next or Fail, so that the handlers below it are still to run.
  datatype Own = Own(events: seq<Event>, panicked: bool, pending: bool)

  function Cons(e: Event, own: Own): Own {
    own.(events := [e] + own.events)
  }

  // The script of handler i. The first Next runs everything below it, later
  // ones and those after Fail do nothing.
  function OwnOps(ops: seq<Op>, i: nat, pending: bool, below: Trace): (own: Own)
    ensures own.panicked ==> !own.pending
    ensures own.pending ==> pending
  {
    if ops == [] then Own([], false, pending)
    else
      match ops[0]
      case Emit(tag) => Cons(Emitted(i, tag), OwnOps(ops[1..], i, pending, below))
      case Fail => Cons(Failed(i), OwnOps(ops[1..], i, false, below))
      case Panic => Own([], true, false)
      case Next =>
        if !pending then OwnOps(ops[1..], i, false, below)
        else if below.panicked then Own(below.events, true, false)
        else
          var rest := OwnOps(ops[1..], i, false, below);
          rest.(events := below.events + rest.events)
  }

  function OwnRun(h: Handler, i: nat, below: Trace): Own {
    match h
    case Script(ops) => OwnOps(ops, i, true, below)
    case Recovery => Own(below.events + (if below.panicked then [Failed(i)] else []), false, false)
  }

  // The handlers from i on.
  function Nested(hs: seq<Handler>, i: nat): Trace
    decreases |hs| - i
  {
    if i >= |hs| then Trace([], false)
    else
      var below := Nested(hs, i + 1);
      var own := OwnRun(hs[i], i, below);
      if own.pending then Trace([Started(i)] + own.events + below.events, below.panicked)
      else Trace([Started(i)] + own.events, own.panicked)
  }

  // Handler i alone, and then, if it left them to run, the ones below it.
  lemma NestedStep(hs: seq<Handler>, i: nat, log: seq<Event>)
    requires i < |hs|
    ensures var below := Nested(hs, i + 1); var own := OwnRun(hs[i], i, below);
      var after := log + [Started(i)] + own.events;
      if own.pending then
        log + Nested(hs, i).events == after + below.events && Nested(hs, i).panicked == below.panicked
      else
        log + Nested(hs, i).events == after && Nested(hs, i).panicked == own.panicked
  {
  }

  // The first operation of a script, and then the others.
  lemma OpStep(ops: seq<Op>, i: nat, pending: bool, below: Trace, log: seq<Event>)
    requires ops != []
    ensures var own := OwnOps(ops, i, pending, below);
      var first := match ops[0]
        case Emit(tag) => [Emitted(i, tag)]
        case Fail => [Failed(i)]
        case Panic => []
        case Next => if pending then below.events else [];
      var stops := ops[0].Panic? || (ops[0].Next? && pending && below.panicked);
      var rest := OwnOps(ops[1..], i, pending && ops[0].Emit?, below);
      if stops then log + own.events == log + first && own.panicked
      else log + own.events == log + first + rest.events && own.panicked == rest.panicked && own.pending == rest.pending
  {
  }

  // ---- the chain as the context runs it ----

  class Context {
    const handlers: seq<Handler>
    var index: int
    var log: seq<Event>

    constructor (handlers: seq<Handler>)
      ensures this.handlers == handlers && index == -1 && log == []
    {
      this.handlers, index, log := handlers, -1, [];
    }

    // A panic is a result; whoever does not handle it returns it at once.
    method Next() returns (panicked: bool)
      requires -1 <= index
      modifies this
      decreases |handlers| - index, 0
      ensures var all := Nested(handlers, old(index) + 1);
        && log == old(log) + all.events && panicked == all.panicked
        && (!panicked ==> index >= |handlers|)
      ensures index >= old(index)
    {
      index := index + 1;
      panicked := false;
      var s := |handlers|;
      ghost var target := old(log) + Nested(handlers, index).events;
      while index < s
        invariant old(index) < index
        invariant target == old(log) + Nested(handlers, old(index) + 1).events
        invariant index < s ==> log + Nested(handlers, index).events == target
        invariant index < s ==> Nested(handlers, index).panicked == Nested(handlers, old(index) + 1).panicked
        invariant index >= s ==> log == target && !Nested(handlers, old(index) + 1).panicked
      {
        NestedStep(handlers, index, log);
        panicked := Call(index);
        if panicked {
          return;
        }
        index := index + 1;
      }
    }

    method Call(i: nat) returns (panicked: bool)
      requires index == i < |handlers|
      modifies this
      decreases |handlers| - index, 2
      ensures var own := OwnRun(handlers[i], i, Nested(handlers, i + 1));
        && log == old(log) + [Started(i)] + own.events && panicked == own.panicked
        && (!panicked ==> if own.pending then index == i else index >= |handlers|)
      ensures index >= i
    {
      log := log + [Started(i)];
      match handlers[i]
      case Script(ops) => panicked := RunScript(i, ops);
      case Recovery =>
        panicked := this.Next();
        if panicked {
          FailHandler(i);
        }
        panicked := false;
    }

    // Context.Fail
    method FailHandler(i: nat)
      modifies this
      ensures index == |handlers| && log == old(log) + [Failed(i)]
    {
      index := |handlers|;
      log := log + [Failed(i)];
    }

    method RunScript(i: nat, ops: seq<Op>) returns (panicked: bool)
      requires index == i < |handlers|
      modifies this
      decreases |handlers| - index, 1
      ensures var own := OwnOps(ops, i, true, Nested(handlers, i + 1));
        && log == old(log) + own.events && panicked == own.panicked
        && (!panicked ==> if own.pending then index == i else index >= |handlers|)
      ensures index >= i
    {
      panicked := false;
      ghost var below := Nested(handlers, i + 1);
      ghost var target := old(log) + OwnOps(ops, i, true, below).events;
      for k := 0 to |ops|
        invariant index == i || index >= |handlers|
        invariant var rest := OwnOps(ops[k..], i, index == i, below);
          && log + rest.events == target
          && rest.panicked == OwnOps(ops, i, true, below).panicked
          && rest.pending == OwnOps(ops, i, true, below).pending
      {
        assert ops[k..][0] == ops[k] && ops[k..][1..] == ops[k + 1..];
        OpStep(ops[k..], i, index == i, below, log);
        match ops[k]
        case Emit(tag) => log := log + [Emitted(i, tag)];
        case Fail => FailHandler(i);
        case Panic => return true;
        case Next =>
          panicked := this.Next();
          if panicked {
            return;
          }
      }
    }
  }
}
