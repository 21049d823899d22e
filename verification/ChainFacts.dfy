// What follows for every handler chain.
module ChainFacts {
  import opened Context

  // The handlers that were started, in order.
  function Starts(events: seq<Event>): seq<nat> {
    if events == [] then []
    else (if events[0].Started? then [events[0].i] else []) + Starts(events[1..])
  }

  function Range(from: nat, count: nat): seq<nat> {
    seq(count, k requires 0 <= k => from + k)
  }

  lemma {:induction false} StartsConcat(a: seq<Event>, b: seq<Event>)
    ensures Starts(a + b) == Starts(a) + Starts(b)
  {
    if a == [] {
      assert a + b == b;
    } else {
      StartsConcat(a[1..], b);
      TailOfConcat(a, b);
    }
  }

  lemma TailOfConcat<T>(a: seq<T>, b: seq<T>)
    requires a != []
    ensures (a + b)[0] == a[0] && (a + b)[1..] == a[1..] + b
  {
  }

  // A script starts nothing itself: what it starts is what its first Next runs.
  lemma {:induction false} OpsStart(ops: seq<Op>, i: nat, pending: bool, below: Trace)
    ensures var own := OwnOps(ops, i, pending, below);
      && (Starts(own.events) == [] || (pending && Starts(own.events) == Starts(below.events)))
      && (own.pending ==> Starts(own.events) == [])
  {
    if ops != [] {
      OpsStart(ops[1..], i, pending && ops[0].Emit?, below);
      if ops[0].Next? && pending && !below.panicked {
        StartsConcat(below.events, OwnOps(ops[1..], i, false, below).events);
      }
    }
  }

  lemma RunStarts(h: Handler, i: nat, below: Trace)
    ensures var own := OwnRun(h, i, below);
      && (Starts(own.events) == [] || Starts(own.events) == Starts(below.events))
      && (own.pending ==> Starts(own.events) == [])
  {
    match h
    case Script(ops) => OpsStart(ops, i, true, below);
    case Recovery =>
      var last := if below.panicked then [Failed(i)] else [];
      StartsConcat(below.events, last);
      assert Starts(last) == [];
  }

  // Handler i starts, and then the ones below it or none of them.
  lemma NestedStarts(hs: seq<Handler>, i: nat)
    requires i < |hs|
    ensures var own := OwnRun(hs[i], i, Nested(hs, i + 1));
      Starts(Nested(hs, i).events) ==
        [i] + if own.pending then Starts(Nested(hs, i + 1).events) else Starts(own.events)
  {
    var below := Nested(hs, i + 1);
    var own := OwnRun(hs[i], i, below);
    RunStarts(hs[i], i, below);
    StartsConcat([Started(i)], own.events);
    StartsConcat([Started(i)] + own.events, below.events);
    assert Starts([Started(i)]) == [i];
  }

  // Handlers start in index order, none is skipped and none starts twice,
  // whatever Next, Fail and panics there are.
  lemma {:induction false} StartInOrder(hs: seq<Handler>, i: nat)
    requires i <= |hs|
    ensures var starts := Starts(Nested(hs, i).events);
      i + |starts| <= |hs| && starts == Range(i, |starts|)
    decreases |hs| - i
  {
    if i < |hs| {
      StartInOrder(hs, i + 1);
      NestedStarts(hs, i);
      RunStarts(hs[i], i, Nested(hs, i + 1));
    }
  }

  // ---- without Fail and panics ----

  ghost predicate Calm(h: Handler) {
    h.Script? ==> Fail !in h.ops && Panic !in h.ops
  }

  lemma {:induction false} CalmOps(ops: seq<Op>, i: nat, pending: bool, below: Trace)
    requires Fail !in ops && Panic !in ops && !below.panicked
    ensures var own := OwnOps(ops, i, pending, below);
      && !own.panicked
      && Starts(own.events) == if pending && !own.pending then Starts(below.events) else []
  {
    if ops != [] {
      CalmOps(ops[1..], i, pending && ops[0].Emit?, below);
      if ops[0].Next? && pending {
        StartsConcat(below.events, OwnOps(ops[1..], i, false, below).events);
      }
    }
  }

  lemma CalmRun(h: Handler, i: nat, below: Trace)
    requires Calm(h) && !below.panicked
    ensures var own := OwnRun(h, i, below);
      !own.panicked && Starts(own.events) == if own.pending then [] else Starts(below.events)
  {
    match h
    case Script(ops) => CalmOps(ops, i, true, below);
    case Recovery => assert below.events + [] == below.events;
  }

  lemma RangeCons(from: nat, count: nat)
    ensures [from] + Range(from + 1, count) == Range(from, count + 1)
  {
  }

  // If nobody fails or panics, every handler runs exactly once, whether or not
  // the ones before it call Next.
  lemma {:induction false} CalmChainRunsAll(hs: seq<Handler>, i: nat)
    requires i <= |hs| && forall h :: h in hs ==> Calm(h)
    ensures !Nested(hs, i).panicked && Starts(Nested(hs, i).events) == Range(i, |hs| - i)
    decreases |hs| - i
  {
    if i < |hs| {
      CalmChainRunsAll(hs, i + 1);
      assert Calm(hs[i]);
      CalmRun(hs[i], i, Nested(hs, i + 1));
      NestedStarts(hs, i);
      RangeCons(i, |hs| - i - 1);
    }
  }

  // ---- after Fail ----

  ghost predicate NoStartAfterFail(events: seq<Event>) {
    forall a, b :: 0 <= a < b < |events| && events[a].Failed? ==> !events[b].Started?
  }

  ghost predicate NoFail(events: seq<Event>) {
    forall e :: e in events ==> !e.Failed?
  }

  ghost predicate NoStart(events: seq<Event>) {
    forall e :: e in events ==> !e.Started?
  }

  lemma Sealed(a: seq<Event>, b: seq<Event>)
    requires NoStartAfterFail(a) && NoStartAfterFail(b) && (NoFail(a) || NoStart(b))
    ensures NoStartAfterFail(a + b)
  {
    forall x, y | 0 <= x < y < |a + b| && (a + b)[x].Failed?
      ensures !(a + b)[y].Started?
    {
      if x < |a| <= y {
        assert a[x] in a && b[y - |a|] in b;
      }
    }
  }

  lemma {:induction false} OpsSeal(ops: seq<Op>, i: nat, pending: bool, below: Trace)
    requires NoStartAfterFail(below.events)
    ensures var own := OwnOps(ops, i, pending, below);
      && NoStartAfterFail(own.events)
      && (!pending ==> NoStart(own.events)) && (own.pending ==> NoFail(own.events))
  {
    if ops != [] {
      var rest := OwnOps(ops[1..], i, pending && ops[0].Emit?, below);
      OpsSeal(ops[1..], i, pending && ops[0].Emit?, below);
      match ops[0]
      case Emit(tag) => Sealed([Emitted(i, tag)], rest.events);
      case Fail => Sealed([Failed(i)], rest.events);
      case Panic =>
      case Next =>
        if pending {
          Sealed(below.events, rest.events);
        }
    }
  }

  // No handler starts after any Fail, Recovery's own included.
  lemma {:induction false} NothingStartsAfterFail(hs: seq<Handler>, i: nat)
    ensures NoStartAfterFail(Nested(hs, i).events)
    decreases |hs| - i
  {
    if i < |hs| {
      NothingStartsAfterFail(hs, i + 1);
      var below := Nested(hs, i + 1);
      var own := OwnRun(hs[i], i, below);
      match hs[i] {
        case Script(ops) => OpsSeal(ops, i, true, below);
        case Recovery =>
          var last := if below.panicked then [Failed(i)] else [];
          assert NoStart(last);
          Sealed(below.events, last);
      }
      Sealed([Started(i)], own.events);
      assert own.pending ==> NoFail([Started(i)] + own.events);
      if own.pending {
        Sealed([Started(i)] + own.events, below.events);
      }
    }
  }

  // ---- panics ----

  lemma {:induction false} OpsPanic(ops: seq<Op>, i: nat, pending: bool, below: Trace)
    requires OwnOps(ops, i, pending, below).panicked
    ensures Panic in ops || below.panicked
  {
    if ops != [] && !ops[0].Panic? && !(ops[0].Next? && pending && below.panicked) {
      OpsPanic(ops[1..], i, pending && ops[0].Emit?, below);
    }
  }

  // A panic that reaches the top comes from a handler with no Recovery at or above it.
  lemma {:induction false} EscapedPanicHasNoRecoveryAbove(hs: seq<Handler>, i: nat) returns (j: nat)
    requires Nested(hs, i).panicked
    ensures i <= j < |hs| && hs[j].Script? && Panic in hs[j].ops
    ensures forall k :: i <= k <= j ==> !hs[k].Recovery?
    decreases |hs| - i
  {
    var below := Nested(hs, i + 1);
    match hs[i]
    case Script(ops) =>
      if Panic in ops {
        j := i;
      } else {
        if !OwnRun(hs[i], i, below).pending {
          OpsPanic(ops, i, true, below);
        }
        j := EscapedPanicHasNoRecoveryAbove(hs, i + 1);
      }
  }

  // With Recovery first, as the default engine has it after its logger, nothing escapes.
  lemma RecoveryFirstIsSafe(hs: seq<Handler>, r: nat)
    requires r < |hs| && hs[r].Recovery?
    requires forall k :: 0 <= k < r ==> hs[k].Script? && Panic !in hs[k].ops
    ensures !Nested(hs, 0).panicked
  {
    if Nested(hs, 0).panicked {
      var j := EscapedPanicHasNoRecoveryAbove(hs, 0);
      assert false;
    }
  }

  // ---- what each handler does ----

  // What a script does by itself, up to its first panic.
  function Said(ops: seq<Op>, i: nat): seq<Event> {
    if ops == [] then []
    else
      match ops[0]
      case Emit(tag) => [Emitted(i, tag)] + Said(ops[1..], i)
      case Fail => [Failed(i)] + Said(ops[1..], i)
      case Panic => []
      case Next => Said(ops[1..], i)
  }

  // The events of handler i but its start.
  function Of(events: seq<Event>, i: nat): seq<Event> {
    if events == [] then []
    else (if !events[0].Started? && events[0].i == i then [events[0]] else []) + Of(events[1..], i)
  }

  lemma {:induction false} OfConcat(a: seq<Event>, b: seq<Event>, i: nat)
    ensures Of(a + b, i) == Of(a, i) + Of(b, i)
  {
    if a == [] {
      assert a + b == b;
    } else {
      OfConcat(a[1..], b, i);
      TailOfConcat(a, b);
    }
  }

  // A script does what it says, in order; a panic below cuts it off.
  lemma {:induction false} OpsSay(ops: seq<Op>, i: nat, pending: bool, below: Trace)
    requires Of(below.events, i) == []
    ensures var own := OwnOps(ops, i, pending, below);
      Of(own.events, i) <= Said(ops, i) && (!own.panicked ==> Of(own.events, i) == Said(ops, i))
  {
    if ops != [] {
      var rest := OwnOps(ops[1..], i, pending && ops[0].Emit?, below);
      OpsSay(ops[1..], i, pending && ops[0].Emit?, below);
      match ops[0]
      case Emit(tag) => OfConcat([Emitted(i, tag)], rest.events, i);
      case Fail => OfConcat([Failed(i)], rest.events, i);
      case Panic =>
      case Next => OfConcat(below.events, rest.events, i);
    }
  }

  // Handlers further down have no part in it.
  lemma {:induction false} NoneOfBelow(hs: seq<Handler>, j: nat, i: nat)
    requires i < j
    ensures Of(Nested(hs, j).events, i) == []
    decreases |hs| - j
  {
    if j < |hs| {
      var below := Nested(hs, j + 1);
      var own := OwnRun(hs[j], j, below);
      NoneOfBelow(hs, j + 1, i);
      match hs[j] {
        case Script(ops) => OthersSayNothing(ops, j, true, below, i);
        case Recovery => OfConcat(below.events, if below.panicked then [Failed(j)] else [], i);
      }
      OfConcat([Started(j)], own.events, i);
      OfConcat([Started(j)] + own.events, below.events, i);
    }
  }

  lemma {:induction false} OthersSayNothing(ops: seq<Op>, j: nat, pending: bool, below: Trace, i: nat)
    requires i != j && Of(below.events, i) == []
    ensures Of(OwnOps(ops, j, pending, below).events, i) == []
  {
    if ops != [] {
      OthersSayNothing(ops[1..], j, pending && ops[0].Emit?, below, i);
      if ops[0].Next? {
        OfConcat(below.events, OwnOps(ops[1..], j, pending && ops[0].Emit?, below).events, i);
      }
    }
  }

  // A handler does exactly what its script says, in the order of the script,
  // unless a panic, its own or one below, ends it before.
  lemma ScriptSays(hs: seq<Handler>, i: nat)
    requires i < |hs| && hs[i].Script?
    ensures var events := Of(Nested(hs, i).events, i);
      events <= Said(hs[i].ops, i) && (!Nested(hs, i).panicked ==> events == Said(hs[i].ops, i))
  {
    var below := Nested(hs, i + 1);
    var own := OwnRun(hs[i], i, below);
    NoneOfBelow(hs, i + 1, i);
    OpsSay(hs[i].ops, i, true, below);
    OfStarted(own.events, below.events, i);
  }

  lemma OfStarted(a: seq<Event>, b: seq<Event>, i: nat)
    ensures Of([Started(i)] + a, i) == Of(a, i)
    ensures Of([Started(i)] + a + b, i) == Of(a, i) + Of(b, i)
  {
    OfConcat([Started(i)], a, i);
    OfConcat([Started(i)] + a, b, i);
  }

  // A Recovery passes everything through, and fails the request exactly if what
  // is below it panics, once and at the end.
  lemma RecoveryFailsIffPanic(hs: seq<Handler>, i: nat)
    requires i < |hs| && hs[i].Recovery?
    ensures var below := Nested(hs, i + 1);
      && !Nested(hs, i).panicked
      && Nested(hs, i).events == [Started(i)] + below.events + (if below.panicked then [Failed(i)] else [])
      && Of(Nested(hs, i).events, i) == if below.panicked then [Failed(i)] else []
  {
    var below := Nested(hs, i + 1);
    var last := if below.panicked then [Failed(i)] else [];
    NoneOfBelow(hs, i + 1, i);
    OfConcat([Started(i)] + below.events, last, i);
    OfConcat([Started(i)], below.events, i);
    assert [Started(i)] + (below.events + last) == [Started(i)] + below.events + last;
  }

  ghost predicate OnlyEmits(ops: seq<Op>) {
    forall op :: op in ops ==> op.Emit?
  }

  lemma EmitFirst(tag: int, ops: seq<Op>, i: nat, below: Trace)
    ensures OwnOps([Emit(tag)] + ops, i, true, below) == Cons(Emitted(i, tag), OwnOps(ops, i, true, below))
    ensures Said([Emit(tag)] + ops, i) == [Emitted(i, tag)] + Said(ops, i)
  {
    assert ([Emit(tag)] + ops)[1..] == ops;
  }

  lemma Reassociate<T>(a: seq<T>, b: seq<T>, c: seq<T>)
    ensures a + (b + c) == a + b + c
  {
  }

  // What a script begins with it does first.
  lemma {:induction false} EmitsFirst(before: seq<Op>, ops: seq<Op>, i: nat, below: Trace)
    requires OnlyEmits(before)
    ensures var own := OwnOps(ops, i, true, below);
      OwnOps(before + ops, i, true, below) == own.(events := Said(before, i) + own.events)
  {
    if before == [] {
      assert before + ops == ops;
    } else {
      var first, rest := [before[0]], before[1..];
      assert before == first + rest && before[0] in before && forall op :: op in rest ==> op in before;
      EmitsFirst(rest, ops, i, below);
      Reassociate(first, rest, ops);
      EmitFirst(before[0].tag, rest + ops, i, below);
      EmitFirst(before[0].tag, rest, i, below);
      Reassociate([Emitted(i, before[0].tag)], Said(rest, i), OwnOps(ops, i, true, below).events);
    }
  }

  // Once Next has been called a script only does what it says.
  lemma {:induction false} AfterNext(ops: seq<Op>, i: nat, below: Trace)
    ensures OwnOps(ops, i, false, below) == Own(Said(ops, i), Panic in ops, false)
  {
    if ops != [] {
      AfterNext(ops[1..], i, below);
    }
  }

  lemma NextFirst(after: seq<Op>, i: nat, below: Trace)
    ensures OwnOps([Next] + after, i, true, below) ==
      if below.panicked then Own(below.events, true, false)
      else Own(below.events + Said(after, i), Panic in after, false)
  {
    assert ([Next] + after)[1..] == after;
    AfterNext(after, i, below);
  }

  // Before Next, then everything below, then what comes after.
  lemma OnionOrder(hs: seq<Handler>, i: nat, before: seq<Op>, after: seq<Op>)
    requires i < |hs| && hs[i] == Script(before + ([Next] + after)) && OnlyEmits(before)
    ensures var below := Nested(hs, i + 1); var start := [Started(i)] + Said(before, i) + below.events;
      && (below.panicked ==> Nested(hs, i) == Trace(start, true))
      && (!below.panicked ==> Nested(hs, i) == Trace(start + Said(after, i), Panic in after))
  {
    var below, said := Nested(hs, i + 1), Said(before, i);
    NextFirst(after, i, below);
    EmitsFirst(before, [Next] + after, i, below);
    Reassociate([Started(i)], said, below.events);
    Reassociate([Started(i)], said, below.events + Said(after, i));
    Reassociate([Started(i)] + said, below.events, Said(after, i));
  }

  // A handler that does not call Next is followed by what is below it ...
  lemma WithoutNext(hs: seq<Handler>, i: nat, ops: seq<Op>)
    requires i < |hs| && OnlyEmits(ops) && hs[i] == Script(ops)
    ensures var below := Nested(hs, i + 1);
      Nested(hs, i) == Trace([Started(i)] + Said(ops, i) + below.events, below.panicked)
  {
    EmitsFirst(ops, [], i, Nested(hs, i + 1));
    assert ops + [] == ops && Said(ops, i) + [] == Said(ops, i);
  }

  // ... unless it panics.
  lemma PanicEndsIt(hs: seq<Handler>, i: nat, before: seq<Op>, after: seq<Op>)
    requires i < |hs| && OnlyEmits(before) && hs[i] == Script(before + ([Panic] + after))
    ensures Nested(hs, i) == Trace([Started(i)] + Said(before, i), true)
  {
    EmitsFirst(before, [Panic] + after, i, Nested(hs, i + 1));
    assert Said(before, i) + [] == Said(before, i);
  }

  // Without Fail and panics nothing fails, with Recovery or not.
  lemma {:induction false} CalmChainFailsNothing(hs: seq<Handler>, i: nat)
    requires i <= |hs| && forall h :: h in hs ==> Calm(h)
    ensures NoFail(Nested(hs, i).events)
    decreases |hs| - i
  {
    if i < |hs| {
      CalmChainFailsNothing(hs, i + 1);
      CalmChainRunsAll(hs, i + 1);
      assert Calm(hs[i]);
      match hs[i]
      case Script(ops) => CalmOpsFailNothing(ops, i, true, Nested(hs, i + 1));
      case Recovery =>
    }
  }

  lemma {:induction false} CalmOpsFailNothing(ops: seq<Op>, i: nat, pending: bool, below: Trace)
    requires Fail !in ops && NoFail(below.events)
    ensures NoFail(OwnOps(ops, i, pending, below).events)
  {
    if ops != [] {
      CalmOpsFailNothing(ops[1..], i, pending && ops[0].Emit?, below);
    }
  }
}
