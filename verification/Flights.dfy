// The singleflight groups of several nodes together. The function that a group
// runs for a key loads it, or asks the peer picked for it and waits until that
// peer's own Do has returned. Requests and responses get through here, and no
// key is cached yet.
module Flights {
  import opened Options
  import F = Singleflight

  // A key on a node.
  datatype Slot = Slot(node: string, key: string)

  // `next` is where a node forwards a lookup to, if it does.
  datatype Net = Net(nodes: set<string>, next: Slot -> Option<Slot>)
  {
    function Next(s: Slot): Option<Slot> {
      if next(s).Some? && next(s).value.node in nodes then next(s) else None
    }

    // At most d forwards lead to a node that keeps the key.
    ghost predicate EndsWithin(s: Slot, d: nat)
      decreases d
    {
      Next(s).None? || (d > 0 && EndsWithin(Next(s).value, d - 1))
    }

    ghost predicate Ends(s: Slot) {
      exists d: nat :: EndsWithin(s, d)
    }
  }

  lemma EndsIffNextEnds(net: Net, s: Slot)
    requires net.Next(s).Some?
    ensures net.Ends(s) <==> net.Ends(net.Next(s).value)
  {
    if d: nat :| net.EndsWithin(s, d) {
      assert net.EndsWithin(net.Next(s).value, d - 1);
    }
    if d: nat :| net.EndsWithin(net.Next(s).value, d) {
      assert net.EndsWithin(s, d + 1);
    }
  }

  // ---- the steps ----

  // A goroutine in Do.
  datatype Caller = Caller(node: string, p: nat)

  datatype State = State(
    groups: map<string, F.Group>,
    asked: map<Caller, nat>)  // which Do of the peer's a leader waits for

  datatype Action =
    | Lookup(node: string, key: string)
    | Step(node: string, p: nat)
    | Ask(node: string, p: nat)
    | Answer(node: string, p: nat, r: F.Result)  // fn returns

  function Initial(net: Net): State {
    State(map n | n in net.nodes :: F.INIT, map[])
  }

  ghost predicate Has(w: State, n: string, p: nat) {
    n in w.groups && p < |w.groups[n].procs|
  }

  predicate Running(w: State, n: string, p: nat) {
    n in w.groups && F.Enabled(w.groups[n], F.FnReturns(p, ""))
  }

  function SlotOf(w: State, n: string, p: nat): Slot
    requires n in w.groups && p < |w.groups[n].procs|
  {
    Slot(n, w.groups[n].procs[p].key)
  }

  // The Do that it asked for has returned.
  predicate Heard(w: State, t: Slot, c: Caller) {
    && c in w.asked && t.node in w.groups && w.asked[c] < |w.groups[t.node].procs|
    && w.groups[t.node].procs[w.asked[c]].pc.Returned?
  }

  predicate Enabled(net: Net, w: State, a: Action) {
    match a
    case Lookup(n, _) => n in w.groups
    case Step(n, p) => n in w.groups && F.Enabled(w.groups[n], F.Step(p))
    case Ask(n, p) =>
      && Running(w, n, p) && Caller(n, p) !in w.asked && net.Next(SlotOf(w, n, p)).Some?
      && net.Next(SlotOf(w, n, p)).value.node in w.groups
    case Answer(n, p, _) =>
      Running(w, n, p) &&
      match net.Next(SlotOf(w, n, p))
      case None => true
      case Some(t) => Heard(w, t, Caller(n, p))
  }

  function InGroup(w: State, n: string, a: F.Action): State
    requires n in w.groups && F.Enabled(w.groups[n], a)
  {
    w.(groups := w.groups[n := F.Apply(w.groups[n], a)])
  }

  function Apply(net: Net, w: State, a: Action): State
    requires Enabled(net, w, a)
  {
    match a
    case Lookup(n, key) => InGroup(w, n, F.Do(key))
    case Step(n, p) => InGroup(w, n, F.Step(p))
    case Ask(n, p) =>
      var t := net.Next(SlotOf(w, n, p)).value;
      InGroup(w, t.node, F.Do(t.key)).(asked := w.asked[Caller(n, p) := |w.groups[t.node].procs|])
    case Answer(n, p, r) => InGroup(w, n, F.FnReturns(p, r))
  }

  function Run(net: Net, w: State, actions: seq<Action>): Option<State>
    decreases actions
  {
    if actions == [] then Some(w)
    else if !Enabled(net, w, actions[0]) then None
    else Run(net, Apply(net, w, actions[0]), actions[1..])
  }

  ghost predicate Leads(net: Net, w: State, t: State) {
    exists actions :: Run(net, w, actions) == Some(t)
  }

  ghost predicate Reachable(net: Net, w: State) {
    Leads(net, Initial(net), w)
  }

  lemma {:induction false} RunAppend(net: Net, w: State, first: seq<Action>, second: seq<Action>)
    requires Run(net, w, first).Some?
    ensures Run(net, w, first + second) == Run(net, Run(net, w, first).value, second)
    decreases first
  {
    if first == [] {
      assert first + second == second;
    } else {
      assert (first + second)[1..] == first[1..] + second;
      RunAppend(net, Apply(net, w, first[0]), first[1..], second);
    }
  }

  lemma LeadsOn(net: Net, w: State, t: State, u: State)
    requires Leads(net, w, t) && Leads(net, t, u)
    ensures Leads(net, w, u)
  {
    var first :| Run(net, w, first) == Some(t);
    var second :| Run(net, t, second) == Some(u);
    RunAppend(net, w, first, second);
    assert Run(net, w, first + second) == Some(u);
  }

  lemma LeadsOne(net: Net, w: State, a: Action)
    requires Enabled(net, w, a)
    ensures Leads(net, w, Apply(net, w, a))
  {
    assert [a][1..] == [];
    assert Run(net, w, [a]) == Some(Apply(net, w, a));
  }

  // ---- what every step keeps ----

  // A leader that has asked waits for a Do of the key that arrived.
  ghost predicate AskedOk(net: Net, w: State, c: Caller)
    requires c in w.asked
  {
    && Has(w, c.node, c.p)
    && var t := net.Next(SlotOf(w, c.node, c.p));
      && t.Some? && Has(w, t.value.node, w.asked[c])
      && w.groups[t.value.node].procs[w.asked[c]].key == t.value.key
  }

  // fn has returned only where the chain of picks ends.
  ghost predicate ResultsEnd(net: Net, n: string, g: F.Group) {
    forall k :: 0 <= k < |g.calls| && g.calls[k].result.Some? ==> net.Ends(Slot(n, g.calls[k].key))
  }

  ghost predicate GroupOk(net: Net, n: string, g: F.Group) {
    F.Inv(g) && ResultsEnd(net, n, g)
  }

  ghost predicate Inv(net: Net, w: State) {
    && w.groups.Keys == net.nodes
    && (forall n :: n in w.groups ==> GroupOk(net, n, w.groups[n]))
    && (forall c :: c in w.asked ==> AskedOk(net, w, c))
  }

  // How a group may change: callers keep their keys and only move forwards.
  function Phase(pc: F.Pc): nat {
    match pc
    case Start => 8 case Looking => 7 case Waiting(_) => 6 case Running(_) => 5
    case Publishing(_) => 4 case DeleteWait(_) => 3 case Deleting(_) => 2 case Returned(_, _) => 0
  }

  ghost predicate ProcOnward(p: F.Proc, p': F.Proc) {
    p'.key == p.key && Phase(p'.pc) <= Phase(p.pc) && (Phase(p'.pc) == Phase(p.pc) ==> p'.pc == p.pc)
  }

  ghost predicate GroupOnward(g: F.Group, g': F.Group) {
    && |g.procs| <= |g'.procs| && |g.calls| <= |g'.calls|
    && (forall p :: 0 <= p < |g.procs| ==> ProcOnward(g.procs[p], g'.procs[p]))
    && (forall k :: 0 <= k < |g.calls| ==> g'.calls[k].leader == g.calls[k].leader)
  }

  ghost predicate Onward(w: State, w': State) {
    && w.groups.Keys == w'.groups.Keys
    && (forall n :: n in w.groups ==> GroupOnward(w.groups[n], w'.groups[n]))
    && (forall c :: c in w.asked ==> c in w'.asked && w'.asked[c] == w.asked[c])
  }

  lemma GroupMovesOnward(g: F.Group, a: F.Action)
    requires F.Enabled(g, a)
    ensures GroupOnward(g, F.Apply(g, a))
  {
  }

  lemma StepMovesOnward(net: Net, w: State, a: Action)
    requires Enabled(net, w, a)
    ensures Onward(w, Apply(net, w, a))
  {
    match a
    case Lookup(n, key) => GroupMovesOnward(w.groups[n], F.Do(key));
    case Step(n, p) => GroupMovesOnward(w.groups[n], F.Step(p));
    case Ask(n, p) =>
      var t := net.Next(SlotOf(w, n, p)).value;
      GroupMovesOnward(w.groups[t.node], F.Do(t.key));
    case Answer(n, p, r) => GroupMovesOnward(w.groups[n], F.FnReturns(p, r));
  }

  lemma OnwardTransitive(w: State, t: State, u: State)
    requires Onward(w, t) && Onward(t, u)
    ensures Onward(w, u)
  {
    forall n | n in w.groups
      ensures GroupOnward(w.groups[n], u.groups[n])
    {
      assert GroupOnward(w.groups[n], t.groups[n]) && GroupOnward(t.groups[n], u.groups[n]);
      forall p | 0 <= p < |w.groups[n].procs|
        ensures ProcOnward(w.groups[n].procs[p], u.groups[n].procs[p])
      {
        assert ProcOnward(w.groups[n].procs[p], t.groups[n].procs[p]);
        assert ProcOnward(t.groups[n].procs[p], u.groups[n].procs[p]);
      }
    }
  }

  lemma QuietKeepsResults(net: Net, n: string, g: F.Group, a: F.Action)
    requires GroupOk(net, n, g) && F.Enabled(g, a) && !a.FnReturns?
    ensures GroupOk(net, n, F.Apply(g, a))
  {
    F.StepKeepsInv(g, a);
    var t := F.Apply(g, a);
    forall k | 0 <= k < |t.calls| && t.calls[k].result.Some?
      ensures net.Ends(Slot(n, t.calls[k].key))
    {
      assert k < |g.calls| && g.calls[k].result == t.calls[k].result && g.calls[k].key == t.calls[k].key;
    }
  }

  lemma ReturnKeepsResults(net: Net, n: string, g: F.Group, p: nat, r: F.Result)
    requires GroupOk(net, n, g) && F.Enabled(g, F.FnReturns(p, r)) && net.Ends(Slot(n, g.procs[p].key))
    ensures GroupOk(net, n, F.Apply(g, F.FnReturns(p, r)))
  {
    F.StepKeepsInv(g, F.FnReturns(p, r));
    assert F.ProcOk(g, p);
    F.AttachedOk(g, p);
  }

  // Whoever has returned is on a chain that ends.
  lemma ReturnedEnds(net: Net, w: State, n: string, p: nat)
    requires Inv(net, w) && Has(w, n, p) && w.groups[n].procs[p].pc.Returned?
    ensures net.Ends(SlotOf(w, n, p))
  {
    assert GroupOk(net, n, w.groups[n]);
    assert F.ProcOk(w.groups[n], p);
  }

  lemma AskedStaysOk(net: Net, w: State, w': State, c: Caller)
    requires Onward(w, w') && c in w.asked && AskedOk(net, w, c)
    ensures AskedOk(net, w', c)
  {
    var t := net.Next(SlotOf(w, c.node, c.p)).value;
    assert GroupOnward(w.groups[c.node], w'.groups[c.node]) && GroupOnward(w.groups[t.node], w'.groups[t.node]);
    assert ProcOnward(w.groups[c.node].procs[c.p], w'.groups[c.node].procs[c.p]);
    assert ProcOnward(w.groups[t.node].procs[w.asked[c]], w'.groups[t.node].procs[w.asked[c]]);
  }

  lemma AnswerEnds(net: Net, w: State, n: string, p: nat, r: F.Result)
    requires Inv(net, w) && Enabled(net, w, Answer(n, p, r))
    ensures net.Ends(SlotOf(w, n, p))
  {
    var s := SlotOf(w, n, p);
    if net.Next(s).None? {
      assert net.EndsWithin(s, 0);
    } else {
      var t, c := net.Next(s).value, Caller(n, p);
      assert AskedOk(net, w, c);
      ReturnedEnds(net, w, t.node, w.asked[c]);
      EndsIffNextEnds(net, s);
    }
  }

  lemma StepKeepsGroups(net: Net, w: State, a: Action)
    requires Inv(net, w) && Enabled(net, w, a)
    ensures forall n :: n in w.groups ==> GroupOk(net, n, Apply(net, w, a).groups[n])
  {
    match a
    case Lookup(n, key) => QuietKeepsResults(net, n, w.groups[n], F.Do(key));
    case Step(n, p) => QuietKeepsResults(net, n, w.groups[n], F.Step(p));
    case Ask(n, p) =>
      var t := net.Next(SlotOf(w, n, p)).value;
      QuietKeepsResults(net, t.node, w.groups[t.node], F.Do(t.key));
    case Answer(n, p, r) =>
      AnswerEnds(net, w, n, p, r);
      ReturnKeepsResults(net, n, w.groups[n], p, r);
  }

  lemma AskIsOk(net: Net, w: State, n: string, p: nat)
    requires Enabled(net, w, Ask(n, p))
    ensures AskedOk(net, Apply(net, w, Ask(n, p)), Caller(n, p))
  {
  }

  lemma StepKeepsInv(net: Net, w: State, a: Action)
    requires Inv(net, w) && Enabled(net, w, a)
    ensures Inv(net, Apply(net, w, a)) && Onward(w, Apply(net, w, a))
  {
    var w' := Apply(net, w, a);
    StepMovesOnward(net, w, a);
    StepKeepsGroups(net, w, a);
    forall c | c in w'.asked
      ensures AskedOk(net, w', c)
    {
      if c in w.asked {
        AskedStaysOk(net, w, w', c);
      } else {
        AskIsOk(net, w, a.node, a.p);
      }
    }
  }

  lemma {:induction false} RunKeepsInv(net: Net, w: State, actions: seq<Action>)
    requires Inv(net, w) && Run(net, w, actions).Some?
    ensures Inv(net, Run(net, w, actions).value) && Onward(w, Run(net, w, actions).value)
    decreases actions
  {
    if actions != [] {
      var t := Apply(net, w, actions[0]);
      StepKeepsInv(net, w, actions[0]);
      RunKeepsInv(net, t, actions[1..]);
      OnwardTransitive(w, t, Run(net, w, actions).value);
    }
  }

  lemma ReachableInv(net: Net, w: State)
    requires Reachable(net, w)
    ensures Inv(net, w)
  {
    var actions :| Run(net, Initial(net), actions) == Some(w);
    RunKeepsInv(net, Initial(net), actions);
  }

  // ---- a Do on a chain that ends can return ----

  lemma OwnStep(g: F.Group, a: F.Action)
    requires F.Enabled(g, a) && !a.Do?
    ensures a.p < |g.procs| && |F.Apply(g, a).procs| == |g.procs|
    ensures Phase(F.Apply(g, a).procs[a.p].pc) < Phase(g.procs[a.p].pc)
    ensures forall q :: 0 <= q < |g.procs| && q != a.p ==> F.Apply(g, a).procs[q] == g.procs[q]
  {
  }

  lemma HolderCanStep(g: F.Group)
    requires F.Inv(g) && g.mu.Some?
    ensures F.Enabled(g, F.Step(g.mu.value)) && F.Apply(g, F.Step(g.mu.value)).mu.None?
    ensures g.mu.value < |g.procs| && g.procs[g.mu.value].pc.HoldsMu()
  {
    var q := g.mu.value;
    assert g.procs[q].pc.HoldsMu() && F.ProcOk(g, q);
    F.AttachedOk(g, q);
  }

  lemma Stays(net: Net, w: State)
    ensures Leads(net, w, w) && Onward(w, w)
  {
    assert Run(net, w, []) == Some(w);
  }

  lemma Goes(net: Net, w: State, a: Action)
    requires Inv(net, w) && Enabled(net, w, a)
    ensures Leads(net, w, Apply(net, w, a)) && Inv(net, Apply(net, w, a)) && Onward(w, Apply(net, w, a))
  {
    StepKeepsInv(net, w, a);
    LeadsOne(net, w, a);
  }

  ghost predicate Reaches(net: Net, w: State, w': State) {
    Leads(net, w, w') && Inv(net, w') && Onward(w, w')
  }

  // Whoever holds a lock can let go of it.
  lemma Unlocks(net: Net, w: State, n: string) returns (w': State)
    requires Inv(net, w) && n in w.groups
    ensures Reaches(net, w, w') && w'.groups[n].mu.None? && |w'.groups[n].procs| == |w.groups[n].procs|
    ensures forall p :: 0 <= p < |w.groups[n].procs| && !w.groups[n].procs[p].pc.HoldsMu() ==>
      w'.groups[n].procs[p] == w.groups[n].procs[p]
  {
    var g := w.groups[n];
    if g.mu.Some? {
      assert GroupOk(net, n, g);
      HolderCanStep(g);
      OwnStep(g, F.Step(g.mu.value));
      Goes(net, w, Step(n, g.mu.value));
      w' := Apply(net, w, Step(n, g.mu.value));
    } else {
      Stays(net, w);
      w' := w;
    }
  }

  lemma ReachesOn(net: Net, w: State, u: State, v: State)
    requires Reaches(net, w, u) && Reaches(net, u, v)
    ensures Reaches(net, w, v)
  {
    LeadsOn(net, w, u, v);
    OnwardTransitive(w, u, v);
  }

  lemma ProcMovesOnward(w: State, w': State, n: string, p: nat)
    requires Onward(w, w') && Has(w, n, p)
    ensures Has(w', n, p) && ProcOnward(w.groups[n].procs[p], w'.groups[n].procs[p])
  {
    assert GroupOnward(w.groups[n], w'.groups[n]);
  }

  // The caller is closer to its return.
  ghost predicate Nearer(net: Net, w: State, w': State, n: string, p: nat)
    requires Has(w, n, p)
  {
    Reaches(net, w, w') && Has(w', n, p) && Phase(w'.groups[n].procs[p].pc) < Phase(w.groups[n].procs[p].pc)
  }

  lemma Steps(net: Net, w: State, n: string, p: nat) returns (w': State)
    requires Inv(net, w) && Has(w, n, p) && Enabled(net, w, Step(n, p))
    ensures Nearer(net, w, w', n, p)
  {
    OwnStep(w.groups[n], F.Step(p));
    Goes(net, w, Step(n, p));
    w' := Apply(net, w, Step(n, p));
  }

  lemma Answers(net: Net, w: State, n: string, p: nat) returns (w': State)
    requires Inv(net, w) && Has(w, n, p) && Enabled(net, w, Answer(n, p, ""))
    ensures Nearer(net, w, w', n, p)
  {
    OwnStep(w.groups[n], F.FnReturns(p, ""));
    Goes(net, w, Answer(n, p, ""));
    w' := Apply(net, w, Answer(n, p, ""));
  }

  lemma NearerOn(net: Net, w: State, u: State, v: State, n: string, p: nat)
    requires Has(w, n, p) && Reaches(net, w, u) && Has(u, n, p) && Nearer(net, u, v, n, p)
    ensures Nearer(net, w, v, n, p)
  {
    ReachesOn(net, w, u, v);
    ProcMovesOnward(w, u, n, p);
  }

  lemma TakesLock(net: Net, w: State, n: string, p: nat) returns (w': State)
    requires Inv(net, w) && Has(w, n, p)
    requires w.groups[n].procs[p].pc.Start? || w.groups[n].procs[p].pc.DeleteWait?
    ensures Nearer(net, w, w', n, p)
  {
    var u := Unlocks(net, w, n);
    assert u.groups[n].procs[p] == w.groups[n].procs[p];
    w' := Steps(net, u, n, p);
    NearerOn(net, w, u, w', n, p);
  }

  lemma CanStep(g: F.Group, p: nat)
    requires F.Inv(g) && p < |g.procs|
    requires g.procs[p].pc.Looking? || g.procs[p].pc.Publishing? || g.procs[p].pc.Deleting?
    ensures F.Enabled(g, F.Step(p))
  {
    assert F.ProcOk(g, p);
    F.AttachedOk(g, p);
  }

  // A waiting caller's leader is at work, or the caller need not wait any more.
  lemma WaitsForLeader(g: F.Group, p: nat)
    requires F.Inv(g) && p < |g.procs| && g.procs[p].pc.Waiting?
    ensures var k := g.procs[p].pc.k;
      && k < |g.calls| && g.calls[k].leader < |g.procs| && g.procs[g.calls[k].leader].key == g.procs[p].key
      && (F.Enabled(g, F.Step(p)) || Phase(g.procs[g.calls[k].leader].pc) < 6)
      && (g.procs[g.calls[k].leader].pc.Returned? ==> F.Enabled(g, F.Step(p)))
  {
    assert F.ProcOk(g, p);
    F.AttachedOk(g, p);
  }

  lemma {:induction false} Advances(net: Net, w: State, n: string, p: nat, d: nat) returns (w': State)
    requires Inv(net, w) && Has(w, n, p) && net.EndsWithin(SlotOf(w, n, p), d)
    requires !w.groups[n].procs[p].pc.Returned?
    ensures Nearer(net, w, w', n, p)
    decreases d, Phase(w.groups[n].procs[p].pc), 0
  {
    var g := w.groups[n];
    var pc := g.procs[p].pc;
    assert GroupOk(net, n, g);
    if pc.Start? || pc.DeleteWait? {
      w' := TakesLock(net, w, n, p);
    } else if pc.Waiting? {
      w' := Waits(net, w, n, p, d);
    } else if pc.Running? {
      w' := Leading(net, w, n, p, d);
    } else {
      CanStep(g, p);
      w' := Steps(net, w, n, p);
    }
  }

  lemma {:induction false} Waits(net: Net, w: State, n: string, p: nat, d: nat) returns (w': State)
    requires Inv(net, w) && Has(w, n, p) && net.EndsWithin(SlotOf(w, n, p), d) && w.groups[n].procs[p].pc.Waiting?
    ensures Nearer(net, w, w', n, p)
    decreases d, 5, 2
  {
    var g := w.groups[n];
    assert GroupOk(net, n, g);
    WaitsForLeader(g, p);
    if F.Enabled(g, F.Step(p)) {
      w' := Steps(net, w, n, p);
    } else {
      var l := g.calls[g.procs[p].pc.k].leader;
      var u := Finishes(net, w, n, l, d);
      ProcMovesOnward(w, u, n, p);
      if u.groups[n].procs[p].pc == g.procs[p].pc {
        assert GroupOk(net, n, u.groups[n]) && GroupOnward(g, u.groups[n]);
        WaitsForLeader(u.groups[n], p);
        w' := Steps(net, u, n, p);
        NearerOn(net, w, u, w', n, p);
      } else {
        w' := u;
      }
    }
  }

  // A leader with nobody to ask loads the key; otherwise it asks, if it has
  // not yet, and the peer's Do is nearer to the end of the chain.
  lemma {:induction false} Leading(net: Net, w: State, n: string, p: nat, d: nat) returns (w': State)
    requires Inv(net, w) && Has(w, n, p) && net.EndsWithin(SlotOf(w, n, p), d) && w.groups[n].procs[p].pc.Running?
    ensures Nearer(net, w, w', n, p)
    decreases d, 4, 2
  {
    var s, c := SlotOf(w, n, p), Caller(n, p);
    assert GroupOk(net, n, w.groups[n]);
    assert F.ProcOk(w.groups[n], p);
    if net.Next(s).None? {
      w' := Answers(net, w, n, p);
    } else {
      var t := net.Next(s).value;
      var u := Asks(net, w, n, p);
      assert AskedOk(net, u, c);
      var v := Finishes(net, u, t.node, u.asked[c], d - 1);
      ReachesOn(net, w, u, v);
      ProcMovesOnward(w, v, n, p);
      if v.groups[n].procs[p].pc == w.groups[n].procs[p].pc {
        assert GroupOk(net, n, v.groups[n]);
        assert F.ProcOk(v.groups[n], p);
        w' := Answers(net, v, n, p);
        NearerOn(net, w, v, w', n, p);
      } else {
        w' := v;
      }
    }
  }

  lemma Asks(net: Net, w: State, n: string, p: nat) returns (w': State)
    requires Inv(net, w) && Running(w, n, p) && net.Next(SlotOf(w, n, p)).Some?
    ensures Reaches(net, w, w') && Has(w', n, p) && SlotOf(w', n, p) == SlotOf(w, n, p) && Caller(n, p) in w'.asked
  {
    if Caller(n, p) in w.asked {
      Stays(net, w);
      w' := w;
    } else {
      Goes(net, w, Ask(n, p));
      w' := Apply(net, w, Ask(n, p));
      ProcMovesOnward(w, w', n, p);
    }
  }

  lemma {:induction false} Finishes(net: Net, w: State, n: string, p: nat, d: nat) returns (w': State)
    requires Inv(net, w) && Has(w, n, p) && net.EndsWithin(SlotOf(w, n, p), d)
    ensures Reaches(net, w, w') && Has(w', n, p) && w'.groups[n].procs[p].pc.Returned?
    decreases d, Phase(w.groups[n].procs[p].pc), 1
  {
    if w.groups[n].procs[p].pc.Returned? {
      Stays(net, w);
      w' := w;
    } else {
      var u := Advances(net, w, n, p, d);
      ProcMovesOnward(w, u, n, p);
      w' := Finishes(net, u, n, p, d);
      ReachesOn(net, w, u, w');
    }
  }

  // ---- main results ----

  ghost predicate CanReturn(net: Net, w: State, n: string, p: nat) {
    exists w' :: Leads(net, w, w') && Has(w', n, p) && w'.groups[n].procs[p].pc.Returned?
  }

  // Whatever else is going on, a Do can return if and only if the chain of
  // picks from its node reaches a node that keeps the key.
  lemma CanReturnIffChainEnds(net: Net, w: State, n: string, p: nat)
    requires Reachable(net, w) && Has(w, n, p)
    ensures CanReturn(net, w, n, p) <==> net.Ends(SlotOf(w, n, p))
  {
    ReachableInv(net, w);
    if d: nat :| net.EndsWithin(SlotOf(w, n, p), d) {
      var w' := Finishes(net, w, n, p, d);
    }
    if w' :| Leads(net, w, w') && Has(w', n, p) && w'.groups[n].procs[p].pc.Returned? {
      var actions :| Run(net, w, actions) == Some(w');
      RunKeepsInv(net, w, actions);
      ProcMovesOnward(w, w', n, p);
      ReturnedEnds(net, w', n, p);
    }
  }
}
