// Group.Do as a step protocol. Any number of goroutines call Do; the first to
// ask for a key leads, runs fn and publishes its result, the others wait for it.
module Singleflight {
  import opened Options

  // What fn returned, value or error.
  type Result = string

  // One in-flight or completed execution of fn.
  datatype Call = Call(
    key: string, leader: nat,
    result: Option<Result>,
    done: bool,            // wg.Done has happened
    began: nat,            // history: when the leader entered it in m,
    finished: Option<nat>, // when fn returned,
    freed: Option<nat>)    // and when the leader deleted it from m

  datatype Pc =
    | Start                // before mu.Lock
    | Looking              // holds mu; about to look the key up
    | Waiting(k: nat)      // follower, in wg.Wait of call k
    | Running(k: nat)      // leader of call k, in fn
    | Publishing(k: nat)   // fn has returned; before wg.Done
    | DeleteWait(k: nat)   // before the second mu.Lock
    | Deleting(k: nat)     // holds mu
    | Returned(k: nat, r: Result)
  {
    predicate HoldsMu() { Looking? || Deleting? }

    predicate Leads() { Running? || Publishing? || DeleteWait? || Deleting? }

    // Leads call k, waits for it, or has returned its result.
    predicate On(k: nat) { !Start? && !Looking? && this.k == k }
  }

  // One invocation of Do.
  datatype Proc = Proc(
    key: string, pc: Pc,
    started: nat,          // history: when Do was called,
    looked: Option<nat>,   // when it looked its key up in m,
    ended: Option<nat>)    // and when it returned

  datatype Group = Group(procs: seq<Proc>, calls: seq<Call>, mu: Option<nat>, m: map<string, nat>, clock: nat)

  const INIT := Group([], [], None, map[], 0)

  datatype Action =
    | Do(key: string)
    | Step(p: nat)                    // the goroutine's next step, where there is only one
    | FnReturns(p: nat, r: Result)

  predicate Enabled(g: Group, a: Action) {
    match a
    case Do(_) => true
    case FnReturns(p, _) => p < |g.procs| && g.procs[p].pc.Running? && g.procs[p].pc.k < |g.calls|
    case Step(p) =>
      p < |g.procs| &&
      match g.procs[p].pc
      case Start | DeleteWait(_) => g.mu.None?
      case Looking => true
      case Waiting(k) => k < |g.calls| && g.calls[k].done && g.calls[k].result.Some?
      case Publishing(k) => k < |g.calls|
      case Deleting(k) => k < |g.calls| && g.calls[k].result.Some?
      case Running(_) | Returned(_, _) => false
  }

  function Goto(g: Group, p: nat, pc: Pc): Group
    requires p < |g.procs|
  {
    g.(procs := g.procs[p := g.procs[p].(pc := pc)])
  }

  function Return(g: Group, p: nat, k: nat): Group
    requires p < |g.procs| && k < |g.calls| && g.calls[k].result.Some?
  {
    g.(procs := g.procs[p := g.procs[p].(pc := Returned(k, g.calls[k].result.value), ended := Some(g.clock))])
  }

  function Look(g: Group, p: nat): Group
    requires p < |g.procs|
  {
    var key, proc := g.procs[p].key, g.procs[p].(looked := Some(g.clock));
    if key in g.m then g.(procs := g.procs[p := proc.(pc := Waiting(g.m[key]))], mu := None)
    else
      var k := |g.calls|;
      g.(procs := g.procs[p := proc.(pc := Running(k))],
         mu := None, calls := g.calls + [Call(key, p, None, false, g.clock, None, None)], m := g.m[key := k])
  }

  function Effect(g: Group, a: Action): Group
    requires Enabled(g, a)
  {
    match a
    case Do(key) => g.(procs := g.procs + [Proc(key, Start, g.clock, None, None)])
    case FnReturns(p, r) =>
      var k := g.procs[p].pc.k;
      Goto(g, p, Publishing(k)).(calls := g.calls[k := g.calls[k].(result := Some(r), finished := Some(g.clock))])
    case Step(p) =>
      match g.procs[p].pc
      case Start => Goto(g, p, Looking).(mu := Some(p))
      case Looking => Look(g, p)
      case Waiting(k) => Return(g, p, k)
      case Publishing(k) => Goto(g, p, DeleteWait(k)).(calls := g.calls[k := g.calls[k].(done := true)])
      case DeleteWait(k) => Goto(g, p, Deleting(k)).(mu := Some(p))
      case Deleting(k) =>
        Return(g, p, k).(
          mu := None, m := g.m - {g.procs[p].key},
          calls := g.calls[k := g.calls[k].(freed := Some(g.clock))])
  }

  function Apply(g: Group, a: Action): Group
    requires Enabled(g, a)
  {
    Effect(g, a).(clock := g.clock + 1)
  }

  function Run(g: Group, actions: seq<Action>): Option<Group>
    decreases actions
  {
    if actions == [] then Some(g)
    else if !Enabled(g, actions[0]) then None
    else Run(Apply(g, actions[0]), actions[1..])
  }

  ghost predicate Reachable(g: Group) {
    exists actions :: Run(INIT, actions) == Some(g)
  }

  // ---- invariants ----

  ghost predicate LockOk(g: Group) {
    && (g.mu.Some? ==> g.mu.value < |g.procs|)
    && (forall p :: 0 <= p < |g.procs| ==> (g.procs[p].pc.HoldsMu() <==> g.mu == Some(p)))
  }

  // m files exactly the calls that have a leader at work, under their keys.
  ghost predicate MapOk(g: Group) {
    && (forall key :: key in g.m ==>
          g.m[key] < |g.calls| && g.calls[g.m[key]].key == key && g.calls[g.m[key]].freed.None?)
    && (forall k :: 0 <= k < |g.calls| && g.calls[k].freed.None? ==> g.calls[k].key in g.m && g.m[g.calls[k].key] == k)
  }

  ghost predicate CallOk(g: Group, k: nat)
    requires k < |g.calls|
  {
    var call := g.calls[k];
    && call.leader < |g.procs|
    && var leader := g.procs[call.leader];
    && leader.key == call.key && leader.started <= call.began < g.clock
    && (call.finished.Some? <==> call.result.Some?)
    && (call.finished.Some? ==> call.began < call.finished.value < g.clock)
    && (call.freed.Some? ==> call.finished.Some? && call.finished.value < call.freed.value < g.clock)
    && match leader.pc
       case Running(j) => j == k && call.result.None? && !call.done && call.freed.None?
       case Publishing(j) => j == k && call.result.Some? && !call.done && call.freed.None?
       case DeleteWait(j) => j == k && call.result.Some? && call.done && call.freed.None?
       case Deleting(j) => j == k && call.result.Some? && call.done && call.freed.None?
       case Returned(j, _) => j == k && call.result.Some? && call.done && call.freed.Some? && leader.ended == call.freed
       case _ => false
  }

  ghost predicate ProcOk(g: Group, p: nat)
    requires p < |g.procs|
  {
    var proc := g.procs[p];
    && proc.started < g.clock
    && (proc.ended.Some? <==> proc.pc.Returned?)
    && (proc.ended.Some? ==> proc.started < proc.ended.value < g.clock)
    && (proc.looked.Some? <==> !proc.pc.Start? && !proc.pc.Looking?)
    && (proc.looked.Some? ==> proc.looked.value < g.clock)
    && (proc.pc.Leads() ==>
          proc.pc.k < |g.calls| && g.calls[proc.pc.k].leader == p && Within(g, p, proc.pc.k))
    && (proc.pc.Waiting? ==> Joined(g, p, proc.pc.k))
    && (proc.pc.Returned? ==>
          Joined(g, p, proc.pc.k) && g.calls[proc.pc.k].done && g.calls[proc.pc.k].result == Some(proc.pc.r))
  }

  // p looked its key up while call k was filed in m.
  ghost predicate Within(g: Group, p: nat, k: nat)
    requires p < |g.procs| && k < |g.calls|
  {
    && g.procs[p].looked.Some? && g.calls[k].began <= g.procs[p].looked.value
    && (g.calls[k].freed.Some? ==> g.procs[p].looked.value < g.calls[k].freed.value)
  }

  // p is attached to call k for its own key, and p's Do and the leader's overlap.
  ghost predicate Joined(g: Group, p: nat, k: nat)
    requires p < |g.procs|
  {
    && k < |g.calls| && g.calls[k].key == g.procs[p].key && g.calls[k].leader < |g.procs| && Within(g, p, k)
    && (g.calls[k].freed.Some? ==> g.procs[p].started < g.calls[k].freed.value)
    && (g.procs[p].ended.Some? ==> g.calls[k].began < g.procs[p].ended.value)
  }

  // A later call for the same key begins after the earlier one has left m.
  ghost predicate Sequential(g: Group) {
    forall j, k :: 0 <= j < k < |g.calls| && g.calls[j].key == g.calls[k].key ==>
      g.calls[j].freed.Some? && g.calls[j].freed.value < g.calls[k].began
  }

  ghost predicate Inv(g: Group) {
    && LockOk(g) && MapOk(g) && Sequential(g)
    && (forall k :: 0 <= k < |g.calls| ==> CallOk(g, k))
    && (forall p :: 0 <= p < |g.procs| ==> ProcOk(g, p))
  }

  lemma DoKeepsInv(g: Group, key: string)
    requires Inv(g)
    ensures Inv(Apply(g, Do(key)))
  {
    var t := Apply(g, Do(key));
    forall k | 0 <= k < |t.calls| ensures CallOk(t, k) { assert CallOk(g, k); }
    forall p | 0 <= p < |t.procs| ensures ProcOk(t, p) { assert p < |g.procs| ==> ProcOk(g, p); }
  }

  // A step of a goroutine other than the leader leaves the call alone.
  lemma BystanderKeepsCall(g: Group, a: Action, k: nat)
    requires Inv(g) && Enabled(g, a) && !a.Do? && k < |g.calls| && g.calls[k].leader != a.p
    ensures CallOk(Apply(g, a), k)
  {
    assert ProcOk(g, a.p) && CallOk(g, k);
    var t := Apply(g, a);
    assert t.calls[k] == g.calls[k] by {
      assert g.procs[a.p].pc.Leads() ==> g.procs[a.p].pc.k != k;
    }
    assert t.procs[g.calls[k].leader] == g.procs[g.calls[k].leader];
    CallFrame(g, t, k);
  }

  lemma CallFrame(g: Group, t: Group, k: nat)
    requires k < |g.calls| <= |t.calls| && CallOk(g, k) && t.calls[k] == g.calls[k] && t.clock == g.clock + 1
    requires |t.procs| == |g.procs| && t.procs[g.calls[k].leader] == g.procs[g.calls[k].leader]
    ensures CallOk(t, k)
  {
  }

  lemma LeaderKeepsCall(g: Group, a: Action, k: nat)
    requires Inv(g) && Enabled(g, a) && !a.Do? && k < |g.calls| && g.calls[k].leader == a.p
    ensures CallOk(Apply(g, a), k)
  {
    assert CallOk(g, k);
  }

  lemma StepKeepsCall(g: Group, a: Action, k: nat)
    requires Inv(g) && Enabled(g, a) && !a.Do? && k < |Apply(g, a).calls|
    ensures CallOk(Apply(g, a), k)
  {
    if k == |g.calls| {
      assert ProcOk(g, a.p);
    } else if g.calls[k].leader == a.p {
      LeaderKeepsCall(g, a, k);
    } else {
      BystanderKeepsCall(g, a, k);
    }
  }

  // The call that p is attached to, or would attach to.
  lemma AttachedOk(g: Group, p: nat)
    requires Inv(g) && p < |g.procs|
    ensures var pc := g.procs[p].pc;
      && (pc.Leads() || pc.Waiting? || pc.Returned? ==> pc.k < |g.calls| && CallOk(g, pc.k))
      && (pc.Looking? && g.procs[p].key in g.m ==> CallOk(g, g.m[g.procs[p].key]))
  {
    assert ProcOk(g, p);
  }

  lemma ActorKeepsProc(g: Group, a: Action)
    requires Inv(g) && Enabled(g, a) && !a.Do?
    ensures ProcOk(Apply(g, a), a.p)
  {
    assert ProcOk(g, a.p);
    AttachedOk(g, a.p);
    if a.Step? && (g.procs[a.p].pc.Waiting? || g.procs[a.p].pc.Deleting?) {
      ReturningProc(g, a.p);
    } else if a.Step? && g.procs[a.p].pc.Looking? {
      LookingProc(g, a.p);
    }
  }

  lemma ReturningProc(g: Group, p: nat)
    requires Enabled(g, Step(p)) && (g.procs[p].pc.Waiting? || g.procs[p].pc.Deleting?)
    requires ProcOk(g, p) && CallOk(g, g.procs[p].pc.k)
    ensures ProcOk(Apply(g, Step(p)), p)
  {
  }

  lemma LookingProc(g: Group, p: nat)
    requires Enabled(g, Step(p)) && g.procs[p].pc.Looking? && ProcOk(g, p) && MapOk(g)
    requires g.procs[p].key in g.m ==> CallOk(g, g.m[g.procs[p].key])
    ensures ProcOk(Apply(g, Step(p)), p)
  {
  }

  // How a step may change a call.
  ghost predicate Evolves(g: Group, t: Group, k: nat) {
    && k < |g.calls| <= |t.calls|
    && t.calls[k].key == g.calls[k].key && t.calls[k].leader == g.calls[k].leader
    && t.calls[k].began == g.calls[k].began
    && (g.calls[k].done ==> t.calls[k].done && t.calls[k].result == g.calls[k].result)
    && (t.calls[k].freed == g.calls[k].freed || (g.calls[k].freed.None? && t.calls[k].freed == Some(g.clock)))
  }

  lemma CallEvolves(g: Group, a: Action, k: nat)
    requires Enabled(g, a) && !a.Do? && k < |g.calls|
    requires ProcOk(g, a.p) && CallOk(g, k)
    ensures Evolves(g, Apply(g, a), k)
  {
  }

  lemma ProcFrame(g: Group, t: Group, p: nat)
    requires p < |g.procs| && |t.procs| == |g.procs| && t.procs[p] == g.procs[p] && ProcOk(g, p)
    requires t.clock == g.clock + 1
    requires g.procs[p].pc.Leads() || g.procs[p].pc.Waiting? || g.procs[p].pc.Returned? ==>
      Evolves(g, t, g.procs[p].pc.k)
    ensures ProcOk(t, p)
  {
  }

  lemma StepKeepsOtherProc(g: Group, a: Action, p: nat)
    requires Inv(g) && Enabled(g, a) && !a.Do? && p < |g.procs| && p != a.p
    ensures ProcOk(Apply(g, a), p)
  {
    assert ProcOk(g, a.p) && ProcOk(g, p);
    var pc := g.procs[p].pc;
    if pc.Leads() || pc.Waiting? || pc.Returned? {
      AttachedOk(g, p);
      CallEvolves(g, a, pc.k);
    }
    ProcFrame(g, Apply(g, a), p);
  }

  lemma StepKeepsLock(g: Group, a: Action)
    requires LockOk(g) && Enabled(g, a)
    ensures LockOk(Apply(g, a))
  {
  }

  lemma StepKeepsMap(g: Group, a: Action)
    requires Inv(g) && Enabled(g, a) && !a.Do?
    ensures MapOk(Apply(g, a))
  {
    assert ProcOk(g, a.p);
    AttachedOk(g, a.p);
    if a.Step? && g.procs[a.p].pc.Looking? {
      LookKeepsMap(g, a.p);
    } else if a.Step? && g.procs[a.p].pc.Deleting? {
      DeleteKeepsMap(g, a.p, g.procs[a.p].pc.k);
    } else {
      var t := Apply(g, a);
      assert t.m == g.m && |t.calls| == |g.calls|;
      assert forall k :: 0 <= k < |g.calls| ==>
        t.calls[k].key == g.calls[k].key && t.calls[k].freed == g.calls[k].freed;
    }
  }

  lemma LookKeepsMap(g: Group, p: nat)
    requires MapOk(g) && Enabled(g, Step(p)) && g.procs[p].pc.Looking?
    ensures MapOk(Apply(g, Step(p)))
  {
  }

  lemma DeleteKeepsMap(g: Group, p: nat, k: nat)
    requires MapOk(g) && Enabled(g, Step(p)) && g.procs[p].pc == Deleting(k)
    requires g.calls[k].freed.None? && g.calls[k].key == g.procs[p].key
    ensures MapOk(Apply(g, Step(p)))
  {
  }

  lemma StepKeepsSequential(g: Group, a: Action)
    requires Inv(g) && Enabled(g, a) && !a.Do?
    ensures Sequential(Apply(g, a))
  {
    assert ProcOk(g, a.p);
    AttachedOk(g, a.p);
    forall j | 0 <= j < |g.calls|
      ensures g.calls[j].freed.Some? ==> g.calls[j].freed.value < g.clock
    {
      assert CallOk(g, j);
    }
  }

  lemma StepKeepsInv(g: Group, a: Action)
    requires Inv(g) && Enabled(g, a)
    ensures Inv(Apply(g, a))
  {
    if a.Do? {
      DoKeepsInv(g, a.key);
    } else {
      var t := Apply(g, a);
      StepKeepsLock(g, a);
      StepKeepsMap(g, a);
      StepKeepsSequential(g, a);
      forall k | 0 <= k < |t.calls| ensures CallOk(t, k) { StepKeepsCall(g, a, k); }
      forall p | 0 <= p < |t.procs| ensures ProcOk(t, p) {
        if p == a.p { ActorKeepsProc(g, a); } else { StepKeepsOtherProc(g, a, p); }
      }
    }
  }

  lemma {:induction false} RunKeepsInv(g: Group, actions: seq<Action>)
    requires Inv(g) && Run(g, actions).Some?
    ensures Inv(Run(g, actions).value)
    decreases actions
  {
    if actions != [] {
      StepKeepsInv(g, actions[0]);
      RunKeepsInv(Apply(g, actions[0]), actions[1..]);
    }
  }

  lemma ReachableInv(g: Group)
    requires Reachable(g)
    ensures Inv(g)
  {
    var actions :| Run(INIT, actions) == Some(g);
    RunKeepsInv(INIT, actions);
  }

  // ---- main results ----

  // At most one goroutine is between entering a key in m and deleting it.
  lemma OneLeaderPerKey(g: Group, p: nat, q: nat)
    requires Reachable(g) && p < |g.procs| && q < |g.procs| && p != q && g.procs[p].key == g.procs[q].key
    ensures !(g.procs[p].pc.Leads() && g.procs[q].pc.Leads())
  {
    ReachableInv(g);
    AttachedOk(g, p);
    AttachedOk(g, q);
    assert ProcOk(g, p) && ProcOk(g, q);
  }

  // m[key] is the call whose leader has not yet deleted it, so that a delete
  // never drops another leader's call.
  lemma EntryIsOwnedByItsLeader(g: Group, key: string)
    requires Reachable(g)
    ensures key in g.m ==>
      && g.m[key] < |g.calls| && g.calls[g.m[key]].key == key && g.calls[g.m[key]].leader < |g.procs|
      && g.procs[g.calls[g.m[key]].leader].pc.Leads() && g.procs[g.calls[g.m[key]].leader].pc.k == g.m[key]
    ensures forall p :: 0 <= p < |g.procs| && g.procs[p].pc.Leads() ==>
      g.procs[p].key in g.m && g.m[g.procs[p].key] == g.procs[p].pc.k
  {
    ReachableInv(g);
    if key in g.m {
      assert CallOk(g, g.m[key]);
    }
    forall p | 0 <= p < |g.procs| && g.procs[p].pc.Leads()
      ensures g.procs[p].key in g.m && g.m[g.procs[p].key] == g.procs[p].pc.k
    {
      assert ProcOk(g, p);
      AttachedOk(g, p);
    }
  }

  // What a Do returns is what one execution of fn for its key returned, and the
  // Do that led this execution overlaps it in time.
  lemma ResultOfOverlappingLeader(g: Group, p: nat)
    requires Reachable(g) && p < |g.procs| && g.procs[p].pc.Returned?
    ensures var proc := g.procs[p]; var k := proc.pc.k;
      && k < |g.calls| && g.calls[k].key == proc.key && g.calls[k].result == Some(proc.pc.r)
      && g.calls[k].leader < |g.procs|
      && var leader := g.procs[g.calls[k].leader];
        && leader.key == proc.key && proc.ended.Some?
        && leader.started < proc.ended.value
        && (leader.ended.Some? ==> proc.started < leader.ended.value)
  {
    ReachableInv(g);
    assert ProcOk(g, p);
    assert CallOk(g, g.procs[p].pc.k);
    assert ProcOk(g, g.calls[g.procs[p].pc.k].leader);
  }

  // Executions for one key never overlap: the earlier has left m before the later begins.
  lemma ExecutionsForOneKeyAreSequential(g: Group, j: nat, k: nat)
    requires Reachable(g) && j < k < |g.calls| && g.calls[j].key == g.calls[k].key
    ensures g.calls[j].finished.Some? && g.calls[j].finished.value < g.calls[k].began
  {
    ReachableInv(g);
    assert CallOk(g, j) && CallOk(g, k);
    assert g.calls[j].freed.value < g.calls[k].began;
  }

  // ---- how often a key is fetched ----

  // A Do that has looked its key up is attached to an execution for that key if
  // and only if it looked while this was filed, between its leader's look and delete.
  lemma AttachedIffWithin(g: Group, p: nat, k: nat)
    requires Reachable(g) && p < |g.procs| && g.procs[p].looked.Some?
    requires k < |g.calls| && g.calls[k].key == g.procs[p].key
    ensures g.procs[p].pc.On(k) <==> Within(g, p, k)
  {
    ReachableInv(g);
    assert ProcOk(g, p);
    AttachedOk(g, p);
  }

  ghost predicate OneFetch(g: Group, p: nat, q: nat)
    requires p < |g.procs| && q < |g.procs|
  {
    exists k: nat :: g.procs[p].pc.On(k) && g.procs[q].pc.On(k)
  }

  // So two Dos for one key share one execution, and one fetch, if and only if
  // one execution was filed when each of them looked.
  lemma OneFetchIffFiledForBoth(g: Group, p: nat, q: nat)
    requires Reachable(g) && p < |g.procs| && q < |g.procs| && g.procs[p].key == g.procs[q].key
    requires g.procs[p].looked.Some? && g.procs[q].looked.Some?
    ensures OneFetch(g, p, q) <==>
      exists k :: 0 <= k < |g.calls| && g.calls[k].key == g.procs[p].key && Within(g, p, k) && Within(g, q, k)
  {
    if k: nat :| g.procs[p].pc.On(k) && g.procs[q].pc.On(k) {
      ReachableInv(g);
      assert ProcOk(g, p);
      AttachedOk(g, p);
      AttachedIffWithin(g, p, k);
      AttachedIffWithin(g, q, k);
    }
    if k :| 0 <= k < |g.calls| && g.calls[k].key == g.procs[p].key && Within(g, p, k) && Within(g, q, k) {
      AttachedIffWithin(g, p, k);
      AttachedIffWithin(g, q, k);
      assert g.procs[p].pc.On(k) && g.procs[q].pc.On(k);
    }
  }

  // ---- progress ----

  function NextAction(g: Group, p: nat): Action
    requires p < |g.procs|
  {
    if g.procs[p].pc.Running? then FnReturns(p, "") else Step(p)
  }

  // If fn returns, some goroutine can go on as long as some Do has not returned.
  lemma NoDeadlock(g: Group, p: nat)
    requires Reachable(g) && p < |g.procs| && !g.procs[p].pc.Returned?
    ensures exists q :: 0 <= q < |g.procs| && Enabled(g, NextAction(g, q))
  {
    ReachableInv(g);
    var q := if g.mu.Some? then g.mu.value else p;
    AttachedOk(g, q);
    if g.procs[q].pc.Waiting? && !g.calls[g.procs[q].pc.k].done {
      q := g.calls[g.procs[q].pc.k].leader;
      AttachedOk(g, q);
    }
    assert ProcOk(g, q);
    assert Enabled(g, NextAction(g, q));
  }

  function Rank(pc: Pc): nat {
    match pc
    case Start => 7 case Looking => 6
    case Running(_) => 5 case Publishing(_) => 4 case DeleteWait(_) => 3 case Deleting(_) => 2
    case Waiting(_) => 1 case Returned(_, _) => 0
  }

  function Work(procs: seq<Proc>): nat {
    if procs == [] then 0 else Work(procs[..|procs| - 1]) + Rank(procs[|procs| - 1].pc)
  }

  lemma {:induction false} WorkUpdate(procs: seq<Proc>, p: nat, proc: Proc)
    requires p < |procs|
    ensures Work(procs[p := proc]) == Work(procs) - Rank(procs[p].pc) + Rank(proc.pc)
    decreases |procs|
  {
    var last := |procs| - 1;
    if p == last {
      assert procs[p := proc][..last] == procs[..last];
    } else {
      WorkUpdate(procs[..last], p, proc);
      assert procs[p := proc][..last] == procs[..last][p := proc];
    }
  }

  lemma StepsRunOut(g: Group, a: Action)
    requires Enabled(g, a) && !a.Do?
    ensures Work(Apply(g, a).procs) < Work(g.procs)
  {
    WorkUpdate(g.procs, a.p, Apply(g, a).procs[a.p]);
  }

  lemma {:induction false} RunAppend(g: Group, first: seq<Action>, second: seq<Action>)
    requires Run(g, first).Some?
    ensures Run(g, first + second) == Run(Run(g, first).value, second)
    decreases first
  {
    if first == [] {
      assert first + second == second;
    } else {
      assert (first + second)[1..] == first[1..] + second;
      RunAppend(Apply(g, first[0]), first[1..], second);
    }
  }

  lemma StepReached(g: Group, a: Action)
    requires Reachable(g) && Enabled(g, a)
    ensures Reachable(Apply(g, a))
  {
    var actions :| Run(INIT, actions) == Some(g);
    RunAppend(INIT, actions, [a]);
    assert [a][1..] == [];
    assert Run(INIT, actions + [a]) == Some(Apply(g, a));
  }

  // Without new calls of Do the steps run out, and when they have, every Do has returned.
  lemma {:induction false} EveryDoReturns(g: Group, actions: seq<Action>)
    requires Reachable(g) && Run(g, actions).Some? && forall a :: a in actions ==> !a.Do?
    ensures var t := Run(g, actions).value;
      && |actions| <= Work(g.procs) - Work(t.procs)
      && ((forall a :: Enabled(t, a) ==> a.Do?) ==> forall p :: 0 <= p < |t.procs| ==> t.procs[p].pc.Returned?)
    decreases actions
  {
    if actions == [] {
      if p :| 0 <= p < |g.procs| && !g.procs[p].pc.Returned? {
        NoDeadlock(g, p);
        var q :| 0 <= q < |g.procs| && Enabled(g, NextAction(g, q));
        assert !NextAction(g, q).Do?;
      }
    } else {
      StepsRunOut(g, actions[0]);
      StepReached(g, actions[0]);
      EveryDoReturns(Apply(g, actions[0]), actions[1..]);
    }
  }

  // ---- overlapping is not enough ----

  // Two Dos for one key, each called before the other returned.
  ghost predicate Overlap(g: Group, p: nat, q: nat)
    requires p < |g.procs| && q < |g.procs|
  {
    && g.procs[p].key == g.procs[q].key
    && (g.procs[p].ended.Some? ==> g.procs[q].started < g.procs[p].ended.value)
    && (g.procs[q].ended.Some? ==> g.procs[p].started < g.procs[q].ended.value)
  }

  // The leader returns, while a later Do has been called and has not yet the lock.
  lemma LeaderLeavesFirst() returns (g: Group)
    ensures Reachable(g) && g.mu.None? && g.m == map[] && |g.calls| == 1 && |g.procs| == 2 && g.clock == 8
    ensures g.procs[0].key == "a" && g.procs[0].pc == Returned(0, "v") && g.procs[0].ended == Some(7)
    ensures g.procs[1] == Proc("a", Start, 3, None, None) && g.procs[0].started == 0
  {
    g := FnReturnsFirst();
    StepReached(g, Step(0));
    g := Apply(g, Step(0));
    StepReached(g, Step(0));
    g := Apply(g, Step(0));
    assert g.procs[0].pc == Deleting(0) && g.clock == 7 && g.m == map["a" := 0] && g.calls[0].result == Some("v");
    StepReached(g, Step(0));
    g := Apply(g, Step(0));
  }

  lemma FnReturnsFirst() returns (g: Group)
    ensures Reachable(g) && g.mu.None? && g.m == map["a" := 0] && |g.calls| == 1 && g.clock == 5
    ensures g.calls[0].result == Some("v")
    ensures g.procs == [Proc("a", Publishing(0), 0, Some(2), None), Proc("a", Start, 3, None, None)]
  {
    g := LeaderRuns();
    StepReached(g, Do("a"));
    g := Apply(g, Do("a"));
    StepReached(g, FnReturns(0, "v"));
    g := Apply(g, FnReturns(0, "v"));
  }

  lemma LeaderRuns() returns (g: Group)
    ensures Reachable(g) && g.procs == [Proc("a", Running(0), 0, Some(2), None)] && g.mu.None? && g.clock == 3
    ensures g.m == map["a" := 0] && |g.calls| == 1 && g.calls[0].key == "a"
  {
    assert Run(INIT, []) == Some(INIT);
    StepReached(INIT, Do("a"));
    g := Apply(INIT, Do("a"));
    StepReached(g, Step(0));
    g := Apply(g, Step(0));
    assert g.procs == [Proc("a", Looking, 0, None, None)] && g.calls == [] && g.m == map[] && g.clock == 2;
    StepReached(g, Step(0));
    g := Apply(g, Step(0));
  }

  ghost predicate FetchedTwice(g: Group, p: nat, q: nat) {
    && p < |g.procs| && q < |g.procs| && Overlap(g, p, q)
    && g.procs[p].looked.Some? && g.procs[q].looked.Some? && !OneFetch(g, p, q)
  }

  // The second Do was called while the first one's fn ran, and looks after its delete.
  lemma OverlappingDosCanFetchTwice()
    ensures exists g, p, q :: Reachable(g) && FetchedTwice(g, p, q)
  {
    var g := LeaderLeavesFirst();
    StepReached(g, Step(1));
    g := Apply(g, Step(1));
    ReachableInv(g);
    assert ProcOk(g, 0);
    StepReached(g, Step(1));
    g := Apply(g, Step(1));
    assert g.procs[0].pc.On(0) && g.procs[1].pc.On(1);
    assert FetchedTwice(g, 0, 1);
  }
}
