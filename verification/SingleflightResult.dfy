// Every Do returns what fn returned, in the one execution that it is attached to.
module SingleflightResult {
  import opened Options
  import opened Singleflight

  // Action i of the run is the only return of fn for this leader, and it gave r.
  ghost predicate FnReturned(actions: seq<Action>, leader: nat, i: nat, r: Result) {
    && i < |actions| && actions[i] == FnReturns(leader, r)
    && forall j :: 0 <= j < |actions| && actions[j].FnReturns? && actions[j].p == leader ==> j == i
  }

  ghost predicate NotReturned(actions: seq<Action>, leader: nat) {
    forall j :: 0 <= j < |actions| && actions[j].FnReturns? ==> actions[j].p != leader
  }

  // The clock counts the actions, and the result of a call is what fn returned then.
  ghost predicate CallTraced(call: Call, actions: seq<Action>) {
    if call.result.Some? then
      call.finished.Some? && FnReturned(actions, call.leader, call.finished.value, call.result.value)
    else NotReturned(actions, call.leader)
  }

  ghost predicate Traced(g: Group, actions: seq<Action>) {
    && Inv(g) && g.clock == |actions|
    && (forall k :: 0 <= k < |g.calls| ==> CallTraced(g.calls[k], actions))
    && (forall p :: 0 <= p < |g.procs| && (g.procs[p].pc.Start? || g.procs[p].pc.Looking? || g.procs[p].pc.Waiting?) ==>
          NotReturned(actions, p))
    && (forall j :: 0 <= j < |actions| && actions[j].FnReturns? ==> actions[j].p < |g.procs|)
  }

  lemma OtherActionTraces(call: Call, actions: seq<Action>, a: Action)
    requires CallTraced(call, actions) && (a.FnReturns? ==> a.p != call.leader)
    ensures CallTraced(call, actions + [a])
  {
  }

  lemma ReturnTraces(call: Call, actions: seq<Action>, r: Result)
    requires CallTraced(call, actions) && call.result.None?
    ensures CallTraced(call.(result := Some(r), finished := Some(|actions|)), actions + [FnReturns(call.leader, r)])
  {
  }

  lemma StepKeepsCallTraced(g: Group, actions: seq<Action>, a: Action, k: nat)
    requires Traced(g, actions) && Enabled(g, a) && k < |Apply(g, a).calls|
    ensures CallTraced(Apply(g, a).calls[k], actions + [a])
  {
    if k >= |g.calls| {
      assert NotReturned(actions, a.p);
    } else if a.FnReturns? {
      FnReturnTraces(g, actions, a.p, a.r, k);
    } else {
      var t := Apply(g, a);
      assert CallTraced(g.calls[k], actions);
      OtherActionTraces(g.calls[k], actions, a);
      assert t.calls[k].leader == g.calls[k].leader;
      assert t.calls[k].result == g.calls[k].result && t.calls[k].finished == g.calls[k].finished;
    }
  }

  lemma FnReturnTraces(g: Group, actions: seq<Action>, p: nat, r: Result, k: nat)
    requires Traced(g, actions) && Enabled(g, FnReturns(p, r)) && k < |g.calls|
    ensures CallTraced(Apply(g, FnReturns(p, r)).calls[k], actions + [FnReturns(p, r)])
  {
    assert CallOk(g, k) && CallTraced(g.calls[k], actions) && ProcOk(g, p);
    AttachedOk(g, p);
    if g.procs[p].pc.k == k {
      ReturnTraces(g.calls[k], actions, r);
    } else {
      OtherActionTraces(g.calls[k], actions, FnReturns(p, r));
    }
  }

  lemma StepKeepsTraced(g: Group, actions: seq<Action>, a: Action)
    requires Traced(g, actions) && Enabled(g, a)
    ensures Traced(Apply(g, a), actions + [a])
  {
    var t := Apply(g, a);
    StepKeepsInv(g, a);
    forall k | 0 <= k < |t.calls|
      ensures CallTraced(t.calls[k], actions + [a])
    {
      StepKeepsCallTraced(g, actions, a, k);
    }
    forall p | 0 <= p < |t.procs| && (t.procs[p].pc.Start? || t.procs[p].pc.Looking? || t.procs[p].pc.Waiting?)
      ensures NotReturned(actions + [a], p)
    {
      assert p < |g.procs| ==> NotReturned(actions, p);
    }
  }

  lemma {:induction false} RunIsTraced(g: Group, past: seq<Action>, actions: seq<Action>)
    requires Traced(g, past) && Run(g, actions).Some?
    ensures Traced(Run(g, actions).value, past + actions)
    decreases actions
  {
    if actions == [] {
      assert past + actions == past;
    } else {
      StepKeepsTraced(g, past, actions[0]);
      RunIsTraced(Apply(g, actions[0]), past + [actions[0]], actions[1..]);
      assert past + [actions[0]] + actions[1..] == past + actions;
    }
  }

  // What a Do returns is what fn returned to the leader of its execution, the
  // only time that fn returned to that leader.
  lemma ReturnsWhatFnReturned(actions: seq<Action>, p: nat)
    requires Run(INIT, actions).Some?
    requires var g := Run(INIT, actions).value; p < |g.procs| && g.procs[p].pc.Returned?
    ensures var g := Run(INIT, actions).value; var pc := g.procs[p].pc;
      && pc.k < |g.calls| && g.calls[pc.k].key == g.procs[p].key && g.calls[pc.k].finished.Some?
      && FnReturned(actions, g.calls[pc.k].leader, g.calls[pc.k].finished.value, pc.r)
  {
    var g := Run(INIT, actions).value;
    RunIsTraced(INIT, [], actions);
    assert [] + actions == actions;
    assert ProcOk(g, p);
    assert CallTraced(g.calls[g.procs[p].pc.k], actions);
  }
}
