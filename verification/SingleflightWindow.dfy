// The window in which a Do gets a result from before it was called: after fn has
// returned and before the leader takes the lock to delete its entry.
module SingleflightWindow {
  import opened Options
  import opened Singleflight

  // p has returned the result of an execution that was over before p was called.
  ghost predicate Stale(g: Group, p: nat) {
    && p < |g.procs| && g.procs[p].pc.Returned? && g.procs[p].pc.k < |g.calls|
    && g.calls[g.procs[p].pc.k].finished.Some?
    && g.calls[g.procs[p].pc.k].finished.value < g.procs[p].started
  }

  ghost predicate InWindow(g: Group, key: string) {
    exists p :: 0 <= p < |g.procs| && g.procs[p].key == key && (g.procs[p].pc.Publishing? || g.procs[p].pc.DeleteWait?)
  }

  // A Do for the key, called now, can come to return such a result.
  ghost predicate CanGoStale(g: Group, key: string) {
    exists actions :: StaleAfter(g, [Do(key)] + actions)
  }

  ghost predicate StaleAfter(g: Group, actions: seq<Action>) {
    Run(g, actions).Some? && Stale(Run(g, actions).value, |g.procs|)
  }

  // ---- inside the window it can ----

  ghost predicate Leads(g: Group, t: Group) {
    exists actions :: Run(g, actions) == Some(t)
  }

  lemma LeadsOn(g: Group, t: Group, a: Action)
    requires Leads(g, t) && Enabled(t, a)
    ensures Leads(g, Apply(t, a))
  {
    var actions :| Run(g, actions) == Some(t);
    RunAppend(g, actions, [a]);
    assert [a][1..] == [];
    assert Run(g, actions + [a]) == Some(Apply(t, a));
  }

  // p leads call k, which is over; n was called later and has not looked yet.
  ghost predicate Open(g: Group, p: nat, k: nat, n: nat) {
    && Inv(g) && p < |g.procs| && n < |g.procs| && p != n && g.procs[p].key == g.procs[n].key
    && (g.procs[p].pc == Publishing(k) || g.procs[p].pc == DeleteWait(k))
    && k < |g.calls| && g.calls[k].finished.Some? && g.calls[k].finished.value < g.procs[n].started
  }

  lemma OpenIsFiled(g: Group, p: nat, k: nat, n: nat)
    requires Open(g, p, k, n)
    ensures g.calls[k].key == g.procs[n].key && g.calls[k].leader == p && g.calls[k].result.Some?
    ensures g.procs[n].key in g.m && g.m[g.procs[n].key] == k
    ensures g.calls[k].done <==> g.procs[p].pc.DeleteWait?
  {
    assert ProcOk(g, p) && CallOk(g, k);
  }

  // The leader publishes, and whoever holds the lock lets go of it.
  lemma StaysOpen(g: Group, p: nat, k: nat, n: nat, a: Action)
    requires Open(g, p, k, n) && g.procs[n].pc == Start && Enabled(g, a) && a.Step? && a.p != n
    requires (a.p == p && g.procs[p].pc.Publishing?) || (a.p != p && g.mu == Some(a.p))
    ensures var t := Apply(g, a);
      && Open(t, p, k, n) && t.procs[n] == g.procs[n]
      && if a.p == p then t.procs[p].pc == DeleteWait(k) && t.mu == g.mu
         else t.procs[p] == g.procs[p] && t.mu == None
  {
    OpenIsFiled(g, p, k, n);
    assert ProcOk(g, a.p);
    StepKeepsInv(g, a);
    CallEvolves(g, a, k);
    assert CallOk(g, k);
  }

  lemma Readied(g: Group, t: Group, p: nat, k: nat, n: nat) returns (u: Group)
    requires Leads(g, t) && Open(t, p, k, n) && t.procs[n].pc == Start
    ensures Leads(g, u) && Open(u, p, k, n) && u.procs[n].pc == Start && u.procs[p].pc.DeleteWait? && u.mu.None?
  {
    u := t;
    if u.procs[p].pc.Publishing? {
      StaysOpen(u, p, k, n, Step(p));
      LeadsOn(g, u, Step(p));
      u := Apply(u, Step(p));
    }
    if u.mu.Some? {
      assert u.procs[u.mu.value].pc.HoldsMu() && ProcOk(u, u.mu.value);
      AttachedOk(u, u.mu.value);
      StaysOpen(u, p, k, n, Step(u.mu.value));
      LeadsOn(g, u, Step(u.mu.value));
      u := Apply(u, Step(u.mu.value));
    }
  }

  // The later caller takes the lock, finds the call, and does not have to wait.
  lemma Joins(g: Group, t: Group, p: nat, k: nat, n: nat) returns (u: Group)
    requires Leads(g, t) && Open(t, p, k, n) && t.procs[n].pc == Start && t.procs[p].pc.DeleteWait? && t.mu.None?
    ensures Leads(g, u) && Stale(u, n)
  {
    OpenIsFiled(t, p, k, n);
    LeadsOn(g, t, Step(n));
    var looking := Apply(t, Step(n));
    LeadsOn(g, looking, Step(n));
    var waiting := Apply(looking, Step(n));
    LeadsOn(g, waiting, Step(n));
    u := Apply(waiting, Step(n));
  }

  lemma WindowLetsStale(g: Group, key: string)
    requires Inv(g) && InWindow(g, key)
    ensures CanGoStale(g, key)
  {
    var p :| 0 <= p < |g.procs| && g.procs[p].key == key && (g.procs[p].pc.Publishing? || g.procs[p].pc.DeleteWait?);
    var k, n, t := g.procs[p].pc.k, |g.procs|, Apply(g, Do(key));
    assert ProcOk(g, p) && CallOk(g, k);
    StepKeepsInv(g, Do(key));
    assert Open(t, p, k, n);
    assert Run(t, []) == Some(t);
    var u := Readied(t, t, p, k, n);
    u := Joins(t, u, p, k, n);
    var actions :| Run(t, actions) == Some(u);
    assert ([Do(key)] + actions)[1..] == actions;
    assert StaleAfter(g, [Do(key)] + actions);
  }

  // ---- outside it cannot ----

  // A call of n's key that was over before n was called is about to leave m, and
  // n is attached to none such.
  ghost predicate Shut(g: Group, n: nat) {
    && n < |g.procs| && g.procs[n].started <= g.clock
    && (forall k :: 0 <= k < |g.calls| ==> CallShut(g, n, k))
    && (Attached(g, n) ==> g.procs[n].pc.k < |g.calls| && InTime(g, n, g.procs[n].pc.k))
  }

  ghost predicate Attached(g: Group, n: nat)
    requires n < |g.procs|
  {
    g.procs[n].pc.Waiting? || g.procs[n].pc.Leads() || g.procs[n].pc.Returned?
  }

  ghost predicate InTime(g: Group, n: nat, k: nat)
    requires n < |g.procs| && k < |g.calls|
  {
    g.calls[k].finished.Some? ==> g.procs[n].started <= g.calls[k].finished.value
  }

  ghost predicate CallShut(g: Group, n: nat, k: nat)
    requires n < |g.procs| && k < |g.calls|
  {
    g.calls[k].key == g.procs[n].key && g.calls[k].freed.None? ==>
      InTime(g, n, k) || (g.calls[k].leader < |g.procs| && g.procs[g.calls[k].leader].pc.Deleting?)
  }

  lemma ShutAtDo(g: Group, key: string)
    requires Inv(g) && !InWindow(g, key)
    ensures Shut(Apply(g, Do(key)), |g.procs|)
  {
    var t, n := Apply(g, Do(key)), |g.procs|;
    forall k | 0 <= k < |t.calls|
      ensures CallShut(t, n, k)
    {
      assert CallOk(g, k);
    }
  }

  lemma StepKeepsCallShut(g: Group, a: Action, n: nat, k: nat)
    requires Inv(g) && Shut(g, n) && Enabled(g, a) && !a.Do? && k < |Apply(g, a).calls|
    ensures CallShut(Apply(g, a), n, k)
  {
    assert ProcOk(g, a.p);
    if k < |g.calls| {
      assert CallOk(g, k) && CallShut(g, n, k);
    }
  }

  lemma StepKeepsInTime(g: Group, a: Action, n: nat)
    requires Inv(g) && Shut(g, n) && Enabled(g, a) && !a.Do? && a.p != n && Attached(g, n)
    ensures var t := Apply(g, a); t.procs[n] == g.procs[n] && InTime(t, n, g.procs[n].pc.k)
  {
    AttachedOk(g, n);
    assert ProcOk(g, a.p);
    CallEvolves(g, a, g.procs[n].pc.k);
  }

  // While n looks it holds the lock, so nobody is deleting.
  lemma LookKeepsShut(g: Group, n: nat)
    requires Inv(g) && Shut(g, n) && g.procs[n].pc.Looking?
    ensures var t := Apply(g, Step(n)); Attached(t, n) && t.procs[n].pc.k < |t.calls| && InTime(t, n, t.procs[n].pc.k)
  {
    var key := g.procs[n].key;
    if key in g.m {
      assert CallShut(g, n, g.m[key]);
    }
  }

  lemma OwnStepKeepsShut(g: Group, a: Action, n: nat)
    requires Inv(g) && Shut(g, n) && Enabled(g, a) && !a.Do? && a.p == n && !g.procs[n].pc.Looking?
    ensures var t := Apply(g, a); Attached(t, n) ==> t.procs[n].pc.k < |t.calls| && InTime(t, n, t.procs[n].pc.k)
  {
    AttachedOk(g, n);
  }

  lemma StepKeepsShut(g: Group, a: Action, n: nat)
    requires Inv(g) && Shut(g, n) && Enabled(g, a)
    ensures Shut(Apply(g, a), n)
  {
    var t := Apply(g, a);
    forall k | 0 <= k < |t.calls|
      ensures CallShut(t, n, k)
    {
      if a.Do? {
        assert CallShut(g, n, k);
      } else {
        StepKeepsCallShut(g, a, n, k);
      }
    }
    if !a.Do? {
      if a.p != n {
        if Attached(g, n) {
          StepKeepsInTime(g, a, n);
        }
      } else if g.procs[n].pc.Looking? {
        LookKeepsShut(g, n);
      } else {
        OwnStepKeepsShut(g, a, n);
      }
    }
  }

  lemma {:induction false} RunKeepsShut(g: Group, actions: seq<Action>, n: nat)
    requires Inv(g) && Shut(g, n) && Run(g, actions).Some?
    ensures Shut(Run(g, actions).value, n)
    decreases actions
  {
    if actions != [] {
      StepKeepsInv(g, actions[0]);
      StepKeepsShut(g, actions[0], n);
      RunKeepsShut(Apply(g, actions[0]), actions[1..], n);
    }
  }

  // ---- main results ----

  // A Do called now can get a result from before now if and only if the leader
  // for its key is between the return of fn and its second lock.
  lemma StaleIffCalledInWindow(g: Group, key: string)
    requires Reachable(g)
    ensures InWindow(g, key) <==> CanGoStale(g, key)
  {
    ReachableInv(g);
    if InWindow(g, key) {
      WindowLetsStale(g, key);
    } else if CanGoStale(g, key) {
      var actions :| StaleAfter(g, [Do(key)] + actions);
      assert ([Do(key)] + actions)[1..] == actions;
      StepKeepsInv(g, Do(key));
      ShutAtDo(g, key);
      RunKeepsShut(Apply(g, Do(key)), actions, |g.procs|);
      assert false;
    }
  }

  // ---- over whole runs ----

  // t came from g by a Do, p's, that was called in the window.
  ghost predicate CalledInWindow(g: Group, t: Group, p: nat, rest: seq<Action>) {
    && p < |t.procs| && p == |g.procs| && Reachable(g)
    && InWindow(g, t.procs[p].key) && Run(g, [Do(t.procs[p].key)] + rest) == Some(t)
  }

  lemma {:induction false} RunKeepsKey(g: Group, actions: seq<Action>, p: nat)
    requires p < |g.procs| && Run(g, actions).Some?
    ensures p < |Run(g, actions).value.procs| && Run(g, actions).value.procs[p].key == g.procs[p].key
    decreases actions
  {
    if actions != [] {
      RunKeepsKey(Apply(g, actions[0]), actions[1..], p);
    }
  }

  // The call of Do that p came from.
  lemma {:induction false} SplitAtDo(g: Group, actions: seq<Action>, p: nat) returns (i: nat)
    requires Run(g, actions).Some? && |g.procs| <= p < |Run(g, actions).value.procs|
    ensures i < |actions| && actions[i] == Do(Run(g, actions).value.procs[p].key)
    ensures Run(g, actions[..i]).Some? && |Run(g, actions[..i]).value.procs| == p
    decreases actions
  {
    var next := Apply(g, actions[0]);
    if |next.procs| > p {
      i := 0;
      RunKeepsKey(next, actions[1..], p);
    } else {
      i := SplitAtDo(next, actions[1..], p);
      assert actions[..i + 1][1..] == actions[1..][..i];
      i := i + 1;
    }
  }

  // Every result from before its Do was got by a Do called in the window.
  lemma StaleOnlyInsideTheWindow(t: Group, p: nat)
    requires Reachable(t) && Stale(t, p)
    ensures exists g, rest :: CalledInWindow(g, t, p, rest)
  {
    var actions :| Run(INIT, actions) == Some(t);
    var i := SplitAtDo(INIT, actions, p);
    var g, rest := Run(INIT, actions[..i]).value, actions[i + 1..];
    assert actions == actions[..i] + ([actions[i]] + rest);
    RunAppend(INIT, actions[..i], [actions[i]] + rest);
    assert Reachable(g);
    assert StaleAfter(g, [Do(t.procs[p].key)] + rest);
    StaleIffCalledInWindow(g, t.procs[p].key);
    assert CalledInWindow(g, t, p, rest);
  }

  // It does happen: the leader of the only call is about to delete its entry.
  lemma ResultMayPredateTheCall()
    ensures exists g, p :: Reachable(g) && Stale(g, p)
  {
    var g := LeaderReachesWindow();
    StaleIffCalledInWindow(g, "a");
    var actions :| StaleAfter(g, [Do("a")] + actions);
    var all :| Run(INIT, all) == Some(g);
    RunAppend(INIT, all, [Do("a")] + actions);
    assert Reachable(Run(g, [Do("a")] + actions).value);
  }

  lemma LeaderReachesWindow() returns (g: Group)
    ensures Reachable(g) && InWindow(g, "a")
  {
    g := LeaderRuns();
    StepReached(g, FnReturns(0, "v"));
    g := Apply(g, FnReturns(0, "v"));
    assert g.procs[0].pc.Publishing?;
  }
}
