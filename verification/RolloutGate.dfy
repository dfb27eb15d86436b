/** The fabric gate over the history of calls: of one rollout, or of all of them. */
module RolloutGate {
  import opened Common
  import opened Rollout
  import opened RolloutTheorems

  // -------------------------------------------------------------------- the gate

  /** Whose calls are looked at: one rollout's, or everybody's. */
  type Scope = Option<string>

  predicate Covers(scope: Scope, rollout: string) {
    scope.None? || scope.value == rollout
  }

  predicate Installs(call: Call, scope: Scope) {
    call.Install? && Covers(scope, call.rollout)
  }

  predicate Passes(call: Call, scope: Scope) {
    call.Fabric? && call.ok && Covers(scope, call.rollout)
  }

  /** Whether an install may come next: the last install was followed by a passed check. */
  predicate GateOpen(calls: seq<Call>, scope: Scope) {
    if calls == [] then true
    else
      var last := calls[|calls| - 1];
      Passes(last, scope) || (!Installs(last, scope) && GateOpen(calls[..|calls| - 1], scope))
  }

  /** Every install happened with the gate open. */
  predicate AllGated(calls: seq<Call>, scope: Scope) {
    calls == [] ||
    (&& AllGated(calls[..|calls| - 1], scope)
     && (Installs(calls[|calls| - 1], scope) ==> GateOpen(calls[..|calls| - 1], scope)))
  }

  lemma GateAppend(calls: seq<Call>, call: Call, scope: Scope)
    ensures AllGated(calls + [call], scope)
            <==> AllGated(calls, scope) && (Installs(call, scope) ==> GateOpen(calls, scope))
    ensures GateOpen(calls + [call], scope)
            <==> Passes(call, scope) || (!Installs(call, scope) && GateOpen(calls, scope))
  {
    assert (calls + [call])[..|calls|] == calls;
  }

  /** What the gate means: between any two installs the fabric was found healthy. */
  lemma {:induction false} GateMeansChecked(calls: seq<Call>, scope: Scope, i: nat, j: nat)
    requires AllGated(calls, scope) && i < j < |calls| && Installs(calls[i], scope) && Installs(calls[j], scope)
    ensures exists k :: i < k < j && Passes(calls[k], scope)
    decreases |calls|
  {
    var n := |calls| - 1;
    if j < n {
      GateMeansChecked(calls[..n], scope, i, j);
      var k :| i < k < j && Passes(calls[..n][k], scope);
      assert Passes(calls[k], scope);
    } else {
      OpenMeansChecked(calls[..n], scope, i);
      var k :| i < k < n && Passes(calls[..n][k], scope);
      assert Passes(calls[k], scope);
    }
  }

  lemma {:induction false} OpenMeansChecked(calls: seq<Call>, scope: Scope, i: nat)
    requires GateOpen(calls, scope) && i < |calls| && Installs(calls[i], scope)
    ensures exists k :: i < k < |calls| && Passes(calls[k], scope)
    decreases |calls|
  {
    var n := |calls| - 1;
    if Passes(calls[n], scope) {
      assert i < n;
    } else {
      OpenMeansChecked(calls[..n], scope, i);
      var k :| i < k < n && Passes(calls[..n][k], scope);
      assert Passes(calls[k], scope);
    }
  }

  /** A history that is not gated never becomes gated again. */
  lemma {:induction false} GatedPrefix(calls: seq<Call>, longer: seq<Call>, scope: Scope)
    requires calls <= longer && AllGated(longer, scope)
    ensures AllGated(calls, scope)
    decreases |longer|
  {
    if |calls| < |longer| {
      GatedPrefix(calls, longer[..|longer| - 1], scope);
    } else {
      assert calls == longer;
    }
  }

  // ------------------------------------------------------------ stages of a rollout

  /** These calls keep the gate and, if it was open, leave it open. */
  ghost predicate Gated(f: Fleet, f': Fleet, scope: Scope) {
    && (AllGated(f.calls, scope) ==> AllGated(f'.calls, scope))
    && (GateOpen(f.calls, scope) ==> GateOpen(f'.calls, scope))
  }

  lemma WroteGated(f: Fleet, st: State, env: Environment, scope: Scope)
    ensures Gated(f, Wrote(f, st, env), scope)
  {
    GateAppend(f.calls, Write(st.id, Succeeds(f, env)), scope);
  }

  lemma ReadGated(f: Fleet, node: string, env: Environment, scope: Scope)
    ensures Gated(f, ReadBack(f, node, env).0, scope)
  {
    GateAppend(f.calls, Read(node, Succeeds(f, env) && node in f.world), scope);
  }

  lemma RevertedGated(f: Fleet, rollout: string, node: string, env: Environment, scope: Scope)
    ensures Gated(f, Reverted(f, rollout, node, env).0, scope)
  {
    GateAppend(f.calls, RollbackCall(rollout, node, env(|f.calls|).ok), scope);
  }

  lemma FabricGated(f: Fleet, rollout: string, env: Environment, scope: Scope)
    ensures Gated(f, FabricChecked(f, rollout, env).0, scope)
    ensures FabricChecked(f, rollout, env).1 && Covers(scope, rollout) ==>
              GateOpen(FabricChecked(f, rollout, env).0.calls, scope)
  {
    GateAppend(f.calls, Fabric(rollout, Succeeds(f, env)), scope);
  }

  lemma InstalledGated(f: Fleet, rollout: string, node: string, env: Environment, scope: Scope)
    requires Covers(scope, rollout) ==> GateOpen(f.calls, scope)
    ensures var f' := Installed(f, rollout, node, env).0;
            && (AllGated(f.calls, scope) ==> AllGated(f'.calls, scope))
            && (!Covers(scope, rollout) ==> Gated(f, f', scope))
  {
    GateAppend(f.calls, Install(rollout, node, env(|f.calls|).ok), scope);
  }

  lemma RollbackOneGated(f: Fleet, st: State, index: nat, env: Environment, scope: Scope)
    requires index < |st.ordered|
    ensures Gated(f, RollbackOne(f, st, index, env).0, scope)
  {
    hide AllGated, GateOpen;
    var node := st.ordered[index].id;
    RevertedGated(f, st.id, node, env, scope);
    ReadGated(Reverted(f, st.id, node, env).0, node, env, scope);
  }

  lemma {:induction false} RollbackNodesGated(f: Fleet, st: State, count: nat, env: Environment, scope: Scope)
    requires count <= |st.ordered|
    ensures Gated(f, RollbackNodes(f, st, count, env).0, scope)
    decreases count
  {
    hide RollbackOne;
    if count > 0 {
      RollbackOneGated(f, st, count - 1, env, scope);
      RollbackOneFramed(f, st, count - 1, env);
      var (f1, st1, e1) := RollbackOne(f, st, count - 1, env);
      RollbackNodesGated(f1, st1, count - 1, env, scope);
    }
  }

  lemma RollbackInstalledGated(f: Fleet, st: State, count: nat, cause: Verdict, env: Environment, scope: Scope)
    ensures Gated(f, RollbackInstalled(f, st, count, cause, env).0, scope)
  {
    hide RollbackNodes, AllGated, GateOpen;
    var n := if count > |st.ordered| then |st.ordered| else count;
    RollbackNodesGated(f, st, n, env, scope);
    var (f1, st1, errors) := RollbackNodes(f, st, n, env);
    WroteGated(f1, st1.(status := RolledBack), env, scope);
  }

  /** What a stage may do to the gate; `f'` follows an install if `st` is in scope. */
  ghost predicate StageGated(f: Fleet, f': Fleet, st: State, scope: Scope) {
    && (AllGated(f.calls, scope) ==> AllGated(f'.calls, scope))
    && (!Covers(scope, st.id) ==> Gated(f, f', scope))
  }

  lemma InstallNextGated(f: Fleet, st: State, env: Environment, scope: Scope)
    requires st.nextNode < |st.ordered| && (Covers(scope, st.id) ==> GateOpen(f.calls, scope))
    ensures StageGated(f, InstallNext(f, st, env).0, st, scope)
  {
    hide RollbackInstalled, AllGated, GateOpen;
    var node := st.ordered[st.nextNode].id;
    var st0 := Logged(st, node, InstallStarted);
    WroteGated(f, st0, env, scope);
    var f0 := Wrote(f, st0, env);
    var (f1, ok) := Installed(f0, st.id, node, env);
    InstalledGated(f0, st.id, node, env, scope);
    if !ok {
      var st1 := Logged(st0.(status := Failed), node, InstallFailed);
      WroteGated(f1, st1, env, scope);
      RollbackInstalledGated(Wrote(f1, st1, env), st1, st.nextNode + 1, InstallError, env, scope);
    } else {
      var (f2, release) := ReadBack(f1, node, env);
      ReadGated(f1, node, env, scope);
      if release != Some(Release(st.plan.version, st.plan.digest)) {
        var st1 := Logged(st0.(status := Failed), node, DigestMismatch);
        WroteGated(f2, st1, env, scope);
        RollbackInstalledGated(Wrote(f2, st1, env), st1, st.nextNode + 1, ReadbackError, env, scope);
      } else {
        WroteGated(f2, Logged(st0.(nextNode := st.nextNode + 1), node, DigestVerified), env, scope);
      }
    }
  }

  lemma PassGateGated(f: Fleet, st: State, node: string, env: Environment, scope: Scope)
    ensures var (f', st', stopped) := PassGate(f, st, node, env);
            Gated(f, f', scope) && (stopped.None? && Covers(scope, st.id) ==> GateOpen(f'.calls, scope))
  {
    hide RollbackInstalled, AllGated, GateOpen;
    var (f1, healthy) := FabricChecked(f, st.id, env);
    FabricGated(f, st.id, env, scope);
    if healthy {
      WroteGated(f1, Logged(st, node, FabricHealthy), env, scope);
    } else {
      var st1 := Logged(st.(status := Degraded, degradedNode := node), node, FabricDegraded);
      WroteGated(f1, st1, env, scope);
      RollbackInstalledGated(Wrote(f1, st1, env), st1, st.nextNode, FabricError, env, scope);
    }
  }

  lemma {:induction false} AdvanceGated(f: Fleet, st: State, env: Environment, scope: Scope)
    requires Covers(scope, st.id) ==> GateOpen(f.calls, scope)
    ensures StageGated(f, Advanced(f, st, env).0, st, scope)
    decreases |st.ordered| - st.nextNode
  {
    hide InstallNext, PassGate, AllGated, GateOpen;
    if st.nextNode < |st.ordered| {
      var (f1, st1, stopped1) := InstallNext(f, st, env);
      InstallNextGated(f, st, env, scope);
      InstallNextFramed(f, st, env);
      if stopped1.None? {
        var node := st.ordered[st.nextNode].id;
        PassGateGated(f1, st1, node, env, scope);
        PassGateFramed(f1, st1, node, env);
        var (f2, st2, stopped2) := PassGate(f1, st1, node, env);
        if stopped2.None? {
          AdvanceGated(f2, st2, env, scope);
        }
      }
    } else {
      WroteGated(f, Logged(st.(status := Complete, degradedNode := ""), "", Completed), env, scope);
    }
  }

  lemma {:induction false} PreflightGated(f: Fleet, plan: Plan, n: nat, env: Environment, scope: Scope)
    requires n <= |plan.nodes|
    ensures Gated(f, Preflight(f, plan, n, env).0, scope)
  {
    hide AllGated, GateOpen;
    if n > 0 {
      PreflightGated(f, plan, n - 1, env, scope);
      ReadGated(Preflight(f, plan, n - 1, env).0, plan.nodes[n - 1].id, env, scope);
    }
  }

  // -------------------------------------------------------------------- commands

  /** A start keeps the gate if it finds it open, or if its rollout is out of scope. */
  lemma StartGated(f: Fleet, id: string, plan: Plan, env: Environment, scope: Scope)
    requires Covers(scope, id) ==> GateOpen(f.calls, scope)
    ensures var f' := StartSpec(f, id, plan, env).0;
            && (AllGated(f.calls, scope) ==> AllGated(f'.calls, scope))
            && (!Covers(scope, id) || id !in f'.files ==> Gated(f, f', scope))
  {
    hide Advanced, Preflight, AllGated, GateOpen, Ordered;
    PreflightGated(f, plan, |plan.nodes|, env, scope);
    var (f1, clear) := Preflight(f, plan, |plan.nodes|, env);
    if clear {
      var st := Fresh(id, plan, |f1.calls|);
      WroteGated(f1, st, env, scope);
      if Succeeds(f1, env) {
        AdvanceGated(Wrote(f1, st, env), st, env, scope);
        AdvanceFramed(Wrote(f1, st, env), st, env);
      }
    }
  }

  /** Continuing passes a check of its own before anything else, so it needs no premise. */
  lemma ContinueGated(f: Fleet, id: string, reasoned: bool, env: Environment, scope: Scope)
    requires id in f.files ==> f.files[id].id == id
    ensures var f' := ContinueSpec(f, id, reasoned, env).0;
            && (AllGated(f.calls, scope) ==> AllGated(f'.calls, scope))
            && (!Covers(scope, id) ==> Gated(f, f', scope))
  {
    hide Advanced, AllGated, GateOpen;
    if reasoned && SavedDegraded(f, id) {
      var (f1, healthy) := FabricChecked(f, id, env);
      FabricGated(f, id, env, scope);
      if healthy {
        var st := Logged(f.files[id].(status := Running), "", Continued);
        WroteGated(f1, st, env, scope);
        if Succeeds(f1, env) {
          AdvanceGated(Wrote(f1, st, env), st, env, scope);
        }
      }
    }
  }

  lemma AbortGated(f: Fleet, id: string, reasoned: bool, env: Environment, scope: Scope)
    ensures Gated(f, AbortSpec(f, id, reasoned, env).0, scope)
  {
    hide AllGated, GateOpen;
    if id in f.files {
      WroteGated(f, Logged(f.files[id].(status := Aborted), "", AbortedByOperator), env, scope);
    }
  }

  lemma RollbackNodeGated(f: Fleet, id: string, node: string, valid: bool, env: Environment, scope: Scope)
    ensures Gated(f, RollbackNodeSpec(f, id, node, valid, env).0, scope)
  {
    hide AllGated, GateOpen;
    if id in f.files {
      var st := f.files[id];
      RevertedGated(f, st.id, node, env, scope);
      WroteGated(Reverted(f, st.id, node, env).0, Logged(st.(status := Aborted), node, NodeRolledBack), env, scope);
    }
  }

  // -------------------------------------------------- the gate across rollouts

  lemma {:induction false} SmoothPreflight(f: Fleet, plan: Plan, n: nat)
    requires n <= |plan.nodes| && PlanOld(f.world, plan)
    ensures var (f', clear) := Preflight(f, plan, n, Smooth(plan));
            clear && f'.world == f.world && f'.files == f.files
  {
    if n > 0 {
      SmoothPreflight(f, plan, n - 1);
      assert IsOld(f.world, plan, plan.nodes[n - 1]);
    }
  }

  /** A preflight that is not clear anywhere lets no install happen. */
  lemma {:induction false} StalePreflight(f: Fleet, plan: Plan, n: nat, env: Environment)
    requires n <= |plan.nodes|
    ensures var (f', clear) := Preflight(f, plan, n, env);
            && f'.world == f.world && f'.files == f.files && f.calls <= f'.calls
            && (clear ==> forall i :: 0 <= i < n ==> IsOld(f.world, plan, plan.nodes[i]))
  {
    if n > 0 {
      StalePreflight(f, plan, n - 1, env);
    }
  }

  /** The first install after a pause, made by another rollout, is ungated. */
  lemma FirstInstallUngated(f: Fleet, st: State)
    requires st.nextNode < |st.ordered| && !GateOpen(f.calls, None)
    ensures !AllGated(Advanced(f, st, Smooth(st.plan)).0.calls, None)
  {
    var env := Smooth(st.plan);
    var node := st.ordered[st.nextNode].id;
    var st0 := Logged(st, node, InstallStarted);
    var f0 := Wrote(f, st0, env);
    GateAppend(f.calls, Write(st.id, true), None);
    var f1 := Installed(f0, st.id, node, env).0;
    GateAppend(f0.calls, Install(st.id, node, true), None);
    FirstInstallHappens(f, st);
    if AllGated(Advanced(f, st, env).0.calls, None) {
      GatedPrefix(f1.calls, Advanced(f, st, env).0.calls, None);
      assert false;
    }
  }

  lemma FirstInstallHappens(f: Fleet, st: State)
    requires st.nextNode < |st.ordered|
    ensures var env := Smooth(st.plan); var node := st.ordered[st.nextNode].id;
            Installed(Wrote(f, Logged(st, node, InstallStarted), env), st.id, node, env).0.calls
            <= Advanced(f, st, env).0.calls
  {
    hide RollbackInstalled, AllGated, GateOpen;
    var env := Smooth(st.plan);
    var node := st.ordered[st.nextNode].id;
    var f1 := Installed(Wrote(f, Logged(st, node, InstallStarted), env), st.id, node, env).0;
    var (f2, st2, stopped) := InstallNext(f, st, env);
    assert f1.calls <= f2.calls && stopped.None?;
    PassGateFramed(f2, st2, node, env);
    var (f3, st3, stopped3) := PassGate(f2, st2, node, env);
    if stopped3.None? {
      AdvanceFramed(f3, st3, env);
    }
  }

  /** Across rollouts, a start keeps a passed check between any two installs, whatever
      happens during it, if and only if it finds the gate open or cannot pass its
      preflight. */
  lemma StartKeepsFleetGateIff(f: Fleet, id: string, plan: Plan)
    requires AllGated(f.calls, None) && Ordered(plan.nodes, plan.order) != []
    ensures (forall env: Environment :: AllGated(StartSpec(f, id, plan, env).0.calls, None))
            <==> GateOpen(f.calls, None) || !PlanOld(f.world, plan)
  {
    if GateOpen(f.calls, None) {
      forall env: Environment
        ensures AllGated(StartSpec(f, id, plan, env).0.calls, None)
      {
        StartGated(f, id, plan, env, None);
      }
    } else if !PlanOld(f.world, plan) {
      forall env: Environment
        ensures AllGated(StartSpec(f, id, plan, env).0.calls, None)
      {
        StalePreflight(f, plan, |plan.nodes|, env);
        PreflightGated(f, plan, |plan.nodes|, env, None);
      }
    } else {
      UngatedStart(f, id, plan);
    }
  }

  lemma UngatedStart(f: Fleet, id: string, plan: Plan)
    requires !GateOpen(f.calls, None) && PlanOld(f.world, plan) && Ordered(plan.nodes, plan.order) != []
    ensures !AllGated(StartSpec(f, id, plan, Smooth(plan)).0.calls, None)
  {
    hide Advanced, AllGated, GateOpen, Ordered;
    var env := Smooth(plan);
    SmoothPreflight(f, plan, |plan.nodes|);
    StaysShut(f, plan, |plan.nodes|, env);
    var (f1, clear) := Preflight(f, plan, |plan.nodes|, env);
    var st := Fresh(id, plan, |f1.calls|);
    GateAppend(f1.calls, Write(id, true), None);
    FirstInstallUngated(Wrote(f1, st, env), st);
  }

  lemma {:induction false} StaysShut(f: Fleet, plan: Plan, n: nat, env: Environment)
    requires n <= |plan.nodes| && !GateOpen(f.calls, None)
    ensures !GateOpen(Preflight(f, plan, n, env).0.calls, None)
  {
    if n > 0 {
      StaysShut(f, plan, n - 1, env);
      var (f1, ok) := Preflight(f, plan, n - 1, env);
      GateAppend(f1.calls, Read(plan.nodes[n - 1].id, Succeeds(f1, env) && plan.nodes[n - 1].id in f1.world), None);
    }
  }
}
