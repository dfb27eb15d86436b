/** In what order a rollout upgrades its nodes and takes them back. */
module RolloutOrder {
  import opened Common
  import opened Rollout
  import opened RolloutTheorems
  import opened RolloutGate
  import opened RolloutRuns

  // -------------------------------------------------------------- roles and positions

  /** `a` stands before `b`. */
  ghost predicate Before(nodes: seq<Node>, a: Node, b: Node) {
    exists i, j :: 0 <= i < j < |nodes| && nodes[i] == a && nodes[j] == b
  }

  lemma {:induction false} RoleKeepsOrder(nodes: seq<Node>, role: string, p: nat, q: nat)
    requires p < q < |WithRole(nodes, role)|
    ensures Before(nodes, WithRole(nodes, role)[p], WithRole(nodes, role)[q])
  {
    var n := |nodes| - 1;
    var before := WithRole(nodes[..n], role);
    if q < |before| {
      RoleKeepsOrder(nodes[..n], role, p, q);
      var i, j :| 0 <= i < j < n && nodes[..n][i] == before[p] && nodes[..n][j] == before[q];
      assert nodes[i] == before[p] && nodes[j] == before[q];
    } else {
      WithRoleSelects(nodes[..n], role);
      assert before[p] in before;
      var i :| 0 <= i < n && nodes[..n][i] == before[p];
      assert nodes[i] == before[p] && nodes[n] == WithRole(nodes, role)[q];
    }
  }

  lemma RoleOf(nodes: seq<Node>, role: string, p: nat)
    requires p < |WithRole(nodes, role)|
    ensures WithRole(nodes, role)[p].role == role
  {
    WithRoleSelects(nodes, role);
    assert WithRole(nodes, role)[p] in WithRole(nodes, role);
  }

  /** Executors-first puts no controller before an executor, controller-first no executor
      before a controller, and the declared order is kept as it is. */
  lemma OrderPutsRolesFirst(nodes: seq<Node>, order: OrderRule, p: nat, q: nat)
    requires p < q < |Ordered(nodes, order)|
    ensures var o := Ordered(nodes, order);
            && (order.ExecutorsFirst? ==> !(o[p].role == "controller" && o[q].role == "executor"))
            && (order.ControllerFirst? ==> !(o[p].role == "executor" && o[q].role == "controller"))
            && (order.Declared? ==> o == nodes)
  {
    var executors := WithRole(nodes, "executor");
    var controllers := WithRole(nodes, "controller");
    if order.ExecutorsFirst? {
      if p < |executors| {
        RoleOf(nodes, "executor", p);
      } else {
        RoleOf(nodes, "controller", q - |executors|);
      }
    } else if order.ControllerFirst? {
      if p < |controllers| {
        RoleOf(nodes, "controller", p);
      } else {
        RoleOf(nodes, "executor", q - |controllers|);
      }
    }
  }

  /** Nodes of one role keep their declared order. */
  lemma OrderIsStable(nodes: seq<Node>, order: OrderRule, p: nat, q: nat)
    requires p < q < |Ordered(nodes, order)| && Ordered(nodes, order)[p].role == Ordered(nodes, order)[q].role
    ensures Before(nodes, Ordered(nodes, order)[p], Ordered(nodes, order)[q])
  {
    if !order.Declared? {
      var first := if order.ExecutorsFirst? then "executor" else "controller";
      var second := if order.ExecutorsFirst? then "controller" else "executor";
      var n := |WithRole(nodes, first)|;
      if q < n {
        RoleKeepsOrder(nodes, first, p, q);
      } else if p >= n {
        RoleKeepsOrder(nodes, second, p - n, q - n);
      } else {
        RoleOf(nodes, first, p);
        RoleOf(nodes, second, q - n);
      }
    }
  }

  // ------------------------------------------------------------ the installs of a run

  /** The nodes a rollout called for an install, in the order of the calls. */
  function InstallNodes(calls: seq<Call>, id: string): seq<string> {
    if calls == [] then []
    else
      var last := calls[|calls| - 1];
      InstallNodes(calls[..|calls| - 1], id) + if last.Install? && last.rollout == id then [last.node] else []
  }

  function Ids(nodes: seq<Node>): (r: seq<string>)
    ensures |r| == |nodes|
    ensures forall i :: 0 <= i < |nodes| ==> r[i] == nodes[i].id
  {
    seq(|nodes|, i requires 0 <= i < |nodes| => nodes[i].id)
  }

  lemma InstallAppend(calls: seq<Call>, call: Call, id: string)
    ensures InstallNodes(calls + [call], id)
            == InstallNodes(calls, id) + if call.Install? && call.rollout == id then [call.node] else []
  {
    assert (calls + [call])[..|calls|] == calls;
  }

  ghost predicate NoInstall(f: Fleet, f': Fleet) {
    forall id :: InstallNodes(f'.calls, id) == InstallNodes(f.calls, id)
  }

  lemma AppendNoInstall(calls: seq<Call>, call: Call)
    requires !call.Install?
    ensures forall id :: InstallNodes(calls + [call], id) == InstallNodes(calls, id)
  {
    forall id
      ensures InstallNodes(calls + [call], id) == InstallNodes(calls, id)
    {
      InstallAppend(calls, call, id);
    }
  }

  lemma WroteNoInstall(f: Fleet, st: State, env: Environment)
    ensures NoInstall(f, Wrote(f, st, env))
  {
    AppendNoInstall(f.calls, Write(st.id, Succeeds(f, env)));
  }

  lemma ReadNoInstall(f: Fleet, node: string, env: Environment)
    ensures NoInstall(f, ReadBack(f, node, env).0)
  {
    AppendNoInstall(f.calls, Read(node, Succeeds(f, env) && node in f.world));
  }

  lemma FabricNoInstall(f: Fleet, rollout: string, env: Environment)
    ensures NoInstall(f, FabricChecked(f, rollout, env).0)
  {
    AppendNoInstall(f.calls, Fabric(rollout, Succeeds(f, env)));
  }

  lemma RevertedNoInstall(f: Fleet, rollout: string, node: string, env: Environment)
    ensures NoInstall(f, Reverted(f, rollout, node, env).0)
  {
    AppendNoInstall(f.calls, RollbackCall(rollout, node, env(|f.calls|).ok));
  }

  lemma RollbackOneNoInstall(f: Fleet, st: State, index: nat, env: Environment)
    requires index < |st.ordered|
    ensures NoInstall(f, RollbackOne(f, st, index, env).0)
  {
    hide InstallNodes;
    var node := st.ordered[index].id;
    RevertedNoInstall(f, st.id, node, env);
    ReadNoInstall(Reverted(f, st.id, node, env).0, node, env);
  }

  lemma {:induction false} RollbackNodesNoInstall(f: Fleet, st: State, count: nat, env: Environment)
    requires count <= |st.ordered|
    ensures NoInstall(f, RollbackNodes(f, st, count, env).0)
    decreases count
  {
    hide RollbackOne, InstallNodes;
    if count > 0 {
      RollbackOneNoInstall(f, st, count - 1, env);
      RollbackOneFramed(f, st, count - 1, env);
      var (f1, st1, e1) := RollbackOne(f, st, count - 1, env);
      RollbackNodesNoInstall(f1, st1, count - 1, env);
    }
  }

  lemma RollbackInstalledNoInstall(f: Fleet, st: State, count: nat, cause: Verdict, env: Environment)
    ensures NoInstall(f, RollbackInstalled(f, st, count, cause, env).0)
  {
    hide RollbackNodes, InstallNodes;
    var n := if count > |st.ordered| then |st.ordered| else count;
    RollbackNodesNoInstall(f, st, n, env);
    var (f1, st1, errors) := RollbackNodes(f, st, n, env);
    WroteNoInstall(f1, st1.(status := RolledBack), env);
  }

  /** `f'` follows `f` by at most one install of `node` by `id`, by exactly one if `surely`. */
  ghost predicate OneInstall(f: Fleet, f': Fleet, id: string, node: string, surely: bool) {
    && (forall other :: other != id ==> InstallNodes(f'.calls, other) == InstallNodes(f.calls, other))
    && (InstallNodes(f'.calls, id) == InstallNodes(f.calls, id) + [node]
        || (!surely && InstallNodes(f'.calls, id) == InstallNodes(f.calls, id)))
  }

  lemma InstalledOne(f: Fleet, id: string, node: string, env: Environment)
    ensures OneInstall(f, Installed(f, id, node, env).0, id, node, Installed(f, id, node, env).1)
  {
    forall other
      ensures InstallNodes(f.calls + [Install(id, node, env(|f.calls|).ok)], other)
              == InstallNodes(f.calls, other) + if other == id then [node] else []
    {
      InstallAppend(f.calls, Install(id, node, env(|f.calls|).ok), other);
    }
  }

  lemma InstallNextOne(f: Fleet, st: State, env: Environment)
    requires st.nextNode < |st.ordered|
    ensures var (f', st', stopped) := InstallNext(f, st, env);
            OneInstall(f, f', st.id, st.ordered[st.nextNode].id, stopped.None?)
  {
    hide RollbackInstalled, InstallNodes, Wrote, Installed, ReadBack;
    var node := st.ordered[st.nextNode].id;
    var st0 := Logged(st, node, InstallStarted);
    WroteNoInstall(f, st0, env);
    var f0 := Wrote(f, st0, env);
    var (f1, ok) := Installed(f0, st.id, node, env);
    InstalledOne(f0, st.id, node, env);
    if !ok {
      var st1 := Logged(st0.(status := Failed), node, InstallFailed);
      WroteNoInstall(f1, st1, env);
      RollbackInstalledNoInstall(Wrote(f1, st1, env), st1, st.nextNode + 1, InstallError, env);
    } else {
      var (f2, release) := ReadBack(f1, node, env);
      ReadNoInstall(f1, node, env);
      if release != Some(Release(st.plan.version, st.plan.digest)) {
        var st1 := Logged(st0.(status := Failed), node, DigestMismatch);
        WroteNoInstall(f2, st1, env);
        RollbackInstalledNoInstall(Wrote(f2, st1, env), st1, st.nextNode + 1, ReadbackError, env);
      } else {
        WroteNoInstall(f2, Logged(st0.(nextNode := st.nextNode + 1), node, DigestVerified), env);
      }
    }
  }

  lemma PassGateNoInstall(f: Fleet, st: State, node: string, env: Environment)
    ensures NoInstall(f, PassGate(f, st, node, env).0)
  {
    hide RollbackInstalled, InstallNodes;
    var (f1, healthy) := FabricChecked(f, st.id, env);
    FabricNoInstall(f, st.id, env);
    if healthy {
      WroteNoInstall(f1, Logged(st, node, FabricHealthy), env);
    } else {
      var st1 := Logged(st.(status := Degraded, degradedNode := node), node, FabricDegraded);
      WroteNoInstall(f1, st1, env);
      RollbackInstalledNoInstall(Wrote(f1, st1, env), st1, st.nextNode, FabricError, env);
    }
  }

  /** A pause, saved or not rolled back in the file, is at the node reached. */
  lemma PauseIsHere(f: Fleet, st: State, node: string, env: Environment)
    requires DistinctIds(st.ordered) && OnFile(f, st) && !SavedDegraded(f, st.id)
    ensures var (f', st', stopped) := PassGate(f, st, node, env);
            SavedDegraded(f', st.id) ==> f'.files[st.id].nextNode == st.nextNode
  {
    hide RollbackInstalled;
    var (f1, healthy) := FabricChecked(f, st.id, env);
    if !healthy && st.plan.onDegraded.RollBack? {
      var st1 := Logged(st.(status := Degraded, degradedNode := node), node, FabricDegraded);
      RollbackInstalledEffect(Wrote(f1, st1, env), st1, st.nextNode, FabricError, env);
    }
  }

  /** The installs of a rollout so far are the first `n` of its ordered nodes. */
  ghost predicate InstalledUpTo(f: Fleet, st: State, n: nat) {
    n <= |st.ordered| && InstallNodes(f.calls, st.id) == Ids(st.ordered)[..n]
  }

  ghost predicate InstalledSome(f: Fleet, st: State) {
    exists n: nat :: InstalledUpTo(f, st, n)
  }

  lemma UpToNext(f: Fleet, f': Fleet, st: State, st': State, surely: bool)
    requires InstalledUpTo(f, st, st.nextNode) && st.nextNode < |st.ordered| && SameRollout(st, st')
    requires OneInstall(f, f', st.id, st.ordered[st.nextNode].id, surely)
    ensures InstalledUpTo(f', st', st.nextNode + 1) || (!surely && InstalledUpTo(f', st', st.nextNode))
    ensures InstalledSome(f', st) && InstalledSome(f', st')
  {
    assert InstalledUpTo(f', st', st.nextNode) ==> InstalledUpTo(f', st, st.nextNode);
    assert InstalledUpTo(f', st', st.nextNode + 1) ==> InstalledUpTo(f', st, st.nextNode + 1);
    assert Ids(st.ordered)[..st.nextNode + 1] == Ids(st.ordered)[..st.nextNode] + [st.ordered[st.nextNode].id];
  }

  /** What advancing installs: the next nodes in order, none of another rollout. */
  ghost predicate Advances(f: Fleet, f': Fleet, st: State) {
    && (forall other :: other != st.id ==> InstallNodes(f'.calls, other) == InstallNodes(f.calls, other))
    && InstalledSome(f', st)
    && (SavedDegraded(f', st.id) ==> InstalledUpTo(f', st, f'.files[st.id].nextNode))
  }

  lemma {:induction false} AdvanceInOrder(f: Fleet, st: State, env: Environment)
    requires DistinctIds(st.ordered) && st.status == Running && OnFile(f, st) && !SavedDegraded(f, st.id)
    requires InstalledUpTo(f, st, st.nextNode)
    ensures Advances(f, Advanced(f, st, env).0, st)
    decreases |st.ordered| - st.nextNode
  {
    hide InstallNext, PassGate, InstallNodes, DistinctIds, OnFile;
    if st.nextNode < |st.ordered| {
      var node := st.ordered[st.nextNode].id;
      var (f1, st1, stopped1) := InstallNext(f, st, env);
      InstallNextOne(f, st, env);
      InstallNextSaves(f, st, env);
      InstallNextFramed(f, st, env);
      UpToNext(f, f1, st, st1, stopped1.None?);
      if stopped1.None? {
        OnFileSame(f1, st, st1);
        var (f2, st2, stopped2) := PassGate(f1, st1, node, env);
        PassGateNoInstall(f1, st1, node, env);
        PassGateSaves(f1, st1, node, env);
        PassGateFramed(f1, st1, node, env);
        PauseIsHere(f1, st1, node, env);
        assert st1.nextNode == st.nextNode + 1 && InstalledUpTo(f2, st, st1.nextNode);
        if stopped2.None? {
          OnFileSame(f2, st1, st2);
          AdvanceInOrder(f2, st2, env);
          AdvancesFrom(f, f2, Advanced(f2, st2, env).0, st, st2);
        }
      }
    } else {
      WroteNoInstall(f, Logged(st.(status := Complete, degradedNode := ""), "", Completed), env);
      assert InstalledUpTo(Advanced(f, st, env).0, st, st.nextNode);
    }
  }

  lemma AdvancesFrom(f: Fleet, f1: Fleet, f': Fleet, st: State, st1: State)
    requires Advances(f1, f', st1) && SameRollout(st, st1)
    requires forall other :: other != st.id ==> InstallNodes(f1.calls, other) == InstallNodes(f.calls, other)
    ensures Advances(f, f', st)
  {
    var n: nat :| InstalledUpTo(f', st1, n);
    assert InstalledUpTo(f', st, n);
  }

  lemma OnFileSame(f: Fleet, st: State, st': State)
    requires OnFile(f, st) && SameRollout(st, st')
    ensures OnFile(f, st') && (DistinctIds(st.ordered) ==> DistinctIds(st'.ordered))
  {
  }

  // -------------------------------------------------------------------- commands

  /** Every file's rollout has installed a first part of its nodes, in the order of its plan;
      a paused one exactly those it counts. */
  ghost predicate InOrder(f: Fleet) {
    && (forall id :: id in f.files ==> FileInOrder(f, id))
    && (forall id :: id !in f.files ==> InstallNodes(f.calls, id) == [])
  }

  ghost predicate FileInOrder(f: Fleet, id: string)
    requires id in f.files
  {
    var st := f.files[id];
    && st.ordered == Ordered(st.plan.nodes, st.plan.order)
    && InstalledSome(f, st) && (st.status.Degraded? ==> InstalledUpTo(f, st, st.nextNode))
  }

  /** Calls without an install, and files that changed their status at most. */
  lemma QuietInOrder(f: Fleet, f': Fleet, id: string, st: State)
    requires InOrder(f) && NoInstall(f, f') && id in f.files && SameRollout(st, f.files[id])
    requires st.status.Degraded? ==> f.files[id].status.Degraded? && st.nextNode == f.files[id].nextNode
    requires f'.files == f.files || f'.files == f.files[id := st]
    ensures InOrder(f')
  {
    forall other | other in f'.files
      ensures FileInOrder(f', other)
    {
      assert FileInOrder(f, other);
      var n: nat :| InstalledUpTo(f, f.files[other], n);
      assert InstalledUpTo(f', f'.files[other], n);
    }
  }

  lemma AdvanceKeepsOrder(f: Fleet, f': Fleet, st: State)
    requires forall id :: id in f.files && id != st.id ==> FileInOrder(f, id)
    requires forall id :: id !in f.files && id != st.id ==> InstallNodes(f.calls, id) == []
    requires Framed(f, f', st) && Advances(f, f', st) && OnFile(f', st)
    requires st.ordered == Ordered(st.plan.nodes, st.plan.order)
    requires forall id :: id in f'.files ==> f'.files[id].id == id
    ensures InOrder(f')
  {
    forall id | id in f'.files
      ensures FileInOrder(f', id)
    {
      if id != st.id {
        assert SameAt(f.files, f'.files, id);
        var n: nat :| InstalledUpTo(f, f.files[id], n);
        assert f.files[id].id == id;
        assert InstalledUpTo(f', f'.files[id], n);
      } else {
        var n: nat :| InstalledUpTo(f', st, n);
        assert InstalledUpTo(f', f'.files[id], n);
      }
    }
    forall id | id !in f'.files
      ensures InstallNodes(f'.calls, id) == []
    {
      if id != st.id {
        assert SameAt(f.files, f'.files, id);
      }
    }
  }

  lemma {:induction false} PreflightNoInstall(f: Fleet, plan: Plan, n: nat, env: Environment)
    requires n <= |plan.nodes|
    ensures NoInstall(f, Preflight(f, plan, n, env).0)
  {
    hide InstallNodes;
    if n > 0 {
      PreflightNoInstall(f, plan, n - 1, env);
      ReadNoInstall(Preflight(f, plan, n - 1, env).0, plan.nodes[n - 1].id, env);
    }
  }

  lemma AdvanceOnFile(f: Fleet, st: State, env: Environment)
    requires DistinctIds(st.ordered) && st.status == Running && OnFile(f, st) && !SavedDegraded(f, st.id)
    ensures OnFile(Advanced(f, st, env).0, st)
  {
    AdvanceSaves(f, st, env);
  }

  lemma StartInOrder(f: Fleet, id: string, plan: Plan, env: Environment)
    requires InOrder(f) && Sound(f) && id !in f.files && Validated(plan)
    ensures InOrder(StartSpec(f, id, plan, env).0)
  {
    StartSound(f, id, plan, env);
    hide Advanced, Validate, Ordered, Preflight, InstallNodes, Sound;
    PreflightNoInstall(f, plan, |plan.nodes|, env);
    StalePreflight(f, plan, |plan.nodes|, env);
    var (f1, clear) := Preflight(f, plan, |plan.nodes|, env);
    NoInstallInOrder(f, f1);
    if clear {
      var st := Fresh(id, plan, |f1.calls|);
      var f2 := Wrote(f1, st, env);
      WroteNoInstall(f1, st, env);
      if Succeeds(f1, env) {
        FreshIsPlaced(f1.world, id, plan, |f1.calls|);
        assert InstallNodes(f1.calls, id) == [] == Ids(st.ordered)[..0];
        hide InOrder;
        ResumedInOrder(f1, f2, st, env);
      } else {
        NoInstallInOrder(f1, f2);
      }
    }
  }

  /** A rollout that goes on from its saved file. */
  lemma ResumedInOrder(f: Fleet, f': Fleet, st: State, env: Environment)
    requires InOrder(f) && NoInstall(f, f') && f'.files == f.files[st.id := st]
    requires st.status.Running? && DistinctIds(st.ordered) && InstalledUpTo(f, st, st.nextNode)
    requires st.ordered == Ordered(st.plan.nodes, st.plan.order)
    requires Sound(Advanced(f', st, env).0)
    ensures InOrder(Advanced(f', st, env).0)
  {
    SoundNames(Advanced(f', st, env).0);
    OthersInOrder(f, f', st.id);
    hide Advanced, InstallNodes, Sound, Ordered, InOrder;
    assert InstalledUpTo(f', st, st.nextNode);
    AdvanceInOrder(f', st, env);
    AdvanceOnFile(f', st, env);
    AdvanceFramed(f', st, env);
    hide FileInOrder, Framed, Advances, OnFile;
    AdvanceKeepsOrder(f', Advanced(f', st, env).0, st);
  }

  lemma SoundNames(f: Fleet)
    requires Sound(f)
    ensures forall id :: id in f.files ==> f.files[id].id == id
  {
  }

  lemma NoInstallInOrder(f: Fleet, f': Fleet)
    requires InOrder(f) && NoInstall(f, f') && f'.files == f.files
    ensures InOrder(f')
  {
    forall id | id in f'.files
      ensures FileInOrder(f', id)
    {
      assert FileInOrder(f, id);
      var n: nat :| InstalledUpTo(f, f.files[id], n);
      assert InstalledUpTo(f', f'.files[id], n);
    }
  }

  lemma OthersInOrder(f: Fleet, f': Fleet, id: string)
    requires InOrder(f) && NoInstall(f, f') && forall other :: other != id ==> SameAt(f.files, f'.files, other)
    ensures forall other :: other in f'.files && other != id ==> FileInOrder(f', other)
    ensures forall other :: other !in f'.files && other != id ==> InstallNodes(f'.calls, other) == []
  {
    forall other | other != id
      ensures other in f'.files ==> FileInOrder(f', other)
      ensures other !in f'.files ==> InstallNodes(f'.calls, other) == []
    {
      assert SameAt(f.files, f'.files, other);
      if other in f'.files {
        assert FileInOrder(f, other);
        var n: nat :| InstalledUpTo(f, f.files[other], n);
        assert InstalledUpTo(f', f'.files[other], n);
      }
    }
  }

  lemma ContinueInOrder(f: Fleet, id: string, reasoned: bool, env: Environment)
    requires InOrder(f) && Sound(f)
    ensures InOrder(ContinueSpec(f, id, reasoned, env).0)
  {
    ContinueSound(f, id, reasoned, env);
    SoundNames(f);
    if reasoned && SavedDegraded(f, id) {
      assert WellFormed(f.files[id], id, f.calls) && FileInOrder(f, id);
      hide Advanced, InstallNodes, Sound, InOrder;
      var (f1, healthy) := FabricChecked(f, id, env);
      FabricNoInstall(f, id, env);
      NoInstallInOrder(f, f1);
      if healthy {
        var st := Logged(f.files[id].(status := Running), "", Continued);
        var f2 := Wrote(f1, st, env);
        WroteNoInstall(f1, st, env);
        if Succeeds(f1, env) {
          assert InstalledUpTo(f1, st, st.nextNode);
          ResumedInOrder(f1, f2, st, env);
        } else {
          NoInstallInOrder(f1, f2);
        }
      }
    }
  }

  lemma AbortInOrder(f: Fleet, id: string, reasoned: bool, env: Environment)
    requires InOrder(f) && Sound(f)
    ensures InOrder(AbortSpec(f, id, reasoned, env).0)
  {
    SoundNames(f);
    hide InstallNodes, InOrder, Sound;
    if id in f.files {
      var st := Logged(f.files[id].(status := Aborted), "", AbortedByOperator);
      WroteNoInstall(f, st, env);
      QuietInOrder(f, Wrote(f, st, env), id, st);
    }
  }

  lemma RollbackNodeInOrder(f: Fleet, id: string, node: string, valid: bool, env: Environment)
    requires InOrder(f) && Sound(f)
    ensures InOrder(RollbackNodeSpec(f, id, node, valid, env).0)
  {
    SoundNames(f);
    hide InstallNodes, InOrder, Sound;
    if id in f.files {
      var (f1, ok) := Reverted(f, id, node, env);
      RevertedNoInstall(f, id, node, env);
      NoInstallInOrder(f, f1);
      var st := Logged(f.files[id].(status := Aborted), node, NodeRolledBack);
      WroteNoInstall(f1, st, env);
      QuietInOrder(f1, Wrote(f1, st, env), id, st);
    }
  }

  lemma AfterInOrder(f: Fleet, c: Command, env: Environment)
    requires InOrder(f) && Sound(f) && CommandValid(c)
    ensures InOrder(After(f, c, env))
  {
    hide StartSpec, ContinueSpec, AbortSpec, RollbackNodeSpec, Sound, InOrder;
    match c {
      case Start(id, plan) =>
        if id !in f.files {
          StartInOrder(f, id, plan, env);
        }
      case Continue(id, reasoned) => ContinueInOrder(f, id, reasoned, env);
      case Abort(id, reasoned) => AbortInOrder(f, id, reasoned, env);
      case RollbackNode(id, node, valid) => RollbackNodeInOrder(f, id, node, valid, env);
    }
    var f' := Execute(f, c, env).0;
    AppendNoInstall(f'.calls, Crashed);
    NoInstallInOrder(f', f'.(calls := f'.calls + [Crashed]));
  }

  lemma {:induction false} RunInOrder(f: Fleet, commands: seq<Command>, env: Environment)
    requires InOrder(f) && Sound(f) && forall k :: 0 <= k < |commands| ==> CommandValid(commands[k])
    ensures InOrder(Run(f, commands, env)) && Sound(Run(f, commands, env))
    decreases |commands|
  {
    hide After, InOrder, Sound, CommandValid;
    if commands != [] {
      assert CommandValid(commands[0]);
      AfterInOrder(f, commands[0], env);
      AfterSound(f, commands[0], env);
      RunInOrder(After(f, commands[0], env), commands[1..], env);
    }
  }

  /** Over every run, whatever other rollouts do and wherever processes die: the installs of
      a rollout are the first of its nodes, each once, in the order of its plan; and under
      executors-first no controller was called before an executor, and the reverse. */
  lemma InstallsFollowOrder(world: map<string, Release>, commands: seq<Command>, env: Environment, id: string)
    requires forall k :: 0 <= k < |commands| ==> CommandValid(commands[k])
    requires id in Run(NewFleet(world), commands, env).files
    ensures var f := Run(NewFleet(world), commands, env); var plan := f.files[id].plan;
            var installs := InstallNodes(f.calls, id);
            && installs <= Ids(Ordered(plan.nodes, plan.order))
            && forall p, q, a, b :: 0 <= p < q < |installs| && a in plan.nodes && b in plan.nodes
                                    && a.id == installs[p] && b.id == installs[q] ==>
                 && (plan.order.ExecutorsFirst? ==> !(a.role == "controller" && b.role == "executor"))
                 && (plan.order.ControllerFirst? ==> !(a.role == "executor" && b.role == "controller"))
  {
    RunInOrder(NewFleet(world), commands, env);
    var f := Run(NewFleet(world), commands, env);
    hide Run;
    assert FileInOrder(f, id) && WellFormed(f.files[id], id, f.calls);
    var n: nat :| InstalledUpTo(f, f.files[id], n);
    hide Sound, InOrder, InstallNodes;
    var st := f.files[id];
    var installs := InstallNodes(f.calls, id);
    forall p, q, a, b | 0 <= p < q < |installs| && a in st.plan.nodes && b in st.plan.nodes
                        && a.id == installs[p] && b.id == installs[q]
      ensures st.plan.order.ExecutorsFirst? ==> !(a.role == "controller" && b.role == "executor")
      ensures st.plan.order.ControllerFirst? ==> !(a.role == "executor" && b.role == "controller")
    {
      NodeAt(st, p, a);
      NodeAt(st, q, b);
      OrderPutsRolesFirst(st.plan.nodes, st.plan.order, p, q);
    }
  }

  /** In a rollout's order a node is found by its id. */
  lemma NodeAt(st: State, p: nat, a: Node)
    requires WellOrdered(st) && p < |st.ordered| && a in st.plan.nodes && a.id == st.ordered[p].id
    ensures st.ordered[p] == a
  {
    assert a in multiset(st.plan.nodes);
    assert a in multiset(st.ordered);
    var i :| 0 <= i < |st.ordered| && st.ordered[i] == a;
  }

  // ------------------------------------------------------------------ rolling back

  /** The nodes a rollout called for a rollback, in the order of the calls. */
  function RollbackCalls(calls: seq<Call>, id: string): seq<string> {
    if calls == [] then []
    else
      var last := calls[|calls| - 1];
      RollbackCalls(calls[..|calls| - 1], id) + if last.RollbackCall? && last.rollout == id then [last.node] else []
  }

  lemma RollbackAppend(calls: seq<Call>, call: Call, id: string)
    ensures RollbackCalls(calls + [call], id)
            == RollbackCalls(calls, id) + if call.RollbackCall? && call.rollout == id then [call.node] else []
  {
    assert (calls + [call])[..|calls|] == calls;
  }

  lemma RollbackOneCalls(f: Fleet, st: State, index: nat, env: Environment)
    requires index < |st.ordered|
    ensures var f' := RollbackOne(f, st, index, env).0;
            RollbackCalls(f'.calls, st.id)
            == RollbackCalls(f.calls, st.id) + if Dead(f, env) then [] else [st.ordered[index].id]
    ensures Dead(f, env) ==> RollbackOne(f, st, index, env).0 == f
  {
    var node := st.ordered[index].id;
    var reverted := Reverted(f, st.id, node, env).0;
    RollbackAppend(f.calls, RollbackCall(st.id, node, env(|f.calls|).ok), st.id);
    RollbackAppend(reverted.calls, Read(node, Succeeds(reverted, env) && node in reverted.world), st.id);
  }

  /** A rollback calls the first `count` nodes from the last to the first, going on after a
      failure; only the death of the process cuts it short. */
  lemma {:induction false} RollbackRunsBackwards(f: Fleet, st: State, count: nat, env: Environment)
    requires count <= |st.ordered|
    ensures var f' := RollbackNodes(f, st, count, env).0;
            var before := RollbackCalls(f.calls, st.id);
            var after := RollbackCalls(f'.calls, st.id);
            && before <= after && |after| - |before| <= count
            && (forall k :: |before| <= k < |after| ==> after[k] == st.ordered[count - 1 - (k - |before|)].id)
            && (!Dead(f', env) ==> |after| - |before| == count)
    decreases count
  {
    hide RollbackCalls, RollbackOne;
    if count > 0 {
      RollbackOneCalls(f, st, count - 1, env);
      RollbackOneFramed(f, st, count - 1, env);
      var (f1, st1, e1) := RollbackOne(f, st, count - 1, env);
      if Dead(f, env) {
        DeadRollback(f, st, count, env);
      } else {
        RollbackRunsBackwards(f1, st1, count - 1, env);
      }
    }
  }
}
