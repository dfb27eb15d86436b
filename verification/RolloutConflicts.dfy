/** When one command can spoil a paused rollout: the exact condition, and runs from a
    fresh fleet in which it happens. */
module RolloutConflicts {
  import opened Common
  import opened Rollout
  import opened RolloutTheorems
  import opened RolloutGate
  import opened RolloutRuns
  import opened RolloutGuarantees

  // ------------------------------------------------------- what keeps a placement

  /** The rollout is either no longer paused on file or exactly where its file says. */
  ghost predicate Kept(f: Fleet, id: string) {
    SavedDegraded(f, id) ==> Placed(f.world, f.files[id])
  }

  predicate Shares(nodes: seq<Node>, st: State) {
    exists i :: 0 <= i < |nodes| && Names(st, nodes[i].id)
  }

  /** The command may call a node of the paused rollout while that stays paused on file. */
  ghost predicate MayDisturb(f: Fleet, c: Command, id: string)
    requires id in f.files
  {
    match c
    case Start(other, plan) =>
      other !in f.files && PlanOld(f.world, plan) && Shares(Ordered(plan.nodes, plan.order), f.files[id])
    case Continue(other, reasoned) =>
      && reasoned && SavedDegraded(f, other) && f.files[other].nextNode < |f.files[other].ordered|
      && (if other == id then f.files[id].plan.onDegraded.RollBack? else Shares(f.files[other].ordered, f.files[id]))
    case Abort(_, _) => false
    case RollbackNode(other, node, valid) =>
      valid && other in f.files && Names(f.files[other], node) && Names(f.files[id], node)
  }

  lemma PlacedElsewhere(f: Fleet, f': Fleet, st: State, id: string)
    requires Framed(f, f', st) && id in f.files && id != st.id && !Shares(st.ordered, f.files[id])
    requires Placed(f.world, f.files[id])
    ensures Kept(f', id)
  {
    assert SameAt(f.files, f'.files, id);
    var file := f.files[id];
    forall i | 0 <= i < |file.ordered|
      ensures SameAt(f.world, f'.world, file.ordered[i].id)
    {
      assert Names(file, file.ordered[i].id);
      assert !Names(st, file.ordered[i].id);
    }
  }

  lemma StartKeeps(f: Fleet, other: string, plan: Plan, id: string, env: Environment)
    requires SavedDegraded(f, id) && Placed(f.world, f.files[id]) && other !in f.files
    requires !PlanOld(f.world, plan) || !Shares(Ordered(plan.nodes, plan.order), f.files[id])
    ensures Kept(StartSpec(f, other, plan, env).0, id)
  {
    hide Ordered;
    if PlanOld(f.world, plan) {
      StartFramed(f, other, plan, env);
      PlacedElsewhere(f, StartSpec(f, other, plan, env).0, Fresh(other, plan, 0), id);
    } else {
      StalePreflight(f, plan, |plan.nodes|, env);
    }
  }

  lemma ContinueOtherKeeps(f: Fleet, other: string, reasoned: bool, id: string, env: Environment)
    requires Sound(f) && SavedDegraded(f, id) && Placed(f.world, f.files[id]) && other != id
    requires SavedDegraded(f, other) && f.files[other].nextNode < |f.files[other].ordered| ==>
               !Shares(f.files[other].ordered, f.files[id])
    ensures Kept(ContinueSpec(f, other, reasoned, env).0, id)
  {
    if SavedDegraded(f, other) && f.files[other].nextNode < |f.files[other].ordered| {
      ContinueFramed(f, other, reasoned, env);
      PlacedElsewhere(f, ContinueSpec(f, other, reasoned, env).0, f.files[other], id);
    }
  }

  lemma OwnContinueKeeps(f: Fleet, id: string, reasoned: bool, env: Environment)
    requires Sound(f) && SavedDegraded(f, id) && Placed(f.world, f.files[id])
    requires f.files[id].plan.onDegraded.Pause? || f.files[id].nextNode == |f.files[id].ordered|
    ensures Kept(ContinueSpec(f, id, reasoned, env).0, id)
  {
    var (f1, healthy) := FabricChecked(f, id, env);
    var st := Logged(f.files[id].(status := Running), "", Continued);
    var f2 := Wrote(f1, st, env);
    if reasoned && healthy && Succeeds(f1, env) && st.nextNode < |st.ordered| {
      AdvanceEndsWell(f2, st, env);
      AdvanceSaves(f2, st, env);
    }
  }

  lemma RollbackNodeKeeps(f: Fleet, other: string, node: string, valid: bool, id: string, env: Environment)
    requires Sound(f) && SavedDegraded(f, id) && Placed(f.world, f.files[id])
    requires other in f.files && Names(f.files[other], node) ==> !valid || !Names(f.files[id], node)
    ensures Kept(RollbackNodeSpec(f, other, node, valid, env).0, id)
  {
    var file := f.files[id];
    assert forall i :: 0 <= i < |file.ordered| ==> Names(file, file.ordered[i].id);
  }

  // ------------------------------------------------------------ how it is spoiled

  /** A release that is neither the rollout's new one nor its old one. */
  function Stray(st: State): (r: Release)
    ensures r != Release(st.plan.version, st.plan.digest) && r.version != st.plan.rollbackVersion
  {
    var r := Release(st.plan.version + st.plan.rollbackVersion + "?", "");
    assert |r.version| > |st.plan.version| && |r.version| > |st.plan.rollbackVersion|;
    r
  }

  predicate At(world: map<string, Release>, node: string, release: Release) {
    node in world && world[node] == release
  }

  lemma StrayNode(f: Fleet, id: string, node: string, stray: Release)
    requires SavedDegraded(f, id) && Names(f.files[id], node) && At(f.world, node, stray)
    requires stray != Release(f.files[id].plan.version, f.files[id].plan.digest)
    requires stray.version != f.files[id].plan.rollbackVersion
    ensures !Kept(f, id)
  {
    var st := f.files[id];
    var i :| 0 <= i < |st.ordered| && st.ordered[i].id == node;
    assert !IsNew(f.world, st.plan, st.ordered[i]) && !IsOld(f.world, st.plan, st.ordered[i]);
  }

  /** From call `doom` on everything fails and leaves its node astray; before, all is well. */
  function Doomed(plan: Plan, doom: nat, stray: Release): Environment {
    (n: nat) => if n < doom then Answer(true, Release(plan.version, plan.digest), false)
        else Answer(false, stray, false)
  }

  /** A rollback in which every call fails leaves every node astray. */
  lemma {:induction false} FailingRollback(f: Fleet, st: State, count: nat, env: Environment, stray: Release)
    requires count <= |st.ordered| && forall k :: k >= |f.calls| ==> env(k) == Answer(false, stray, false)
    ensures var f' := RollbackNodes(f, st, count, env).0;
            && (forall i :: 0 <= i < count ==> At(f'.world, st.ordered[i].id, stray))
            && (forall node :: At(f.world, node, stray) ==> At(f'.world, node, stray))
            && |f'.calls| >= |f.calls|
    decreases count
  {
    if count > 0 {
      var (f1, st1, e1) := RollbackOne(f, st, count - 1, env);
      assert At(f1.world, st.ordered[count - 1].id, stray);
      FailingRollback(f1, st1, count - 1, env, stray);
    }
  }

  lemma FailingRollbackInstalled(f: Fleet, st: State, count: nat, cause: Verdict, env: Environment, stray: Release)
    requires count <= |st.ordered| && forall k :: k >= |f.calls| ==> env(k) == Answer(false, stray, false)
    ensures var f' := RollbackInstalled(f, st, count, cause, env).0;
            f'.files == f.files && forall i :: 0 <= i < count ==> At(f'.world, st.ordered[i].id, stray)
  {
    FailingRollback(f, st, count, env, stray);
    RollbackNodesFramed(f, st, count, env);
    hide RollbackNodes;
  }

  /** A stage in which every call succeeds takes six calls and moves on. */
  lemma SmoothStage(f: Fleet, st: State, env: Environment)
    requires st.nextNode < |st.ordered|
    requires forall k :: |f.calls| <= k < |f.calls| + 6 ==>
               env(k) == Answer(true, Release(st.plan.version, st.plan.digest), false)
    ensures var (f', st', stopped) := AdvanceOne(f, st, env);
            stopped.None? && SameRollout(st, st') && st'.nextNode == st.nextNode + 1 && |f'.calls| == |f.calls| + 6
  {
    hide RollbackInstalled;
  }

  /** If all is well until the last install, which fails with every later call, then
      every node of the rollout is left astray. */
  lemma {:induction false} DoomedAdvance(f: Fleet, st: State, doom: nat, stray: Release)
    requires st.nextNode < |st.ordered| && doom == |f.calls| + 6 * (|st.ordered| - 1 - st.nextNode) + 1
    ensures var f' := Advanced(f, st, Doomed(st.plan, doom, stray)).0;
            forall i :: 0 <= i < |st.ordered| ==> At(f'.world, st.ordered[i].id, stray)
    decreases |st.ordered| - st.nextNode
  {
    var env := Doomed(st.plan, doom, stray);
    if st.nextNode == |st.ordered| - 1 {
      DoomedStage(f, st, doom, stray);
    } else {
      SmoothStage(f, st, env);
      hide AdvanceOne;
      var (f1, st1, stopped) := AdvanceOne(f, st, env);
      DoomedAdvance(f1, st1, doom, stray);
    }
  }

  lemma DoomedStage(f: Fleet, st: State, doom: nat, stray: Release)
    requires st.nextNode + 1 == |st.ordered| && doom == |f.calls| + 1
    ensures var (f', st', stopped) := AdvanceOne(f, st, Doomed(st.plan, doom, stray));
            stopped.Some? && forall i :: 0 <= i < |st.ordered| ==> At(f'.world, st.ordered[i].id, stray)
  {
    hide RollbackInstalled;
    var env := Doomed(st.plan, doom, stray);
    var node := st.ordered[st.nextNode].id;
    var st0 := Logged(st, node, InstallStarted);
    var (f1, ok) := Installed(Wrote(f, st0, env), st.id, node, env);
    var st1 := Logged(st0.(status := Failed), node, InstallFailed);
    var f2 := Wrote(f1, st1, env);
    FailingRollbackInstalled(f2, st1, st.nextNode + 1, InstallError, env, stray);
  }

  lemma {:induction false} DoomedPreflight(f: Fleet, plan: Plan, n: nat, doom: nat, stray: Release)
    requires n <= |plan.nodes| && PlanOld(f.world, plan) && doom >= |f.calls| + n
    ensures var (f', clear) := Preflight(f, plan, n, Doomed(plan, doom, stray));
            clear && f'.world == f.world && f'.files == f.files && |f'.calls| == |f.calls| + n
  {
    if n > 0 {
      DoomedPreflight(f, plan, n - 1, doom, stray);
      assert IsOld(f.world, plan, plan.nodes[n - 1]);
    }
  }

  lemma StartSpoils(f: Fleet, other: string, plan: Plan, id: string)
    requires SavedDegraded(f, id) && other !in f.files && PlanOld(f.world, plan)
    requires Shares(Ordered(plan.nodes, plan.order), f.files[id])
    ensures exists env: Environment :: !Kept(StartSpec(f, other, plan, env).0, id)
  {
    hide Ordered, Advanced, Preflight;
    var stray := Stray(f.files[id]);
    var ordered := Ordered(plan.nodes, plan.order);
    var i :| 0 <= i < |ordered| && Names(f.files[id], ordered[i].id);
    var doom := |f.calls| + |plan.nodes| + 1 + 6 * (|ordered| - 1) + 1;
    var env := Doomed(plan, doom, stray);
    DoomedPreflight(f, plan, |plan.nodes|, doom, stray);
    var f1 := Preflight(f, plan, |plan.nodes|, env).0;
    var st := Fresh(other, plan, |f1.calls|);
    DoomedAdvance(Wrote(f1, st, env), st, doom, stray);
    StartFramed(f, other, plan, env);
    var f' := StartSpec(f, other, plan, env).0;
    assert SameAt(f.files, f'.files, id);
    StrayNode(f', id, ordered[i].id, stray);
  }

  lemma ContinueSpoils(f: Fleet, other: string, id: string)
    requires Sound(f) && SavedDegraded(f, id) && SavedDegraded(f, other) && other != id
    requires f.files[other].nextNode < |f.files[other].ordered| && Shares(f.files[other].ordered, f.files[id])
    ensures exists env: Environment :: !Kept(ContinueSpec(f, other, true, env).0, id)
  {
    hide Advanced;
    var stray := Stray(f.files[id]);
    var loaded := f.files[other];
    var i :| 0 <= i < |loaded.ordered| && Names(f.files[id], loaded.ordered[i].id);
    var doom := |f.calls| + 2 + 6 * (|loaded.ordered| - 1 - loaded.nextNode) + 1;
    var env := Doomed(loaded.plan, doom, stray);
    var f1 := FabricChecked(f, other, env).0;
    var st := Logged(loaded.(status := Running), "", Continued);
    DoomedAdvance(Wrote(f1, st, env), st, doom, stray);
    ContinueFramed(f, other, true, env);
    var f' := ContinueSpec(f, other, true, env).0;
    assert SameAt(f.files, f'.files, id);
    StrayNode(f', id, loaded.ordered[i].id, stray);
  }

  /** One more node is upgraded, the fabric fails, and the automatic rollback neither
      succeeds nor gets to save its outcome. `b` is the first call of the stage. */
  function Derailed(plan: Plan, b: nat, stray: Release): Environment {
    (n: nat) => if n < b + 4 || n == b + 5 then Answer(true, Release(plan.version, plan.digest), false)
                else Answer(false, stray, false)
  }

  lemma SmoothInstall(f: Fleet, st: State, env: Environment)
    requires st.nextNode < |st.ordered|
    requires forall k :: |f.calls| <= k < |f.calls| + 4 ==>
               env(k) == Answer(true, Release(st.plan.version, st.plan.digest), false)
    ensures var (f', st', stopped) := InstallNext(f, st, env);
            stopped.None? && SameRollout(st, st') && st'.nextNode == st.nextNode + 1 && |f'.calls| == |f.calls| + 4
  {
    hide RollbackInstalled;
  }

  lemma DerailedGate(f: Fleet, st: State, node: string, env: Environment, stray: Release)
    requires 0 < st.nextNode <= |st.ordered| && st.plan.onDegraded.RollBack?
    requires env(|f.calls|) == Answer(false, stray, false) && !env(|f.calls| + 1).dies && env(|f.calls| + 1).ok
    requires forall k :: k >= |f.calls| + 2 ==> env(k) == Answer(false, stray, false)
    ensures var (f', st', stopped) := PassGate(f, st, node, env);
            && stopped.Some? && SavedDegraded(f', st.id) && SameRollout(f'.files[st.id], st)
            && At(f'.world, st.ordered[0].id, stray)
  {
    hide RollbackInstalled;
    var f1 := FabricChecked(f, st.id, env).0;
    var st1 := Logged(st.(status := Degraded, degradedNode := node), node, FabricDegraded);
    FailingRollbackInstalled(Wrote(f1, st1, env), st1, st.nextNode, FabricError, env, stray);
  }

  lemma DerailedAdvance(f: Fleet, st: State, stray: Release)
    requires st.nextNode < |st.ordered| && st.plan.onDegraded.RollBack?
    ensures var f' := Advanced(f, st, Derailed(st.plan, |f.calls|, stray)).0;
            && SavedDegraded(f', st.id) && SameRollout(f'.files[st.id], st)
            && At(f'.world, st.ordered[0].id, stray)
  {
    hide InstallNext, PassGate;
    var env := Derailed(st.plan, |f.calls|, stray);
    SmoothInstall(f, st, env);
    var (f1, st1, stopped) := InstallNext(f, st, env);
    DerailedGate(f1, st1, st.ordered[st.nextNode].id, env, stray);
  }

  lemma OwnContinueSpoils(f: Fleet, id: string)
    requires Sound(f) && SavedDegraded(f, id)
    requires f.files[id].nextNode < |f.files[id].ordered| && f.files[id].plan.onDegraded.RollBack?
    ensures exists env: Environment :: !Kept(ContinueSpec(f, id, true, env).0, id)
  {
    hide Advanced;
    var loaded := f.files[id];
    var stray := Stray(loaded);
    var env := Derailed(loaded.plan, |f.calls| + 2, stray);
    var f1 := FabricChecked(f, id, env).0;
    var st := Logged(loaded.(status := Running), "", Continued);
    DerailedAdvance(Wrote(f1, st, env), st, stray);
    var f' := ContinueSpec(f, id, true, env).0;
    assert Names(f'.files[id], st.ordered[0].id);
    StrayNode(f', id, st.ordered[0].id, stray);
  }

  lemma RollbackNodeSpoils(f: Fleet, other: string, node: string, id: string)
    requires SavedDegraded(f, id) && other in f.files && Names(f.files[other], node) && Names(f.files[id], node)
    ensures exists env: Environment :: !Kept(RollbackNodeSpec(f, other, node, true, env).0, id)
  {
    var stray := Stray(f.files[id]);
    var env: Environment := (n: nat) => Answer(false, stray, false);
    var f' := RollbackNodeSpec(f, other, node, true, env).0;
    StrayNode(f', id, node, stray);
  }

  // ------------------------------------------------------------ the exact condition

  lemma CommandKeeps(f: Fleet, id: string, c: Command, env: Environment)
    requires Sound(f) && SavedDegraded(f, id) && Placed(f.world, f.files[id]) && !MayDisturb(f, c, id)
    ensures Kept(Execute(f, c, env).0, id)
  {
    hide StartSpec, ContinueSpec, RollbackNodeSpec, Ordered;
    match c
    case Start(other, plan) =>
      if other !in f.files {
        StartKeeps(f, other, plan, id, env);
      }
    case Continue(other, reasoned) =>
      if !reasoned {
        RefusedContinue(f, other, env);
      } else if other == id {
        OwnContinueKeeps(f, id, reasoned, env);
      } else {
        ContinueOtherKeeps(f, other, reasoned, id, env);
      }
    case Abort(_, _) =>
    case RollbackNode(other, node, valid) => RollbackNodeKeeps(f, other, node, valid, id, env);
  }

  lemma RefusedContinue(f: Fleet, id: string, env: Environment)
    ensures ContinueSpec(f, id, false, env).0 == f
  {
  }

  lemma CommandSpoils(f: Fleet, id: string, c: Command)
    requires Sound(f) && SavedDegraded(f, id) && MayDisturb(f, c, id)
    ensures exists env: Environment :: !Kept(Execute(f, c, env).0, id)
  {
    hide StartSpec, ContinueSpec, RollbackNodeSpec, Ordered, Kept;
    match c
    case Start(other, plan) =>
      StartSpoils(f, other, plan, id);
      var env: Environment :| !Kept(StartSpec(f, other, plan, env).0, id);
      assert !Kept(Execute(f, c, env).0, id);
    case Continue(other, reasoned) =>
      if other == id {
        OwnContinueSpoils(f, id);
      } else {
        ContinueSpoils(f, other, id);
      }
      var env: Environment :| !Kept(ContinueSpec(f, other, true, env).0, id);
      assert !Kept(Execute(f, c, env).0, id);
    case RollbackNode(other, node, valid) =>
      RollbackNodeSpoils(f, other, node, id);
      var env: Environment :| !Kept(RollbackNodeSpec(f, other, node, true, env).0, id);
      assert !Kept(Execute(f, c, env).0, id);
  }

  /** A paused rollout stays exactly where its file says, or stops being paused on file,
      whatever a command meets, if and only if the command cannot call one of its nodes:
      it is no start or continue that shares a node, no rollback of a node, and not its
      own continue with an automatic rollback ahead. */
  lemma PlacementKeptIff(f: Fleet, id: string, c: Command)
    requires Sound(f) && SavedDegraded(f, id) && Placed(f.world, f.files[id])
    ensures (forall env: Environment :: Kept(Execute(f, c, env).0, id)) <==> !MayDisturb(f, c, id)
  {
    hide StartSpec, ContinueSpec, RollbackNodeSpec, Ordered, Kept;
    if MayDisturb(f, c, id) {
      CommandSpoils(f, id, c);
    } else {
      forall env: Environment
        ensures Kept(Execute(f, c, env).0, id)
      {
        CommandKeeps(f, id, c, env);
      }
    }
  }

  // ------------------------------------------------------- runs in which it happens

  const OLD := Release("v1", "old")
  const NEW := Release("v2", "new")
  const NEXT := Release("v3", "next")

  function SoloDraft(node: string, from: Release, to: Release, onDegraded: OnDegraded): Draft {
    Draft(true, to.version, to.digest, from.version, Some(Declared), Some(onDegraded),
          [Node(node, "linux-amd64", [], "controller", "", true)], ["check"])
  }

  function SoloPlan(node: string, from: Release, to: Release, onDegraded: OnDegraded): Plan {
    Plan(to.version, to.digest, from.version, Declared, onDegraded,
         [Node(node, "linux-amd64", [], "controller", "", true)], ["check"])
  }

  lemma SoloValid(node: string, from: Release, to: Release, onDegraded: OnDegraded)
    requires node != ""
    ensures Validated(SoloPlan(node, from, to, onDegraded))
  {
    var d := SoloDraft(node, from, to, onDegraded);
    assert NodeError(d.nodes, 0).None?;
    assert d.nodes[..0] == [];
    assert Validate(d) == Ok(SoloPlan(node, from, to, onDegraded));
  }

  /** Calls fail exactly at `fails`; call `at` leaves its node at `there`, the others at the new release. */
  function Script(fails: set<nat>, at: nat, there: Release): Environment {
    (n: nat) => Answer(n !in fails, if n == at then there else NEW, false)
  }

  /** The calls of a start of one node up to its fabric check. */
  function SoloCalls(id: string, node: string): seq<Call> {
    [Read(node, true), Write(id, true), Write(id, true), Install(id, node, true), Read(node, true), Write(id, true)]
  }

  /** A rollout of one node: installed at call 3, its fabric check fails at call 6. */
  lemma SoloReachesGate(world: map<string, Release>, id: string, node: string, onDegraded: OnDegraded, env: Environment)
    requires At(world, node, OLD) && env(3).after == NEW
    requires forall k :: 0 <= k < 6 ==> !env(k).dies && env(k).ok
    ensures var plan := SoloPlan(node, OLD, NEW, onDegraded);
            var (f1, clear) := Preflight(NewFleet(world), plan, 1, env);
            var st := Fresh(id, plan, 1);
            var (f', st', stopped) := InstallNext(Wrote(f1, st, env), st, env);
            && clear && |f1.calls| == 1 && Succeeds(f1, env) && stopped.None?
            && f' == Fleet(world[node := NEW], SoloCalls(id, node), map[id := st'])
            && SameRollout(st', st) && st'.nextNode == 1 && st'.status.Running?
  {
    hide RollbackInstalled;
    var plan := SoloPlan(node, OLD, NEW, onDegraded);
    var (f0, clear0) := Preflight(NewFleet(world), plan, 0, env);
    assert f0 == NewFleet(world) && clear0;
    var (f1, clear) := Preflight(NewFleet(world), plan, 1, env);
    assert f1 == Fleet(world, [Read(node, true)], map[]);
  }

  /** Saved as degraded by call 7, the new release on the node. */
  lemma SoloPauses(world: map<string, Release>, id: string, node: string, env: Environment)
    requires At(world, node, OLD) && env(3).after == NEW
    requires forall k :: 0 <= k < 9 ==> !env(k).dies && (k < 8 ==> (env(k).ok <==> k != 6))
    ensures var plan := SoloPlan(node, OLD, NEW, Pause);
            var f' := After(NewFleet(world), Start(id, plan), env);
            && f'.world == world[node := NEW]
            && f'.calls == SoloCalls(id, node) + [Fabric(id, false), Write(id, true)]
            && f'.files.Keys == {id} && SavedDegraded(f', id)
            && SameRollout(f'.files[id], Fresh(id, plan, 1)) && f'.files[id].nextNode == 1
  {
    SoloReachesGate(world, id, node, Pause, env);
    hide InstallNext, Preflight;
  }

  /** A rollback-node command that fails on its upgraded node, having moved it, leaves a
      rollout that can be continued to a false "complete". */
  lemma FailedRollbackNodeLies()
    ensures var plan := SoloPlan("a", OLD, NEW, Pause);
            var f := Run(NewFleet(map["a" := OLD]), [Start("r", plan), RollbackNode("r", "a", true)],
                         Script({6, 8}, 8, OLD));
            Validated(plan) && SavedDegraded(f, "r") && !ContinueHonest(f, "r", Smooth(plan))
  {
    var plan := SoloPlan("a", OLD, NEW, Pause);
    var env := Script({6, 8}, 8, OLD);
    SoloValid("a", OLD, NEW, Pause);
    SoloPauses(map["a" := OLD], "r", "a", env);
    hide StartSpec;
    var f1 := After(NewFleet(map["a" := OLD]), Start("r", plan), env);
    assert f1.files["r"].ordered[0].id == "a";
    assert Names(f1.files["r"], "a");
    var f2 := After(f1, RollbackNode("r", "a", true), env);
    assert f2.world["a"] == OLD && f2.files == f1.files;
    TwoCommands(NewFleet(map["a" := OLD]), Start("r", plan), RollbackNode("r", "a", true), env);
    assert !IsNew(f2.world, plan, f2.files["r"].ordered[0]);
    DishonestContinue(f2, "r");
  }

  lemma TwoCommands(f: Fleet, c: Command, d: Command, env: Environment)
    ensures Run(f, [c, d], env) == After(After(f, c, env), d, env)
  {
    assert [c, d][1..] == [d] && [d][1..] == [];
    assert Run(After(f, c, env), [d], env) == Run(After(After(f, c, env), d, env), [], env);
  }

  /** An automatic rollback that worked but could not save its outcome does the same. */
  lemma UnsavedRollbackLies()
    ensures var plan := SoloPlan("a", OLD, NEW, RollBack);
            var f := Run(NewFleet(map["a" := OLD]), [Start("r", plan)], Script({6, 10}, 8, OLD));
            Validated(plan) && SavedDegraded(f, "r") && !ContinueHonest(f, "r", Smooth(plan))
  {
    var plan := SoloPlan("a", OLD, NEW, RollBack);
    var env := Script({6, 10}, 8, OLD);
    SoloValid("a", OLD, NEW, RollBack);
    var f := NewFleet(map["a" := OLD]);
    SoloReachesGate(f.world, "r", "a", RollBack, env);
    hide InstallNext, Preflight;
    var st := Fresh("r", plan, 1);
    var (f1, st1, stopped1) := InstallNext(Wrote(Preflight(f, plan, 1, env).0, st, env), st, env);
    UnsavedRollback(f1, st1, env);
    var f' := After(f, Start("r", plan), env);
    assert Run(f, [Start("r", plan)], env) == f';
    assert !IsNew(f'.world, plan, f'.files["r"].ordered[0]);
    DishonestContinue(f', "r");
  }

  lemma UnsavedRollback(f: Fleet, st: State, env: Environment)
    requires |st.ordered| == 1 && st.nextNode == 1 && |f.calls| == 6 && st.plan.onDegraded.RollBack?
    requires env == Script({6, 10}, 8, OLD) && st.plan.rollbackVersion == OLD.version
    ensures var (f', st', stopped) := PassGate(f, st, st.ordered[0].id, env);
            && stopped.Some? && |f'.calls| == 11 && SavedDegraded(f', st.id)
            && SameRollout(f'.files[st.id], st) && f'.files[st.id].nextNode == 1
            && At(f'.world, st.ordered[0].id, OLD)
  {
    var node := st.ordered[0].id;
    var f1 := FabricChecked(f, st.id, env).0;
    var st1 := Logged(st.(status := Degraded, degradedNode := node), node, FabricDegraded);
    var f2 := Wrote(f1, st1, env);
    assert |f2.calls| == 8;
    var (f3, st3, e3) := RollbackOne(f2, st1, 0, env);
    assert |f3.calls| == 10 && At(f3.world, node, OLD) && f3.files == f2.files;
    assert RollbackNodes(f3, st3, 0, env).0 == f3;
    assert RollbackNodes(f2, st1, 1, env).0 == f3;
  }

  /** A later rollout that upgrades the node of a paused one makes continuing the paused
      one end in a false "complete". */
  lemma OtherRolloutLies()
    ensures var plan := SoloPlan("a", OLD, NEW, Pause);
            var next := SoloPlan("a", NEW, NEXT, Pause);
            var f := Run(NewFleet(map["a" := OLD]), [Start("r", plan), Start("q", next)], Script({6}, 11, NEXT));
            Validated(plan) && Validated(next) && SavedDegraded(f, "r") && !ContinueHonest(f, "r", Smooth(plan))
  {
    var plan := SoloPlan("a", OLD, NEW, Pause);
    var next := SoloPlan("a", NEW, NEXT, Pause);
    var env := Script({6}, 11, NEXT);
    SoloValid("a", OLD, NEW, Pause);
    SoloValid("a", NEW, NEXT, Pause);
    var f := NewFleet(map["a" := OLD]);
    SoloPauses(f.world, "r", "a", env);
    TwoCommands(f, Start("r", plan), Start("q", next), env);
    hide StartSpec;
    var f1 := After(f, Start("r", plan), env);
    SecondInstall(f1, next, env, NEXT);
    StartFramed(f1, "q", next, env);
    var f2 := StartSpec(f1, "q", next, env).0;
    assert SameAt(f1.files, f2.files, "r");
    assert !IsNew(f2.world, plan, f2.files["r"].ordered[0]);
    var f3 := After(f1, Start("q", next), env);
    assert f3.world == f2.world && f3.files == f2.files;
    DishonestContinue(f3, "r");
  }

  /** A second start, after eight calls, that goes through: its install is call 11. */
  lemma SecondInstall(f: Fleet, plan: Plan, env: Environment, to: Release)
    requires |plan.nodes| == 1 && plan.order.Declared? && PlanOld(f.world, plan) && |f.calls| == 8
    requires forall k :: k >= 8 ==> !env(k).dies && env(k).ok
    requires env(11).after == to == Release(plan.version, plan.digest)
    ensures var f' := StartSpec(f, "q", plan, env).0; var node := plan.nodes[0].id;
            && At(f'.world, node, to)
            && f.calls + [Read(node, true), Write("q", true), Write("q", true), Install("q", node, true)] <= f'.calls
  {
    hide RollbackInstalled;
    var node := plan.nodes[0].id;
    assert IsOld(f.world, plan, plan.nodes[0]);
    var (f0, clear0) := Preflight(f, plan, 0, env);
    assert f0 == f && clear0;
    var (f1, clear) := Preflight(f, plan, 1, env);
    assert f1 == f.(calls := f.calls + [Read(node, true)]) && clear;
    var st := Fresh("q", plan, 9);
    var f2 := Wrote(f1, st, env);
    var (f3, st3, stopped3) := InstallNext(f2, st, env);
    assert stopped3.None? && At(f3.world, node, to) && |f3.calls| == 14;
    assert f2.calls + [Write("q", true), Install("q", node, true)] <= f3.calls;
    hide InstallNext;
    var (f4, st4, stopped4) := PassGate(f3, st3, node, env);
    assert stopped4.None? && f4.world == f3.world && f3.calls <= f4.calls;
    hide PassGate;
    assert AdvanceOne(f2, st, env) == (f4, st4, None);
    assert Advanced(f2, st, env) == Advanced(f4, st4, env);
    assert st4.nextNode == 1 && Advanced(f4, st4, env).0.world == f4.world
           && f4.calls <= Advanced(f4, st4, env).0.calls;
  }

  /** One rollout pauses after its install, another starts: no check passes between the
      two installs. */
  const UNGATED: seq<Call> :=
    [Read("a", true), Write("r", true), Write("r", true), Install("r", "a", true), Read("a", true), Write("r", true),
     Fabric("r", false), Write("r", true),
     Read("b", true), Write("q", true), Write("q", true), Install("q", "b", true)]

  lemma UngatedHistory(calls: seq<Call>)
    requires UNGATED <= calls
    ensures Installs(calls[3], None) && Installs(calls[11], None) && !AllGated(calls, None)
  {
    assert forall k :: 0 <= k < 12 ==> calls[k] == UNGATED[k];
    assert forall k :: 3 < k < 11 ==> !Passes(calls[k], None);
    if AllGated(calls, None) {
      GateMeansChecked(calls, None, 3, 11);
    }
  }

  /** Across rollouts the gate does fail. */
  lemma OtherRolloutUngated()
    ensures var first := SoloPlan("a", OLD, NEW, Pause);
            var second := SoloPlan("b", OLD, NEW, Pause);
            var f := Run(NewFleet(map["a" := OLD, "b" := OLD]), [Start("r", first), Start("q", second)],
                         Script({6}, 0, OLD));
            Validated(first) && Validated(second) && UNGATED <= f.calls && !AllGated(f.calls, None)
  {
    hide StartSpec, AllGated, SoloPlan;
    var first := SoloPlan("a", OLD, NEW, Pause);
    var second := SoloPlan("b", OLD, NEW, Pause);
    var env := Script({6}, 0, OLD);
    SoloValid("a", OLD, NEW, Pause);
    SoloValid("b", OLD, NEW, Pause);
    var f := NewFleet(map["a" := OLD, "b" := OLD]);
    SoloPauses(f.world, "r", "a", env);
    TwoCommands(f, Start("r", first), Start("q", second), env);
    SecondStarts(After(f, Start("r", first), env), env);
    UngatedHistory(After(After(f, Start("r", first), env), Start("q", second), env).calls);
  }

  lemma SecondStarts(f: Fleet, env: Environment)
    requires f.calls == SoloCalls("r", "a") + [Fabric("r", false), Write("r", true)] && "q" !in f.files
    requires At(f.world, "b", OLD) && env == Script({6}, 0, OLD)
    ensures UNGATED <= After(f, Start("q", SoloPlan("b", OLD, NEW, Pause)), env).calls
  {
    hide StartSpec;
    var second := SoloPlan("b", OLD, NEW, Pause);
    SecondInstall(f, second, env, NEW);
    assert f.calls + [Read("b", true), Write("q", true), Write("q", true), Install("q", "b", true)] == UNGATED;
  }
}
