/** Any number of rollouts over the same fleet: what every run of operator commands
    keeps, with processes dying at any call. */
module RolloutRuns {
  import opened Common
  import opened Rollout
  import opened RolloutTheorems
  import opened RolloutGate

  // ------------------------------------------------------------------------ runs

  datatype Command =
    | Start(id: string, plan: Plan)
    | Continue(id: string, reasoned: bool)
    | Abort(id: string, reasoned: bool)
    | RollbackNode(id: string, node: string, valid: bool)

  /** What a command does and answers. Rollout ids are fresh: a start under the id of an
      existing file does not happen. */
  function Execute(f: Fleet, c: Command, env: Environment): (Fleet, Option<State>, Verdict) {
    match c
    case Start(id, plan) => if id in f.files then (f, None, Refused) else StartSpec(f, id, plan, env)
    case Continue(id, reasoned) => ContinueSpec(f, id, reasoned, env)
    case Abort(id, reasoned) => AbortSpec(f, id, reasoned, env)
    case RollbackNode(id, node, valid) => RollbackNodeSpec(f, id, node, valid, env)
  }

  /** If the process died on the way, its answer is lost and the history says so. */
  function After(f: Fleet, c: Command, env: Environment): Fleet {
    var f' := Execute(f, c, env).0;
    if Dead(f', env) then f'.(calls := f'.calls + [Crashed]) else f'
  }

  function Run(f: Fleet, commands: seq<Command>, env: Environment): Fleet
    decreases |commands|
  {
    if commands == [] then f else Run(After(f, commands[0], env), commands[1..], env)
  }

  ghost predicate CommandValid(c: Command) {
    c.Start? ==> Validated(c.plan)
  }

  /** A fleet no rollout has touched, its nodes at any releases. */
  function NewFleet(world: map<string, Release>): Fleet {
    Fleet(world, [], map[])
  }

  // ------------------------------------------------------------------- invariant

  predicate ChangesNode(call: Call) {
    call.Install? || call.RollbackCall?
  }

  /** Since the rollout started nobody but its own installs called one of its nodes: no
      other rollout, and no rollback. */
  ghost predicate Undisturbed(calls: seq<Call>, st: State) {
    forall k :: st.startedAt <= k < |calls| && ChangesNode(calls[k]) && Names(st, calls[k].node) ==>
      calls[k].Install? && calls[k].rollout == st.id
  }

  ghost predicate WellFormed(st: State, id: string, calls: seq<Call>) {
    && st.id == id && WellOrdered(st) && st.nextNode <= |st.ordered| && st.startedAt <= |calls|
    && (st.status.Complete? ==> st.nextNode == |st.ordered|)
  }

  /** What a file says about the nodes: those it counts run the new release, and if it is
      paused the others still run the old one. */
  ghost predicate Accurate(world: map<string, Release>, st: State) {
    PrefixNew(world, st) && (st.status.Degraded? ==> OldFrom(world, st, st.nextNode))
  }

  ghost predicate Honest(f: Fleet, st: State) {
    Undisturbed(f.calls, st) ==> Accurate(f.world, st)
  }

  /** Every file of an undisturbed rollout tells the truth. */
  ghost predicate Sound(f: Fleet) {
    forall id :: id in f.files ==> WellFormed(f.files[id], id, f.calls) && Honest(f, f.files[id])
  }

  lemma FewerCalls(calls: seq<Call>, longer: seq<Call>, st: State, st': State)
    requires calls <= longer && SameRollout(st, st') && Undisturbed(longer, st')
    ensures Undisturbed(calls, st)
  {
    forall k | st.startedAt <= k < |calls| && ChangesNode(calls[k]) && Names(st, calls[k].node)
      ensures calls[k].Install? && calls[k].rollout == st.id
    {
      assert calls[k] == longer[k];
      assert Names(st', longer[k].node);
    }
  }

  /** A call that changes no node. */
  lemma QuietCall(f: Fleet, call: Call)
    requires Sound(f) && !ChangesNode(call)
    ensures Sound(f.(calls := f.calls + [call]))
  {
    var f' := f.(calls := f.calls + [call]);
    forall id | id in f.files
      ensures Honest(f', f.files[id])
    {
      if Undisturbed(f'.calls, f.files[id]) {
        FewerCalls(f.calls, f'.calls, f.files[id], f.files[id]);
      }
    }
  }

  lemma WroteSound(f: Fleet, st: State, env: Environment)
    requires Sound(f) && WellFormed(st, st.id, f.calls) && Honest(f, st)
    ensures Sound(Wrote(f, st, env))
  {
    if !Dead(f, env) {
      SavingSound(f, st);
      QuietCall(f, Write(st.id, Succeeds(f, env)));
      QuietCall(f.(files := f.files[st.id := st]), Write(st.id, Succeeds(f, env)));
    }
  }

  lemma SavingSound(f: Fleet, st: State)
    requires Sound(f) && WellFormed(st, st.id, f.calls) && Honest(f, st)
    ensures Sound(f.(files := f.files[st.id := st]))
  {
  }

  lemma ReadSound(f: Fleet, node: string, env: Environment)
    requires Sound(f)
    ensures Sound(ReadBack(f, node, env).0)
  {
    QuietCall(f, Read(node, Succeeds(f, env) && node in f.world));
  }

  lemma FabricSound(f: Fleet, rollout: string, env: Environment)
    requires Sound(f)
    ensures Sound(FabricChecked(f, rollout, env).0)
  {
    QuietCall(f, Fabric(rollout, Succeeds(f, env)));
  }

  /** A file whose rollout does not own the node, or is disturbed by the call, is safe. */
  lemma FileSurvivesCall(f: Fleet, call: Call, after: Release, st: State)
    requires Honest(f, st) && ChangesNode(call) && st.startedAt <= |f.calls|
    requires !Names(st, call.node) || !(call.Install? && call.rollout == st.id)
    ensures Honest(f.(world := f.world[call.node := after], calls := f.calls + [call]), st)
  {
    var f' := f.(world := f.world[call.node := after], calls := f.calls + [call]);
    if Undisturbed(f'.calls, st) {
      assert f'.calls[|f.calls|] == call;
      FewerCalls(f.calls, f'.calls, st, st);
      assert forall i :: 0 <= i < |st.ordered| ==> Names(st, st.ordered[i].id);
    }
  }

  lemma RevertedSound(f: Fleet, rollout: string, node: string, env: Environment)
    requires Sound(f)
    ensures Sound(Reverted(f, rollout, node, env).0)
  {
    hide Honest;
    if !Dead(f, env) {
      var a := env(|f.calls|);
      forall id | id in f.files
        ensures Honest(Reverted(f, rollout, node, env).0, f.files[id])
      {
        FileSurvivesCall(f, RollbackCall(rollout, node, a.ok), a.after, f.files[id]);
      }
    }
  }

  /** A rollout under way: its file lags behind but is not paused, and what it believes
      of its nodes holds unless it was disturbed. */
  ghost predicate UnderWay(f: Fleet, st: State) {
    && WellFormed(st, st.id, f.calls) && st.status.Running?
    && OnFile(f, st) && !f.files[st.id].status.Degraded? && f.files[st.id].nextNode <= st.nextNode
    && (Undisturbed(f.calls, st) ==> Placed(f.world, st))
  }

  /** Its own next install touches none of the nodes its file counts. */
  lemma OwnFileSurvivesInstall(f: Fleet, st: State, env: Environment)
    requires Sound(f) && UnderWay(f, st) && st.nextNode < |st.ordered|
    ensures Honest(Installed(f, st.id, st.ordered[st.nextNode].id, env).0, f.files[st.id])
  {
    var file := f.files[st.id];
    var f' := Installed(f, st.id, st.ordered[st.nextNode].id, env).0;
    if Undisturbed(f'.calls, file) {
      FewerCalls(f.calls, f'.calls, file, file);
    }
  }

  lemma InstalledSound(f: Fleet, st: State, env: Environment)
    requires Sound(f) && UnderWay(f, st) && st.nextNode < |st.ordered|
    ensures Sound(Installed(f, st.id, st.ordered[st.nextNode].id, env).0)
  {
    OwnFileSurvivesInstall(f, st, env);
    hide Honest, Placed, Undisturbed;
    if !Dead(f, env) {
      var a := env(|f.calls|);
      var node := st.ordered[st.nextNode].id;
      forall id | id in f.files && id != st.id
        ensures Honest(Installed(f, st.id, node, env).0, f.files[id])
      {
        FileSurvivesCall(f, Install(st.id, node, a.ok), a.after, f.files[id]);
      }
    }
  }

  // ------------------------------------------------------------------ rolling back

  lemma RollbackOneSound(f: Fleet, st: State, index: nat, env: Environment)
    requires Sound(f) && index < |st.ordered|
    ensures Sound(RollbackOne(f, st, index, env).0)
  {
    hide Sound;
    var node := st.ordered[index].id;
    RevertedSound(f, st.id, node, env);
    ReadSound(Reverted(f, st.id, node, env).0, node, env);
  }

  lemma {:induction false} RollbackNodesSound(f: Fleet, st: State, count: nat, env: Environment)
    requires Sound(f) && count <= |st.ordered|
    ensures Sound(RollbackNodes(f, st, count, env).0)
    decreases count
  {
    hide Sound, RollbackOne;
    if count > 0 {
      RollbackOneSound(f, st, count - 1, env);
      RollbackOneFramed(f, st, count - 1, env);
      var (f1, st1, e1) := RollbackOne(f, st, count - 1, env);
      RollbackNodesSound(f1, st1, count - 1, env);
    }
  }

  lemma {:induction false} DeadRollback(f: Fleet, st: State, count: nat, env: Environment)
    requires Dead(f, env) && count <= |st.ordered|
    ensures RollbackNodes(f, st, count, env).0 == f
    decreases count
  {
    if count > 0 {
      DeadRollback(f, RollbackOne(f, st, count - 1, env).1, count - 1, env);
    }
  }

  /** A rollback that gets to its first node disturbs its own rollout. */
  lemma RollbackDisturbs(f: Fleet, st: State, count: nat, env: Environment)
    requires 0 < count <= |st.ordered| && st.startedAt <= |f.calls| && !Dead(f, env)
    ensures !Undisturbed(RollbackNodes(f, st, count, env).0.calls, st)
  {
    var node := st.ordered[count - 1].id;
    var call := RollbackCall(st.id, node, env(|f.calls|).ok);
    var (f1, st1, e1) := RollbackOne(f, st, count - 1, env);
    assert f.calls + [call] <= f1.calls;
    assert Names(st, node);
    RollbackNodesFramed(f1, st1, count - 1, env);
    hide RollbackOne;
    var f' := RollbackNodes(f, st, count, env).0;
    assert f1.calls <= f'.calls;
    assert f'.calls[|f.calls|] == call;
  }

  lemma RollbackInstalledSound(f: Fleet, st: State, count: nat, cause: Verdict, env: Environment)
    requires Sound(f) && WellFormed(st, st.id, f.calls) && st.ordered != [] && count > 0
    ensures Sound(RollbackInstalled(f, st, count, cause, env).0)
  {
    var n := if count > |st.ordered| then |st.ordered| else count;
    var (f1, st1, e) := RollbackNodes(f, st, n, env);
    RollbackNodesSound(f, st, n, env);
    RollbackNodesFramed(f, st, n, env);
    var st2 := st1.(status := RolledBack);
    if Dead(f, env) {
      DeadRollback(f, st, n, env);
    } else {
      RollbackDisturbs(f, st, n, env);
      hide RollbackNodes, Sound;
      if Undisturbed(f1.calls, st2) {
        FewerCalls(f1.calls, f1.calls, st, st2);
        assert false;
      }
      WroteSound(f1, st2, env);
    }
  }

  // --------------------------------------------------------------------- advancing

  lemma StillUnderWay(f: Fleet, f': Fleet, st: State, st': State)
    requires UnderWay(f, st) && WellFormed(st', st'.id, f'.calls) && st'.status.Running?
    requires SameRollout(st', st) && f.calls <= f'.calls && st'.nextNode == st.nextNode && f'.world == f.world
    requires f'.files == f.files || f'.files == f.files[st.id := st']
    ensures UnderWay(f', st')
  {
    if Undisturbed(f'.calls, st') {
      FewerCalls(f.calls, f'.calls, st, st');
    }
  }

  lemma WroteUnderWay(f: Fleet, st: State, st': State, env: Environment)
    requires Sound(f) && UnderWay(f, st)
    requires SameRollout(st', st) && st'.nextNode == st.nextNode && st'.status.Running?
    ensures Sound(Wrote(f, st', env)) && UnderWay(Wrote(f, st', env), st')
  {
    if Undisturbed(f.calls, st') {
      FewerCalls(f.calls, f.calls, st, st');
    }
    WroteSound(f, st', env);
    StillUnderWay(f, Wrote(f, st', env), st, st');
  }

  /** After the install, read back or not, the nodes counted so far are as before. */
  lemma FailureIsHonest(f: Fleet, f': Fleet, st: State, st': State)
    requires UnderWay(f, st) && st.nextNode < |st.ordered| && f.calls <= f'.calls && SameRollout(st', st)
    requires forall node :: node != st.ordered[st.nextNode].id ==> SameAt(f.world, f'.world, node)
    requires st'.nextNode == st.nextNode && st'.status.Failed?
    ensures WellFormed(st', st'.id, f'.calls) && Honest(f', st')
  {
    if Undisturbed(f'.calls, st') {
      FewerCalls(f.calls, f'.calls, st, st');
      forall i | 0 <= i < st.nextNode
        ensures IsNew(f'.world, st.plan, st.ordered[i])
      {
        assert SameAt(f.world, f'.world, st.ordered[i].id);
      }
    }
  }

  lemma FailedInstallSound(f: Fleet, f': Fleet, st: State, st': State, cause: Verdict, env: Environment)
    requires UnderWay(f, st) && st.nextNode < |st.ordered| && f.calls <= f'.calls && SameRollout(st', st)
    requires forall node :: node != st.ordered[st.nextNode].id ==> SameAt(f.world, f'.world, node)
    requires st'.nextNode == st.nextNode && st'.status.Failed? && Sound(f')
    ensures Sound(RollbackInstalled(Wrote(f', st', env), st', st.nextNode + 1, cause, env).0)
  {
    FailureIsHonest(f, f', st, st');
    WroteSound(f', st', env);
    WroteFramed(f', st', env);
    hide Sound, RollbackInstalled, Wrote, Honest, UnderWay;
    RollbackInstalledSound(Wrote(f', st', env), st', st.nextNode + 1, cause, env);
  }

  /** A verified install moves the boundary by one. */
  lemma VerifiedIsPlaced(f: Fleet, f': Fleet, st: State, st': State)
    requires UnderWay(f, st) && st.nextNode < |st.ordered| && f.calls <= f'.calls
    requires forall node :: node != st.ordered[st.nextNode].id ==> SameAt(f.world, f'.world, node)
    requires IsNew(f'.world, st.plan, st.ordered[st.nextNode]) && f'.files == f.files
    requires SameRollout(st', st) && st'.nextNode == st.nextNode + 1 && st'.status.Running?
    ensures UnderWay(f', st')
  {
    if Undisturbed(f'.calls, st') {
      FewerCalls(f.calls, f'.calls, st, st');
      forall i | 0 <= i < |st.ordered| && i != st.nextNode
        ensures SameAt(f.world, f'.world, st.ordered[i].id)
      {
      }
    }
  }

  /** `f'` follows `f` by calls on `node` alone. */
  ghost predicate Follows(f: Fleet, f': Fleet, node: string) {
    && f.calls <= f'.calls && f'.files == f.files
    && forall other :: other != node ==> SameAt(f.world, f'.world, other)
  }

  lemma InstallThenRead(f: Fleet, rollout: string, node: string, env: Environment)
    ensures var f1 := Installed(f, rollout, node, env).0; var (f2, release) := ReadBack(f1, node, env);
            && Follows(f, f1, node) && Follows(f, f2, node)
            && (release.Some? ==> node in f2.world && f2.world[node] == release.value)
  {
  }

  lemma InstallNextSound(f: Fleet, st: State, env: Environment)
    requires Sound(f) && UnderWay(f, st) && st.nextNode < |st.ordered|
    ensures var (f', st', stopped) := InstallNext(f, st, env);
            Sound(f') && (stopped.None? ==> UnderWay(f', st') && st'.nextNode == st.nextNode + 1)
  {
    hide Sound, UnderWay, RollbackInstalled, Wrote, Installed, ReadBack;
    var node := st.ordered[st.nextNode].id;
    var st0 := Logged(st, node, InstallStarted);
    var f0 := Wrote(f, st0, env);
    UnderWayRuns(f, st);
    WroteUnderWay(f, st, st0, env);
    var (f1, ok) := Installed(f0, st.id, node, env);
    InstalledSound(f0, st0, env);
    InstallThenRead(f0, st.id, node, env);
    if !ok {
      FailedInstallSound(f0, f1, st0, Logged(st0.(status := Failed), node, InstallFailed), InstallError, env);
    } else {
      var (f2, release) := ReadBack(f1, node, env);
      ReadSound(f1, node, env);
      if release != Some(Release(st.plan.version, st.plan.digest)) {
        FailedInstallSound(f0, f2, st0, Logged(st0.(status := Failed), node, DigestMismatch), ReadbackError, env);
      } else {
        var st1 := Logged(st0.(nextNode := st.nextNode + 1), node, DigestVerified);
        VerifiedIsPlaced(f0, f2, st0, st1);
        WroteUnderWay(f2, st1, st1, env);
      }
    }
  }

  lemma UnderWayRuns(f: Fleet, st: State)
    requires UnderWay(f, st)
    ensures st.status.Running?
  {
  }

  lemma PauseIsHonest(f: Fleet, f': Fleet, st: State, st': State)
    requires UnderWay(f, st) && f.calls <= f'.calls && f'.world == f.world && SameRollout(st', st)
    requires st'.nextNode == st.nextNode && !st'.status.Complete?
    ensures WellFormed(st', st'.id, f'.calls) && Honest(f', st')
  {
    if Undisturbed(f'.calls, st') {
      FewerCalls(f.calls, f'.calls, st, st');
    }
  }

  lemma PassGateSound(f: Fleet, st: State, node: string, env: Environment)
    requires Sound(f) && UnderWay(f, st) && st.nextNode > 0
    ensures var (f', st', stopped) := PassGate(f, st, node, env);
            Sound(f') && (stopped.None? ==> UnderWay(f', st'))
  {
    var (f1, healthy) := FabricChecked(f, st.id, env);
    FabricSound(f, st.id, env);
    if healthy {
      StillUnderWay(f, f1, st, st);
      WroteUnderWay(f1, st, Logged(st, node, FabricHealthy), env);
    } else {
      var st1 := Logged(st.(status := Degraded, degradedNode := node), node, FabricDegraded);
      PauseIsHonest(f, f1, st, st1);
      WroteSound(f1, st1, env);
      WroteFramed(f1, st1, env);
      hide Sound, RollbackInstalled, Wrote, Honest;
      if st.plan.onDegraded.RollBack? {
        RollbackInstalledSound(Wrote(f1, st1, env), st1, st.nextNode, FabricError, env);
      }
    }
  }

  lemma {:induction false} AdvanceSound(f: Fleet, st: State, env: Environment)
    requires Sound(f) && UnderWay(f, st)
    ensures Sound(Advanced(f, st, env).0)
    decreases |st.ordered| - st.nextNode
  {
    if st.nextNode < |st.ordered| {
      hide Sound, UnderWay, InstallNext, PassGate;
      var (f1, st1, stopped1) := InstallNext(f, st, env);
      InstallNextSound(f, st, env);
      InstallNextFramed(f, st, env);
      if stopped1.None? {
        var node := st.ordered[st.nextNode].id;
        var (f2, st2, stopped2) := PassGate(f1, st1, node, env);
        PassGateSound(f1, st1, node, env);
        PassGateFramed(f1, st1, node, env);
        if stopped2.None? {
          AdvanceSound(f2, st2, env);
        }
      }
    } else {
      var done := Logged(st.(status := Complete, degradedNode := ""), "", Completed);
      if Undisturbed(f.calls, done) {
        FewerCalls(f.calls, f.calls, st, done);
      }
      WroteSound(f, done, env);
    }
  }

  // ---------------------------------------------------------------------- commands

  lemma {:induction false} PreflightSound(f: Fleet, plan: Plan, n: nat, env: Environment)
    requires Sound(f) && n <= |plan.nodes|
    ensures Sound(Preflight(f, plan, n, env).0)
  {
    hide Sound;
    if n > 0 {
      PreflightSound(f, plan, n - 1, env);
      ReadSound(Preflight(f, plan, n - 1, env).0, plan.nodes[n - 1].id, env);
    }
  }

  /** A validated plan whose nodes are all old starts as a well-placed rollout. */
  lemma FreshIsPlaced(world: map<string, Release>, id: string, plan: Plan, startedAt: nat)
    requires Validated(plan) && PlanOld(world, plan)
    ensures WellOrdered(Fresh(id, plan, startedAt)) && Placed(world, Fresh(id, plan, startedAt))
  {
    hide Validate, Ordered;
    var d :| Validate(d) == Ok(plan);
    ValidPlanOrders(d);
    OrderedNodesOld(world, plan);
  }

  lemma StartSound(f: Fleet, id: string, plan: Plan, env: Environment)
    requires Sound(f) && Validated(plan)
    ensures Sound(StartSpec(f, id, plan, env).0)
  {
    hide Advanced, Validate, Ordered, Preflight;
    PreflightSound(f, plan, |plan.nodes|, env);
    StalePreflight(f, plan, |plan.nodes|, env);
    var (f1, clear) := Preflight(f, plan, |plan.nodes|, env);
    if clear {
      var st := Fresh(id, plan, |f1.calls|);
      FreshIsPlaced(f1.world, id, plan, |f1.calls|);
      WroteSound(f1, st, env);
      if Succeeds(f1, env) {
        AdvanceSound(Wrote(f1, st, env), st, env);
      }
    }
  }

  lemma ContinueSound(f: Fleet, id: string, reasoned: bool, env: Environment)
    requires Sound(f)
    ensures Sound(ContinueSpec(f, id, reasoned, env).0)
  {
    hide Advanced;
    if reasoned && SavedDegraded(f, id) {
      var file := f.files[id];
      var (f1, healthy) := FabricChecked(f, file.id, env);
      FabricSound(f, file.id, env);
      if healthy {
        var st := Logged(file.(status := Running), "", Continued);
        if Undisturbed(f1.calls, st) {
          FewerCalls(f.calls, f1.calls, file, st);
        }
        WroteSound(f1, st, env);
        if Succeeds(f1, env) {
          var f2 := Wrote(f1, st, env);
          if Undisturbed(f2.calls, st) {
            FewerCalls(f1.calls, f2.calls, st, st);
          }
          AdvanceSound(f2, st, env);
        }
      }
    }
  }

  lemma AbortSound(f: Fleet, id: string, reasoned: bool, env: Environment)
    requires Sound(f)
    ensures Sound(AbortSpec(f, id, reasoned, env).0)
  {
    if id in f.files {
      var st := Logged(f.files[id].(status := Aborted), "", AbortedByOperator);
      if Undisturbed(f.calls, st) {
        FewerCalls(f.calls, f.calls, f.files[id], st);
      }
      WroteSound(f, st, env);
    }
  }

  lemma RollbackNodeSound(f: Fleet, id: string, node: string, valid: bool, env: Environment)
    requires Sound(f)
    ensures Sound(RollbackNodeSpec(f, id, node, valid, env).0)
  {
    if valid && id in f.files && Names(f.files[id], node) {
      RevertedSound(f, f.files[id].id, node, env);
      var (f1, ok) := Reverted(f, f.files[id].id, node, env);
      if ok {
        var st := Logged(f.files[id].(status := Aborted), node, NodeRolledBack);
        assert f1.calls[|f.calls|] == RollbackCall(st.id, node, true);
        assert Names(st, node);
        assert !Undisturbed(f1.calls, st);
        WroteSound(f1, st, env);
      }
    }
  }

  lemma AfterSound(f: Fleet, c: Command, env: Environment)
    requires Sound(f) && CommandValid(c)
    ensures Sound(Execute(f, c, env).0) && Sound(After(f, c, env))
  {
    hide StartSpec, ContinueSpec, AbortSpec, RollbackNodeSpec, Sound;
    match c {
      case Start(id, plan) => StartSound(f, id, plan, env);
      case Continue(id, reasoned) => ContinueSound(f, id, reasoned, env);
      case Abort(id, reasoned) => AbortSound(f, id, reasoned, env);
      case RollbackNode(id, node, valid) => RollbackNodeSound(f, id, node, valid, env);
    }
    QuietCall(Execute(f, c, env).0, Crashed);
  }

  lemma {:induction false} RunSound(f: Fleet, commands: seq<Command>, env: Environment)
    requires Sound(f) && forall k :: 0 <= k < |commands| ==> CommandValid(commands[k])
    ensures Sound(Run(f, commands, env))
    decreases |commands|
  {
    hide After, Sound, CommandValid;
    if commands != [] {
      assert CommandValid(commands[0]);
      AfterSound(f, commands[0], env);
      RunSound(After(f, commands[0], env), commands[1..], env);
    }
  }
}
