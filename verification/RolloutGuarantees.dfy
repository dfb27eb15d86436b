/** What an operator may rely on: over every run of commands on any rollouts, processes
    dying at any call included, and exactly when one rollout can spoil another. */
module RolloutGuarantees {
  import opened Common
  import opened Rollout
  import opened RolloutTheorems
  import opened RolloutGate
  import opened RolloutRuns

  // --------------------------------------------------------------- all or nothing

  /** What the operator may conclude from a command's answer. */
  ghost predicate Trustworthy(f': Fleet, r: Option<State>, v: Verdict) {
    r.Some? ==>
      && (r.value.status == Complete ==> PlanNew(f'.world, r.value.plan))
      && (v.RolledBackTo? ==> PlanOld(f'.world, r.value.plan))
      && (r.value.status == Degraded ==> Placed(f'.world, r.value))
  }

  lemma AdvanceAnswersTruly(f: Fleet, st: State, env: Environment)
    requires WellOrdered(st) && Placed(f.world, st)
    ensures var (f', st', v) := Advanced(f, st, env); Trustworthy(f', Some(st'), v)
  {
    hide Advanced;
    AdvanceEndsWell(f, st, env);
    var (f', st', v) := Advanced(f, st, env);
    OrderedMeansPlan(f'.world, st');
  }

  /** Whatever other rollouts did before it, the answer of a start can be believed. */
  lemma StartAnswersTruly(f: Fleet, id: string, plan: Plan, env: Environment)
    requires Validated(plan)
    ensures var (f', r, v) := StartSpec(f, id, plan, env); Trustworthy(f', r, v)
  {
    hide Advanced, Validate, Ordered, Preflight, Trustworthy;
    StalePreflight(f, plan, |plan.nodes|, env);
    var (f1, clear) := Preflight(f, plan, |plan.nodes|, env);
    NoAnswer(f1, NotStarted);
    if clear {
      var st := Fresh(id, plan, |f1.calls|);
      FreshIsPlaced(f1.world, id, plan, |f1.calls|);
      NoAnswer(Wrote(f1, st, env), WriteError);
      AdvanceAnswersTruly(Wrote(f1, st, env), st, env);
    }
  }

  lemma NoAnswer(f: Fleet, v: Verdict)
    ensures Trustworthy(f, None, v)
  {
  }

  lemma ContinueAnswersTruly(f: Fleet, id: string, reasoned: bool, env: Environment)
    requires SavedDegraded(f, id) && WellOrdered(f.files[id]) && Placed(f.world, f.files[id])
    ensures var (f', r, v) := ContinueSpec(f, id, reasoned, env); Trustworthy(f', r, v)
  {
    hide Advanced;
    var (f1, healthy) := FabricChecked(f, f.files[id].id, env);
    var st := Logged(f.files[id].(status := Running), "", Continued);
    AdvanceAnswersTruly(Wrote(f1, st, env), st, env);
  }

  /** The answer of a continue can be believed in every environment if and only if the
      rollout is exactly where its file says. */
  lemma ContinueTrustworthyIff(f: Fleet, id: string)
    requires SavedDegraded(f, id) && WellOrdered(f.files[id])
    ensures (forall env: Environment :: ContinueIsTrustworthy(f, id, env)) <==> Placed(f.world, f.files[id])
  {
    if Placed(f.world, f.files[id]) {
      forall env: Environment
        ensures ContinueIsTrustworthy(f, id, env)
      {
        ContinueAnswersTruly(f, id, true, env);
      }
    } else {
      var env: Environment := (n: nat) => Answer(false, Release("", ""), false);
      assert !ContinueIsTrustworthy(f, id, env);
    }
  }

  ghost predicate ContinueIsTrustworthy(f: Fleet, id: string, env: Environment) {
    var (f', r, v) := ContinueSpec(f, id, true, env); Trustworthy(f', r, v)
  }

  lemma NewFleetSound(world: map<string, Release>)
    ensures Sound(NewFleet(world))
  {
  }

  /** Over every run, from nodes at any releases, with any number of rollouts and crashes
      at any call: the answer of every start can be believed, and so can that of every
      continue of a rollout nobody disturbed. */
  lemma RolloutAllOrNothing(world: map<string, Release>, commands: seq<Command>, c: Command, env: Environment)
    requires CommandValid(c) && forall k :: 0 <= k < |commands| ==> CommandValid(commands[k])
    ensures var f := Run(NewFleet(world), commands, env);
            var (f', r, v) := Execute(f, c, env);
            c.Start? || (c.Continue? && (c.id in f.files ==> Undisturbed(f.calls, f.files[c.id]))) ==>
                  Trustworthy(f', r, v)
  {
    hide After, Trustworthy, StartSpec;
    NewFleetSound(world);
    RunSound(NewFleet(world), commands, env);
    var f := Run(NewFleet(world), commands, env);
    NoAnswer(f, Refused);
    match c
    case Start(id, plan) => StartAnswersTruly(f, id, plan, env);
    case Continue(id, reasoned) =>
      if SavedDegraded(f, id) && Undisturbed(f.calls, f.files[id]) {
        ContinueAnswersTruly(f, id, reasoned, env);
      }
    case _ =>
  }

  /** Between commands, however they ended: the file of an undisturbed rollout never counts
      a node that does not run the new release, "complete" means every node does, and a
      paused one has exactly its first `nextNode` nodes upgraded. */
  lemma FilesTellTheTruth(world: map<string, Release>, commands: seq<Command>, env: Environment, id: string)
    requires forall k :: 0 <= k < |commands| ==> CommandValid(commands[k])
    ensures var f := Run(NewFleet(world), commands, env);
            id in f.files && Undisturbed(f.calls, f.files[id]) ==>
              && PrefixNew(f.world, f.files[id])
              && (f.files[id].status.Complete? ==> PlanNew(f.world, f.files[id].plan))
              && (f.files[id].status.Degraded? ==> Placed(f.world, f.files[id]))
  {
    NewFleetSound(world);
    RunSound(NewFleet(world), commands, env);
    var f := Run(NewFleet(world), commands, env);
    hide Run, Sound;
    if id in f.files && Undisturbed(f.calls, f.files[id]) {
      SoundFile(f, id);
      OrderedMeansPlan(f.world, f.files[id]);
    }
  }

  lemma SoundFile(f: Fleet, id: string)
    requires Sound(f) && id in f.files && Undisturbed(f.calls, f.files[id])
    ensures WellFormed(f.files[id], id, f.calls) && Accurate(f.world, f.files[id])
  {
  }

  // -------------------------------------------------------------------- the gate

  /** The gate of one rollout, or of all of them. */
  ghost predicate GateSound(f: Fleet, scope: Scope) {
    && AllGated(f.calls, scope)
    && (scope.Some? && scope.value !in f.files ==> GateOpen(f.calls, scope))
  }

  lemma StartKeepsGate(f: Fleet, id: string, plan: Plan, env: Environment, scope: Scope)
    requires GateSound(f, scope) && id !in f.files && Sound(f) && Validated(plan)
    requires scope.None? ==> GateOpen(f.calls, None) || !PlanOld(f.world, plan)
    ensures GateSound(StartSpec(f, id, plan, env).0, scope)
  {
    StartSound(f, id, plan, env);
    StartFramed(f, id, plan, env);
    if scope.None? && !GateOpen(f.calls, None) {
      StalePreflight(f, plan, |plan.nodes|, env);
      PreflightGated(f, plan, |plan.nodes|, env, scope);
    } else {
      StartGated(f, id, plan, env, scope);
    }
    hide StartSpec, AllGated, GateOpen;
    assert scope.Some? && scope.value != id ==> SameAt(f.files, StartSpec(f, id, plan, env).0.files, scope.value);
  }

  lemma StartFramed(f: Fleet, id: string, plan: Plan, env: Environment)
    ensures Framed(f, StartSpec(f, id, plan, env).0, Fresh(id, plan, 0))
  {
    hide Advanced, Preflight, Ordered;
    StalePreflight(f, plan, |plan.nodes|, env);
    var (f1, clear) := Preflight(f, plan, |plan.nodes|, env);
    if clear && Succeeds(f1, env) {
      var st := Fresh(id, plan, |f1.calls|);
      WroteFramed(f1, st, env);
      AdvanceFramed(Wrote(f1, st, env), st, env);
      FramedTrans(f1, Wrote(f1, st, env), Advanced(Wrote(f1, st, env), st, env).0, st, st);
      OtherDate(f1, Advanced(Wrote(f1, st, env), st, env).0, st, Fresh(id, plan, 0));
    }
  }

  lemma OtherDate(f: Fleet, f': Fleet, st: State, st': State)
    requires Framed(f, f', st) && st'.id == st.id && st'.ordered == st.ordered
    ensures Framed(f, f', st')
  {
    assert forall node :: !Names(st', node) ==> !Names(st, node);
  }

  lemma ContinueFramed(f: Fleet, id: string, reasoned: bool, env: Environment)
    requires id in f.files && f.files[id].id == id
    ensures Framed(f, ContinueSpec(f, id, reasoned, env).0, f.files[id])
  {
    hide Advanced;
    var (f1, healthy) := FabricChecked(f, id, env);
    var st := Logged(f.files[id].(status := Running), "", Continued);
    var f2 := Wrote(f1, st, env);
    FabricThenWroteFramed(f, st, env);
    AdvanceFramed(f2, st, env);
    FramedTrans(f, f2, Advanced(f2, st, env).0, st, st);
    SameRolloutFramed(f, f2, st, f.files[id]);
    SameRolloutFramed(f, Advanced(f2, st, env).0, st, f.files[id]);
  }

  /** Nothing but a start of another rollout can come between an install and its check. */
  lemma AfterKeepsGate(f: Fleet, c: Command, env: Environment, scope: Scope)
    requires GateSound(f, scope) && Sound(f) && CommandValid(c)
    requires scope.None? && c.Start? && c.id !in f.files ==> GateOpen(f.calls, None) || !PlanOld(f.world, c.plan)
    ensures GateSound(After(f, c, env), scope)
  {
    AfterSound(f, c, env);
    hide StartSpec, ContinueSpec, AllGated, GateOpen;
    var f' := Execute(f, c, env).0;
    match c {
      case Start(id, plan) =>
        if id !in f.files {
          StartKeepsGate(f, id, plan, env, scope);
        }
      case Continue(id, reasoned) =>
        ContinueGated(f, id, reasoned, env, scope);
        ContinueFiles(f, id, reasoned, env);
      case Abort(id, reasoned) => AbortGated(f, id, reasoned, env, scope);
      case RollbackNode(id, node, valid) => RollbackNodeGated(f, id, node, valid, env, scope);
    }
    assert GateSound(f', scope);
    GateAppend(f'.calls, Crashed, scope);
  }

  lemma ContinueFiles(f: Fleet, id: string, reasoned: bool, env: Environment)
    requires forall id :: id in f.files ==> f.files[id].id == id
    ensures ContinueSpec(f, id, reasoned, env).0.files.Keys == f.files.Keys
  {
    if id in f.files {
      ContinueFramed(f, id, reasoned, env);
      var f' := ContinueSpec(f, id, reasoned, env).0;
      hide ContinueSpec;
      forall other | other in f'.files
        ensures other in f.files
      {
        if other != id {
          assert SameAt(f.files, f'.files, other);
        }
      }
    }
  }

  lemma {:induction false} RunKeepsGate(f: Fleet, commands: seq<Command>, env: Environment, scope: Scope)
    requires GateSound(f, scope) && Sound(f) && scope.Some?
    requires forall k :: 0 <= k < |commands| ==> CommandValid(commands[k])
    ensures GateSound(Run(f, commands, env), scope)
    decreases |commands|
  {
    hide After, GateSound, Sound, CommandValid;
    if commands != [] {
      assert CommandValid(commands[0]);
      AfterKeepsGate(f, commands[0], env, scope);
      AfterSound(f, commands[0], env);
      RunKeepsGate(After(f, commands[0], env), commands[1..], env, scope);
    }
  }

  /** Over every run, whatever other rollouts do and wherever processes die: between any
      two installs of the same rollout its fabric check passed. */
  lemma InstallsAreGated(world: map<string, Release>, commands: seq<Command>, env: Environment, rollout: string,
                         i: nat, j: nat)
    requires forall k :: 0 <= k < |commands| ==> CommandValid(commands[k])
    requires i < j < |Run(NewFleet(world), commands, env).calls|
    requires Installs(Run(NewFleet(world), commands, env).calls[i], Some(rollout))
    requires Installs(Run(NewFleet(world), commands, env).calls[j], Some(rollout))
    ensures exists k :: i < k < j && Run(NewFleet(world), commands, env).calls[k] == Fabric(rollout, true)
  {
    hide After;
    NewFleetSound(world);
    RunKeepsGate(NewFleet(world), commands, env, Some(rollout));
    var calls := Run(NewFleet(world), commands, env).calls;
    GateMeansChecked(calls, Some(rollout), i, j);
    var k :| i < k < j && Passes(calls[k], Some(rollout));
    assert calls[k] == Fabric(rollout, true);
  }

  /** Every start in the run found the fleet's gate open, or could not pass its preflight. */
  ghost predicate StartsFindGateOpen(f: Fleet, commands: seq<Command>, env: Environment)
    decreases |commands|
  {
    commands == [] ||
    (&& (commands[0].Start? && commands[0].id !in f.files ==>
           GateOpen(f.calls, None) || !PlanOld(f.world, commands[0].plan))
     && StartsFindGateOpen(After(f, commands[0], env), commands[1..], env))
  }

  /** Then a check, of some rollout, passed between any two installs of the whole fleet. */
  lemma {:induction false} FleetIsGated(f: Fleet, commands: seq<Command>, env: Environment)
    requires GateSound(f, None) && Sound(f) && StartsFindGateOpen(f, commands, env)
    requires forall k :: 0 <= k < |commands| ==> CommandValid(commands[k])
    ensures GateSound(Run(f, commands, env), None)
    decreases |commands|
  {
    hide After, GateSound, Sound, CommandValid;
    if commands != [] {
      assert CommandValid(commands[0]);
      AfterKeepsGate(f, commands[0], env, None);
      AfterSound(f, commands[0], env);
      FleetIsGated(After(f, commands[0], env), commands[1..], env);
    }
  }
}
