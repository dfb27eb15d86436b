/** What one rollout leaves behind on its nodes and in its file, in every environment. */
module RolloutTheorems {
  import opened Common
  import opened Rollout

  // ------------------------------------------------------------------------ order

  ghost predicate DistinctIds(nodes: seq<Node>) {
    forall i, j :: 0 <= i < j < |nodes| ==> nodes[i].id != nodes[j].id
  }

  lemma {:induction false} WithRoleSelects(nodes: seq<Node>, role: string)
    ensures forall n :: n in WithRole(nodes, role) <==> n in nodes && n.role == role
    ensures forall n :: multiset(WithRole(nodes, role))[n] == if n.role == role then multiset(nodes)[n] else 0
  {
    if nodes != [] {
      var k := |nodes| - 1;
      WithRoleSelects(nodes[..k], role);
      assert nodes == nodes[..k] + [nodes[k]];
    }
  }

  lemma {:induction false} WithRoleDistinct(nodes: seq<Node>, role: string)
    requires DistinctIds(nodes)
    ensures DistinctIds(WithRole(nodes, role))
  {
    if nodes != [] {
      var k := |nodes| - 1;
      WithRoleDistinct(nodes[..k], role);
      WithRoleSelects(nodes[..k], role);
      var before := WithRole(nodes[..k], role);
      forall i | 0 <= i < |before|
        ensures before[i].id != nodes[k].id
      {
        assert before[i] in before;
        var j :| 0 <= j < k && nodes[j] == before[i];
      }
    }
  }

  predicate KnownRole(n: Node) {
    n.role == "executor" || n.role == "controller"
  }

  /** By role, a node of known role keeps its multiplicity and any other one is dropped. */
  lemma OrderedMultiplicity(nodes: seq<Node>, order: OrderRule, n: Node)
    requires !order.Declared?
    ensures multiset(Ordered(nodes, order))[n] == if KnownRole(n) then multiset(nodes)[n] else 0
  {
    WithRoleSelects(nodes, "executor");
    WithRoleSelects(nodes, "controller");
  }

  /** Ordering by role is a permutation exactly when every node has a known role. */
  lemma OrderIsPermutationIff(nodes: seq<Node>, order: OrderRule)
    ensures multiset(Ordered(nodes, order)) == multiset(nodes)
            <==> order.Declared? || forall i :: 0 <= i < |nodes| ==> KnownRole(nodes[i])
  {
    if !order.Declared? {
      forall n: Node
        ensures multiset(Ordered(nodes, order))[n] == if KnownRole(n) then multiset(nodes)[n] else 0
      {
        OrderedMultiplicity(nodes, order, n);
      }
      hide Ordered, KnownRole;
      if i :| 0 <= i < |nodes| && !KnownRole(nodes[i]) {
        assert nodes[i] in multiset(nodes);
      } else {
        forall n: Node
          ensures KnownRole(n) || multiset(nodes)[n] == 0
        {
          if n in multiset(nodes) {
            assert n in nodes;
          }
        }
      }
    }
  }

  lemma OrderKeepsIdsDistinct(nodes: seq<Node>, order: OrderRule)
    requires DistinctIds(nodes)
    ensures DistinctIds(Ordered(nodes, order))
  {
    WithRoleDistinct(nodes, "executor");
    WithRoleDistinct(nodes, "controller");
    WithRoleSelects(nodes, "executor");
    WithRoleSelects(nodes, "controller");
    RolesDiffer(nodes, WithRole(nodes, "executor"), WithRole(nodes, "controller"));
    RolesDiffer(nodes, WithRole(nodes, "controller"), WithRole(nodes, "executor"));
  }

  lemma RolesDiffer(nodes: seq<Node>, a: seq<Node>, b: seq<Node>)
    requires DistinctIds(nodes) && DistinctIds(a) && DistinctIds(b)
    requires forall n :: n in a ==> n in nodes && n !in b
    requires forall n :: n in b ==> n in nodes
    ensures DistinctIds(a + b)
  {
    forall i, j | 0 <= i < |a| && 0 <= j < |b|
      ensures a[i].id != b[j].id
    {
      assert a[i] in a && b[j] in b;
      var k :| 0 <= k < |nodes| && nodes[k] == a[i];
      var l :| 0 <= l < |nodes| && nodes[l] == b[j];
      assert k != l;
    }
  }

  lemma ValidIds(nodes: seq<Node>)
    requires FirstError(nodes, |nodes|).None?
    ensures DistinctIds(nodes)
  {
    forall i, j | 0 <= i < j < |nodes|
      ensures nodes[i].id != nodes[j].id
    {
      assert NodeError(nodes, j).None?;
    }
  }

  lemma ValidRoles(d: Draft)
    requires Validate(d).Ok? && !Validate(d).value.order.Declared?
    ensures forall i :: 0 <= i < |d.nodes| ==> d.nodes[i].role == "executor" || d.nodes[i].role == "controller"
  {
    assert Count(d.nodes, (n: Node) => n.components != []) == 0;
    forall i | 0 <= i < |d.nodes|
      ensures d.nodes[i].role == "executor" || d.nodes[i].role == "controller"
    {
      assert NodeError(d.nodes, i).None?;
    }
  }

  lemma ValidNodes(d: Draft)
    requires Validate(d).Ok?
    ensures FirstError(d.nodes, |d.nodes|).None? && Validate(d).value.nodes == d.nodes
  {
  }

  /** A validated plan is ordered into the same nodes, each once. */
  lemma ValidPlanOrders(d: Draft)
    requires Validate(d).Ok?
    ensures var plan := Validate(d).value;
            && multiset(Ordered(plan.nodes, plan.order)) == multiset(plan.nodes)
            && DistinctIds(Ordered(plan.nodes, plan.order))
  {
    hide Validate;
    var plan := Validate(d).value;
    ValidNodes(d);
    ValidIds(d.nodes);
    if !plan.order.Declared? {
      ValidRoles(d);
    }
    OrderIsPermutationIff(plan.nodes, plan.order);
    OrderKeepsIdsDistinct(plan.nodes, plan.order);
  }

  // -------------------------------------------------------------------- placement

  predicate IsNew(world: map<string, Release>, plan: Plan, node: Node) {
    node.id in world && world[node.id] == Release(plan.version, plan.digest)
  }

  predicate IsOld(world: map<string, Release>, plan: Plan, node: Node) {
    node.id in world && world[node.id].version == plan.rollbackVersion
  }

  ghost predicate NewUpTo(world: map<string, Release>, plan: Plan, ordered: seq<Node>, n: nat) {
    n <= |ordered| && forall i :: 0 <= i < n ==> IsNew(world, plan, ordered[i])
  }

  ghost predicate OldAfter(world: map<string, Release>, plan: Plan, ordered: seq<Node>, n: nat) {
    forall i :: n <= i < |ordered| ==> IsOld(world, plan, ordered[i])
  }

  ghost predicate PrefixNew(world: map<string, Release>, st: State) {
    NewUpTo(world, st.plan, st.ordered, st.nextNode)
  }

  ghost predicate OldFrom(world: map<string, Release>, st: State, n: nat) {
    OldAfter(world, st.plan, st.ordered, n)
  }

  /** Exactly the first `nextNode` nodes run the new release, the rest the old one. */
  ghost predicate Placed(world: map<string, Release>, st: State) {
    PrefixNew(world, st) && OldFrom(world, st, st.nextNode)
  }

  ghost predicate AllNew(world: map<string, Release>, st: State) {
    NewUpTo(world, st.plan, st.ordered, |st.ordered|)
  }

  ghost predicate AllOld(world: map<string, Release>, st: State) {
    OldFrom(world, st, 0)
  }

  /** Same rollout; only progress, status and events may differ. */
  predicate SameRollout(a: State, b: State) {
    a.id == b.id && a.startedAt == b.startedAt && a.plan == b.plan && a.ordered == b.ordered
  }

  // ------------------------------------------------------- what a rollout can reach

  predicate SameAt<V(==)>(a: map<string, V>, b: map<string, V>, key: string) {
    (key in a <==> key in b) && (key in a ==> a[key] == b[key])
  }

  /** A rollout adds calls, touches its own nodes only and writes its own file only. */
  ghost predicate Framed(f: Fleet, f': Fleet, st: State) {
    && f.calls <= f'.calls && f.files.Keys <= f'.files.Keys
    && (forall id :: id != st.id ==> SameAt(f.files, f'.files, id))
    && (forall node :: !Names(st, node) ==> SameAt(f.world, f'.world, node))
  }

  lemma FramedTrans(a: Fleet, b: Fleet, c: Fleet, st: State, st': State)
    requires Framed(a, b, st) && Framed(b, c, st') && SameRollout(st, st')
    ensures Framed(a, c, st)
  {
    forall id | id != st.id
      ensures SameAt(a.files, c.files, id)
    {
      assert SameAt(a.files, b.files, id) && SameAt(b.files, c.files, id);
    }
    forall node | !Names(st, node)
      ensures SameAt(a.world, c.world, node)
    {
      assert SameAt(a.world, b.world, node);
      assert !Names(st', node);
      assert SameAt(b.world, c.world, node);
    }
  }

  lemma RollbackOneFramed(f: Fleet, st: State, index: nat, env: Environment)
    requires index < |st.ordered|
    ensures var (f', st', e) := RollbackOne(f, st, index, env);
            Framed(f, f', st) && SameRollout(st, st') && f'.files == f.files
  {
    assert Names(st, st.ordered[index].id);
  }

  lemma {:induction false} RollbackNodesFramed(f: Fleet, st: State, count: nat, env: Environment)
    requires count <= |st.ordered|
    ensures var (f', st', e) := RollbackNodes(f, st, count, env);
            Framed(f, f', st) && SameRollout(st, st') && f'.files == f.files
    decreases count
  {
    hide RollbackOne, Framed;
    if count > 0 {
      var (f1, st1, e1) := RollbackOne(f, st, count - 1, env);
      RollbackOneFramed(f, st, count - 1, env);
      RollbackNodesFramed(f1, st1, count - 1, env);
      FramedTrans(f, f1, RollbackNodes(f1, st1, count - 1, env).0, st, st1);
    } else {
      FramedSelf(f, st);
    }
  }

  lemma FramedSelf(f: Fleet, st: State)
    ensures Framed(f, f, st)
  {
  }

  lemma WroteFramed(f: Fleet, st: State, env: Environment)
    ensures Framed(f, Wrote(f, st, env), st)
  {
  }

  lemma RollbackInstalledFramed(f: Fleet, st: State, count: nat, cause: Verdict, env: Environment)
    ensures var (f', st', v) := RollbackInstalled(f, st, count, cause, env);
            Framed(f, f', st) && SameRollout(st, st')
  {
    hide RollbackNodes, Framed;
    var n := if count > |st.ordered| then |st.ordered| else count;
    RollbackNodesFramed(f, st, n, env);
    var (f1, st1, e) := RollbackNodes(f, st, n, env);
    var st2 := st1.(status := RolledBack);
    WroteFramed(f1, st2, env);
    FramedTrans(f, f1, Wrote(f1, st2, env), st, st2);
  }

  /** Save, then install: the part of a stage before its outcome is known. */
  lemma AttemptFramed(f: Fleet, st: State, env: Environment)
    requires st.nextNode < |st.ordered|
    ensures var node := st.ordered[st.nextNode].id;
            Framed(f, Installed(Wrote(f, Logged(st, node, InstallStarted), env), st.id, node, env).0, st)
  {
    assert Names(st, st.ordered[st.nextNode].id);
  }

  lemma ReadThenWroteFramed(f: Fleet, node: string, st: State, env: Environment)
    ensures Framed(f, Wrote(ReadBack(f, node, env).0, st, env), st)
  {
  }

  lemma InstallNextFramed(f: Fleet, st: State, env: Environment)
    requires st.nextNode < |st.ordered|
    ensures var (f', st', stopped) := InstallNext(f, st, env);
            Framed(f, f', st) && SameRollout(st, st')
  {
    hide RollbackInstalled, Framed;
    var node := st.ordered[st.nextNode].id;
    var st0 := Logged(st, node, InstallStarted);
    AttemptFramed(f, st, env);
    var (f1, ok) := Installed(Wrote(f, st0, env), st.id, node, env);
    if !ok {
      var st1 := Logged(st0.(status := Failed), node, InstallFailed);
      WroteFramed(f1, st1, env);
      var f2 := Wrote(f1, st1, env);
      RollbackInstalledFramed(f2, st1, st.nextNode + 1, InstallError, env);
      FramedTrans(f1, f2, RollbackInstalled(f2, st1, st.nextNode + 1, InstallError, env).0, st1, st1);
      FramedTrans(f, f1, RollbackInstalled(f2, st1, st.nextNode + 1, InstallError, env).0, st, st1);
    } else {
      var (f2, release) := ReadBack(f1, node, env);
      if release != Some(Release(st.plan.version, st.plan.digest)) {
        var st1 := Logged(st0.(status := Failed), node, DigestMismatch);
        ReadThenWroteFramed(f1, node, st1, env);
        var f3 := Wrote(f2, st1, env);
        RollbackInstalledFramed(f3, st1, st.nextNode + 1, ReadbackError, env);
        FramedTrans(f1, f3, RollbackInstalled(f3, st1, st.nextNode + 1, ReadbackError, env).0, st1, st1);
        FramedTrans(f, f1, RollbackInstalled(f3, st1, st.nextNode + 1, ReadbackError, env).0, st, st1);
      } else {
        var st1 := Logged(st0.(nextNode := st.nextNode + 1), node, DigestVerified);
        ReadThenWroteFramed(f1, node, st1, env);
        FramedTrans(f, f1, Wrote(f2, st1, env), st, st1);
      }
    }
  }

  lemma FabricThenWroteFramed(f: Fleet, st: State, env: Environment)
    ensures Framed(f, Wrote(FabricChecked(f, st.id, env).0, st, env), st)
  {
  }

  lemma PassGateFramed(f: Fleet, st: State, node: string, env: Environment)
    ensures var (f', st', stopped) := PassGate(f, st, node, env);
            Framed(f, f', st) && SameRollout(st, st')
  {
    hide RollbackInstalled, Framed;
    var (f1, healthy) := FabricChecked(f, st.id, env);
    if healthy {
      var st1 := Logged(st, node, FabricHealthy);
      FabricThenWroteFramed(f, st1, env);
      SameRolloutFramed(f, Wrote(f1, st1, env), st1, st);
    } else {
      var st1 := Logged(st.(status := Degraded, degradedNode := node), node, FabricDegraded);
      FabricThenWroteFramed(f, st1, env);
      var f2 := Wrote(f1, st1, env);
      SameRolloutFramed(f, f2, st1, st);
      RollbackInstalledFramed(f2, st1, st.nextNode, FabricError, env);
      FramedTrans(f, f2, RollbackInstalled(f2, st1, st.nextNode, FabricError, env).0, st, st1);
    }
  }

  lemma SameRolloutFramed(f: Fleet, f': Fleet, st: State, st': State)
    requires Framed(f, f', st) && SameRollout(st, st')
    ensures Framed(f, f', st')
  {
    assert forall node :: !Names(st', node) ==> !Names(st, node);
  }

  /** Advancing a rollout leaves every other rollout's file and every foreign node alone. */
  lemma {:induction false} AdvanceFramed(f: Fleet, st: State, env: Environment)
    ensures var (f', st', v) := Advanced(f, st, env);
            Framed(f, f', st) && SameRollout(st, st')
    decreases |st.ordered| - st.nextNode
  {
    hide InstallNext, PassGate, Framed;
    if st.nextNode < |st.ordered| {
      var (f1, st1, stopped1) := InstallNext(f, st, env);
      InstallNextFramed(f, st, env);
      if stopped1.None? {
        var node := st.ordered[st.nextNode].id;
        var (f2, st2, stopped2) := PassGate(f1, st1, node, env);
        PassGateFramed(f1, st1, node, env);
        FramedTrans(f, f1, f2, st, st1);
        if stopped2.None? {
          AdvanceFramed(f2, st2, env);
          FramedTrans(f, f2, Advanced(f2, st2, env).0, st, st2);
        }
      }
    } else {
      var done := Logged(st.(status := Complete, degradedNode := ""), "", Completed);
      WroteFramed(f, done, env);
      SameRolloutFramed(f, Wrote(f, done, env), done, st);
    }
  }

  // ------------------------------------------------------------------ rolling back

  lemma RollbackOneEffect(f: Fleet, st: State, index: nat, env: Environment)
    requires DistinctIds(st.ordered) && index < |st.ordered|
    ensures var (f', st', e) := RollbackOne(f, st, index, env);
            && SameRollout(st', st)
            && (forall node :: node != st.ordered[index].id ==> SameAt(f.world, f'.world, node))
            && (!e ==> IsOld(f'.world, st.plan, st.ordered[index]))
  {
  }

  /** Rolling back one node of many leaves the others as they were. */
  lemma RollbackOneOld(f: Fleet, st: State, index: nat, env: Environment)
    requires DistinctIds(st.ordered) && index < |st.ordered| && OldFrom(f.world, st, index + 1)
    ensures var (f', st', e) := RollbackOne(f, st, index, env);
            SameRollout(st', st) && (!e ==> OldFrom(f'.world, st', index))
  {
    hide RollbackOne;
    RollbackOneEffect(f, st, index, env);
    var (f', st', e) := RollbackOne(f, st, index, env);
    forall i | index < i < |st.ordered|
      ensures IsOld(f'.world, st.plan, st.ordered[i])
    {
      assert SameAt(f.world, f'.world, st.ordered[i].id);
    }
  }

  /** Rolling back the nodes below `count`, without an error, leaves every node at the
      rollback version if those from `count` on were. */
  lemma {:induction false} RollbackNodesEffect(f: Fleet, st: State, count: nat, env: Environment)
    requires DistinctIds(st.ordered) && count <= |st.ordered|
    ensures var (f', st', e) := RollbackNodes(f, st, count, env);
            OldFrom(f.world, st, count) && !e ==> AllOld(f'.world, st)
    decreases count
  {
    if count > 0 && OldFrom(f.world, st, count) {
      hide RollbackOne, OldFrom, DistinctIds;
      RollbackOneOld(f, st, count - 1, env);
      var (f1, st1, e1) := RollbackOne(f, st, count - 1, env);
      RollbackNodesEffect(f1, st1, count - 1, env);
      OldFromSame(RollbackNodes(f1, st1, count - 1, env).0.world, st, st1);
    }
  }

  lemma OldFromSame(world: map<string, Release>, a: State, b: State)
    requires SameRollout(a, b)
    ensures forall n: nat :: OldFrom(world, a, n) == OldFrom(world, b, n)
  {
  }

  predicate IsError(e: Event) {
    e.kind.RollbackFailed? || e.kind.RollbackMismatch?
  }

  /** One node's rollback logs its start, then one event saying how it ended. */
  lemma RollbackOneIsLogged(f: Fleet, st: State, index: nat, env: Environment)
    requires index < |st.ordered|
    ensures var (f', st', e) := RollbackOne(f, st, index, env);
            && |st'.events| == |st.events| + 2 && st.events <= st'.events
            && !IsError(st'.events[|st.events|]) && (e <==> IsError(st'.events[|st.events| + 1]))
  {
  }

  /** A rollback reports itself incomplete exactly when it logged a failed or unconfirmed
      node, and its log extends the one before it. */
  lemma {:induction false} RollbackErrorsAreLogged(f: Fleet, st: State, count: nat, env: Environment)
    requires count <= |st.ordered|
    ensures var (f', st', e) := RollbackNodes(f, st, count, env);
            && st.events <= st'.events
            && (e <==> exists k :: |st.events| <= k < |st'.events| && IsError(st'.events[k]))
    decreases count
  {
    if count > 0 {
      RollbackOneIsLogged(f, st, count - 1, env);
      hide IsError;
      var (f1, st1, e1) := RollbackOne(f, st, count - 1, env);
      RollbackErrorsAreLogged(f1, st1, count - 1, env);
      hide RollbackOne;
      var (f2, st2, e2) := RollbackNodes(f1, st1, count - 1, env);
      assert st2.events[|st.events| + 1] == st1.events[|st.events| + 1];
      assert !IsError(st2.events[|st.events|]);
    }
  }

  predicate IsRollback(v: Verdict) {
    v.RollbackIncomplete? || v.RolledBackTo?
  }

  lemma RollbackInstalledEffect(f: Fleet, st: State, count: nat, cause: Verdict, env: Environment)
    requires DistinctIds(st.ordered)
    ensures var (f', st', v) := RollbackInstalled(f, st, count, cause, env);
            && SameRollout(st', st) && st'.status == RolledBack && IsRollback(v)
            && (OldFrom(f.world, st, count) && v.RolledBackTo? ==> AllOld(f'.world, st))
            && (f'.files == f.files || f'.files == f.files[st.id := st'])
  {
    var n := if count > |st.ordered| then |st.ordered| else count;
    RollbackNodesEffect(f, st, n, env);
    RollbackNodesFramed(f, st, n, env);
  }

  lemma InstallNextEffect(f: Fleet, st: State, env: Environment)
    requires DistinctIds(st.ordered) && st.nextNode < |st.ordered|
    ensures var (f', st', stopped) := InstallNext(f, st, env);
            && SameRollout(st', st)
            && (stopped.Some? ==> IsRollback(stopped.value) && st'.status == RolledBack)
            && (stopped.None? && PrefixNew(f.world, st) ==> PrefixNew(f'.world, st'))
            && (stopped.None? && OldFrom(f.world, st, st.nextNode) ==> OldFrom(f'.world, st', st'.nextNode))
            && (OldFrom(f.world, st, st.nextNode) && stopped.Some? && stopped.value.RolledBackTo? ==>
                  AllOld(f'.world, st))
  {
    hide RollbackInstalled, Validate;
    var id := st.ordered[st.nextNode].id;
    var st0 := Logged(st, id, InstallStarted);
    var (f1, ok) := Installed(Wrote(f, st0, env), st.id, id, env);
    assert OldFrom(f.world, st, st.nextNode) ==> OldFrom(f1.world, st, st.nextNode + 1);
    if !ok {
      var st1 := Logged(st0.(status := Failed), id, InstallFailed);
      RollbackInstalledEffect(Wrote(f1, st1, env), st1, st.nextNode + 1, InstallError, env);
    } else {
      var (f2, release) := ReadBack(f1, id, env);
      if release != Some(Release(st.plan.version, st.plan.digest)) {
        var st1 := Logged(st0.(status := Failed), id, DigestMismatch);
        RollbackInstalledEffect(Wrote(f2, st1, env), st1, st.nextNode + 1, ReadbackError, env);
      }
    }
  }

  lemma PassGateEffect(f: Fleet, st: State, id: string, env: Environment)
    requires DistinctIds(st.ordered)
    ensures var (f', st', stopped) := PassGate(f, st, id, env);
            && SameRollout(st', st)
            && (stopped.Some? ==>
                  (IsRollback(stopped.value) && st'.status == RolledBack && st.plan.onDegraded == RollBack)
                                  || (stopped.value == FabricError
                                      && st' == st.(status := Degraded, degradedNode := id, events := st'.events)
                                      && st.plan.onDegraded == Pause))
            && ((stopped.None? || !IsRollback(stopped.value)) ==> f'.world == f.world && st'.nextNode == st.nextNode)
            && (OldFrom(f.world, st, st.nextNode) && stopped.Some? && stopped.value.RolledBackTo? ==>
                  AllOld(f'.world, st))
  {
    hide RollbackInstalled;
    var (f1, healthy) := FabricChecked(f, st.id, env);
    if !healthy && st.plan.onDegraded.RollBack? {
      var st1 := Logged(st.(status := Degraded, degradedNode := id), id, FabricDegraded);
      RollbackInstalledEffect(Wrote(f1, st1, env), st1, st.nextNode, FabricError, env);
    }
  }

  /** Where a run of the rollout ends up. */
  ghost predicate Outcome(f: Fleet, st: State, f': Fleet, st': State, v: Verdict) {
    && SameRollout(st', st)
    && (st'.status == Complete || st'.status == Degraded || st'.status == RolledBack)
    && (st'.status == RolledBack <==> IsRollback(v))
    && (PrefixNew(f.world, st) ==>
          (st'.status == Complete ==> AllNew(f'.world, st)) && (st'.status == Degraded ==> PrefixNew(f'.world, st')))
    && (OldFrom(f.world, st, st.nextNode) ==>
          (v.RolledBackTo? ==> AllOld(f'.world, st))
              && (st'.status == Degraded ==> OldFrom(f'.world, st', st'.nextNode)))
  }

  /** Every environment: completion means every node verifiably runs the new release; a
      rollback without recorded errors leaves every node at the rollback version; a pause
      leaves exactly the first `nextNode` nodes upgraded. */
  lemma {:induction false} AdvanceEndsWell(f: Fleet, st: State, env: Environment)
    requires DistinctIds(st.ordered) && st.nextNode <= |st.ordered|
    ensures var (f', st', v) := Advanced(f, st, env); Outcome(f, st, f', st', v)
    decreases |st.ordered| - st.nextNode
  {
    hide InstallNext, PassGate;
    if st.nextNode < |st.ordered| {
      var (f1, st1, stopped1) := InstallNext(f, st, env);
      InstallNextEffect(f, st, env);
      if stopped1.None? {
        var (f2, st2, stopped2) := PassGate(f1, st1, st.ordered[st.nextNode].id, env);
        PassGateEffect(f1, st1, st.ordered[st.nextNode].id, env);
        if stopped2.None? {
          AdvanceEndsWell(f2, st2, env);
        }
      }
    }
  }

  // -------------------------------------------------------------- what is on file

  predicate SavedDegraded(f: Fleet, id: string) {
    id in f.files && f.files[id].status.Degraded?
  }

  /** The rollout's file exists and describes it. */
  ghost predicate OnFile(f: Fleet, st: State) {
    st.id in f.files && SameRollout(f.files[st.id], st)
  }

  lemma RollbackInstalledSaves(f: Fleet, st: State, count: nat, cause: Verdict, env: Environment)
    requires DistinctIds(st.ordered) && OnFile(f, st)
    ensures SavedDegraded(RollbackInstalled(f, st, count, cause, env).0, st.id) ==> SavedDegraded(f, st.id)
    ensures OnFile(RollbackInstalled(f, st, count, cause, env).0, st)
  {
    RollbackInstalledEffect(f, st, count, cause, env);
  }

  /** After advancing, dead or alive, the file says "degraded" only if the run paused and
      saved exactly that, or if an automatic rollback did not get to save its outcome. */
  lemma {:induction false} AdvanceSaves(f: Fleet, st: State, env: Environment)
    requires DistinctIds(st.ordered) && st.status == Running && OnFile(f, st) && !SavedDegraded(f, st.id)
    ensures var (f', st', v) := Advanced(f, st, env);
            OnFile(f', st) &&
            (SavedDegraded(f', st.id) ==>
               f'.files[st.id] == st' || (st'.status == RolledBack && st.plan.onDegraded == RollBack))
    decreases |st.ordered| - st.nextNode
  {
    hide InstallNext, PassGate;
    if st.nextNode < |st.ordered| {
      var (f1, st1, stopped1) := InstallNext(f, st, env);
      InstallNextSaves(f, st, env);
      InstallNextEffect(f, st, env);
      if stopped1.None? {
        var (f2, st2, stopped2) := PassGate(f1, st1, st.ordered[st.nextNode].id, env);
        PassGateSaves(f1, st1, st.ordered[st.nextNode].id, env);
        PassGateEffect(f1, st1, st.ordered[st.nextNode].id, env);
        if stopped2.None? {
          AdvanceSaves(f2, st2, env);
        }
      }
    }
  }

  lemma InstallNextSaves(f: Fleet, st: State, env: Environment)
    requires DistinctIds(st.ordered) && st.nextNode < |st.ordered| && st.status == Running
    requires OnFile(f, st) && !SavedDegraded(f, st.id)
    ensures OnFile(InstallNext(f, st, env).0, st) && !SavedDegraded(InstallNext(f, st, env).0, st.id)
  {
    hide RollbackInstalled;
    var id := st.ordered[st.nextNode].id;
    var st0 := Logged(st, id, InstallStarted);
    var (f1, ok) := Installed(Wrote(f, st0, env), st.id, id, env);
    if !ok {
      var st1 := Logged(st0.(status := Failed), id, InstallFailed);
      RollbackInstalledSaves(Wrote(f1, st1, env), st1, st.nextNode + 1, InstallError, env);
    } else {
      var (f2, release) := ReadBack(f1, id, env);
      if release != Some(Release(st.plan.version, st.plan.digest)) {
        var st1 := Logged(st0.(status := Failed), id, DigestMismatch);
        RollbackInstalledSaves(Wrote(f2, st1, env), st1, st.nextNode + 1, ReadbackError, env);
      }
    }
  }

  lemma PassGateSaves(f: Fleet, st: State, id: string, env: Environment)
    requires DistinctIds(st.ordered) && st.status == Running && OnFile(f, st) && !SavedDegraded(f, st.id)
    ensures var (f', st', stopped) := PassGate(f, st, id, env);
            && OnFile(f', st)
            && (stopped.None? ==> !SavedDegraded(f', st.id))
            && (SavedDegraded(f', st.id) ==>
                  f'.files[st.id] == st' || (st'.status == RolledBack && st.plan.onDegraded == RollBack))
  {
    hide RollbackInstalled;
    var (f1, healthy) := FabricChecked(f, st.id, env);
    if !healthy && st.plan.onDegraded.RollBack? {
      var st1 := Logged(st.(status := Degraded, degradedNode := id), id, FabricDegraded);
      RollbackInstalledEffect(Wrote(f1, st1, env), st1, st.nextNode, FabricError, env);
      RollbackInstalledSaves(Wrote(f1, st1, env), st1, st.nextNode, FabricError, env);
    }
  }

  // ---------------------------------------------------------------------- plans

  /** Same nodes, so what holds of every plan node holds of every ordered node. */
  lemma OrderedNodesOld(world: map<string, Release>, plan: Plan)
    requires forall i :: 0 <= i < |plan.nodes| ==> IsOld(world, plan, plan.nodes[i])
    requires multiset(Ordered(plan.nodes, plan.order)) == multiset(plan.nodes)
    ensures OldAfter(world, plan, Ordered(plan.nodes, plan.order), 0)
  {
    var ordered := Ordered(plan.nodes, plan.order);
    forall i | 0 <= i < |ordered|
      ensures IsOld(world, plan, ordered[i])
    {
      assert ordered[i] in multiset(ordered);
      assert ordered[i] in plan.nodes;
    }
  }

  /** A plan that came out of validation. */
  ghost predicate Validated(plan: Plan) {
    exists d :: Validate(d) == Ok(plan)
  }

  /** The rollout's order lists exactly the plan's nodes, each once. */
  ghost predicate WellOrdered(st: State) {
    DistinctIds(st.ordered) && multiset(st.ordered) == multiset(st.plan.nodes)
  }

  ghost predicate PlanNew(world: map<string, Release>, plan: Plan) {
    forall i :: 0 <= i < |plan.nodes| ==> IsNew(world, plan, plan.nodes[i])
  }

  ghost predicate PlanOld(world: map<string, Release>, plan: Plan) {
    forall i :: 0 <= i < |plan.nodes| ==> IsOld(world, plan, plan.nodes[i])
  }

  /** What the operator may conclude from a command's answer. */
  ghost predicate Trustworthy(f': Fleet, r: Option<State>, v: Verdict) {
    r.Some? ==>
      && (r.value.status == Complete ==> PlanNew(f'.world, r.value.plan))
      && (v.RolledBackTo? ==> PlanOld(f'.world, r.value.plan))
      && (r.value.status == Degraded ==> Placed(f'.world, r.value))
  }

  lemma OrderedMeansPlan(world: map<string, Release>, st: State)
    requires WellOrdered(st)
    ensures AllNew(world, st) ==> PlanNew(world, st.plan)
    ensures AllOld(world, st) ==> PlanOld(world, st.plan)
  {
    forall i | 0 <= i < |st.plan.nodes|
      ensures st.plan.nodes[i] in st.ordered
    {
      assert st.plan.nodes[i] in multiset(st.plan.nodes);
    }
  }

  // ------------------------------------------------------- when continuing is honest

  /** An environment in which every call succeeds and every install takes. */
  function Smooth(plan: Plan): Environment {
    (n: nat) => Answer(true, Release(plan.version, plan.digest), false)
  }

  lemma {:induction false} SmoothAdvance(f: Fleet, st: State)
    requires DistinctIds(st.ordered) && st.nextNode <= |st.ordered|
    ensures var (f', st', v) := Advanced(f, st, Smooth(st.plan));
            && SameRollout(st', st) && st'.status == Complete
            && (forall i :: 0 <= i < st.nextNode ==>
                  (IsNew(f'.world, st.plan, st.ordered[i]) <==> IsNew(f.world, st.plan, st.ordered[i])))
    decreases |st.ordered| - st.nextNode
  {
    hide RollbackInstalled;
    if st.nextNode < |st.ordered| {
      var (f1, st1, stopped) := AdvanceOne(f, st, Smooth(st.plan));
      assert stopped.None?;
      var id := st.ordered[st.nextNode].id;
      assert f1.world == f.world[id := Release(st.plan.version, st.plan.digest)];
      SmoothAdvance(f1, st1);
    }
  }

  /** Continuing a degraded rollout can be believed, whatever the environment does from
      then on, exactly when the nodes already counted as done do run the new release. */
  lemma ContinueHonestIff(f: Fleet, id: string)
    requires SavedDegraded(f, id) && DistinctIds(f.files[id].ordered) && f.files[id].nextNode <= |f.files[id].ordered|
    ensures (forall env: Environment :: ContinueHonest(f, id, env)) <==> PrefixNew(f.world, f.files[id])
  {
    var saved := f.files[id];
    if PrefixNew(f.world, saved) {
      forall env: Environment
        ensures ContinueHonest(f, id, env)
      {
        ContinueHonestWhenPlaced(f, id, env);
      }
    } else {
      DishonestContinue(f, id);
    }
  }

  /** If continuing ends complete, every node runs the new release. */
  ghost predicate ContinueHonest(f: Fleet, id: string, env: Environment) {
    var (f', r, v) := ContinueSpec(f, id, true, env);
    r.Some? && r.value.status == Complete ==> AllNew(f'.world, r.value)
  }

  lemma ContinueHonestWhenPlaced(f: Fleet, id: string, env: Environment)
    requires SavedDegraded(f, id) && DistinctIds(f.files[id].ordered) && PrefixNew(f.world, f.files[id])
    ensures ContinueHonest(f, id, env)
  {
    hide Advanced;
    var (f1, healthy) := FabricChecked(f, f.files[id].id, env);
    var st := Logged(f.files[id].(status := Running), "", Continued);
    AdvanceEndsWell(Wrote(f1, st, env), st, env);
  }

  lemma DishonestContinue(f: Fleet, id: string)
    requires SavedDegraded(f, id) && DistinctIds(f.files[id].ordered) && f.files[id].nextNode <= |f.files[id].ordered|
    requires !PrefixNew(f.world, f.files[id])
    ensures !ContinueHonest(f, id, Smooth(f.files[id].plan))
  {
    hide Advanced;
    var env := Smooth(f.files[id].plan);
    var (f1, healthy) := FabricChecked(f, f.files[id].id, env);
    var st := Logged(f.files[id].(status := Running), "", Continued);
    SmoothAdvance(Wrote(f1, st, env), st);
  }
}
