/** Exactly which plans are valid, and which commands are refused and what the others do. */
module RolloutAnswers {
  import opened Common
  import opened Rollout
  import opened RolloutTheorems
  import opened RolloutRuns

  // ----------------------------------------------------------------------- plans

  lemma {:induction false} CountAtMostOne(nodes: seq<Node>, p: Node -> bool)
    ensures Count(nodes, p) <= 1 <==> forall i, j :: 0 <= i < j < |nodes| ==> !(p(nodes[i]) && p(nodes[j]))
  {
    if nodes != [] {
      var n := |nodes| - 1;
      CountAtMostOne(nodes[..n], p);
      assert forall i :: 0 <= i < n ==> nodes[..n][i] == nodes[i];
    }
  }

  /** What is asked of one node, whatever the others are. */
  predicate NodeIsValid(n: Node) {
    && n.id != "" && n.platform in {"darwin-arm64", "linux-amd64", "windows-amd64"}
    && (n.isLocal || n.address != "")
    && (n.components == [] ==> n.role in {"controller", "executor"})
    && (n.components != [] ==> n.role == "" && "" !in n.components && NoneTwice(n.components))
  }

  predicate NoneTwice(names: seq<string>) {
    forall k, l :: 0 <= k < l < |names| ==> names[k] != names[l]
  }

  lemma NodesAreValidIff(nodes: seq<Node>)
    ensures FirstError(nodes, |nodes|).None? <==>
            DistinctIds(nodes) && forall i :: 0 <= i < |nodes| ==> NodeIsValid(nodes[i])
  {
    forall i | 0 <= i < |nodes|
      ensures NodeError(nodes, i).None? <==>
              NodeIsValid(nodes[i]) && forall k :: 0 <= k < i ==> nodes[k].id != nodes[i].id
    {
    }
  }

  /** Exactly one node is the controller. */
  predicate OneController(nodes: seq<Node>) {
    && (exists i :: 0 <= i < |nodes| && nodes[i].role == "controller")
    && (forall i, j :: 0 <= i < j < |nodes| ==> !(nodes[i].role == "controller" && nodes[j].role == "controller"))
  }

  predicate OneLocal(nodes: seq<Node>) {
    forall i, j :: 0 <= i < j < |nodes| ==> !(nodes[i].isLocal && nodes[j].isLocal)
  }

  predicate ByComponents(nodes: seq<Node>) {
    forall i :: 0 <= i < |nodes| ==> nodes[i].components != []
  }

  predicate ByRoles(nodes: seq<Node>) {
    forall i :: 0 <= i < |nodes| ==> nodes[i].components == []
  }

  lemma RolesCount(nodes: seq<Node>)
    requires ByRoles(nodes)
    ensures Count(nodes, (n: Node) => n.components == [] && n.role == "controller") == 1 <==> OneController(nodes)
  {
    CountAtMostOne(nodes, (n: Node) => n.components == [] && n.role == "controller");
  }

  /** A plan is valid exactly when it is well identified, names nodes and a fabric check, its
      nodes are valid with distinct ids and at most one local, and they are described either
      all by components, in declared order, or all by roles, with one controller. */
  lemma PlanValidIff(d: Draft)
    ensures Validate(d).Ok? <==>
            && d.identified && d.nodes != [] && d.fabricCheck != []
            && DistinctIds(d.nodes) && (forall i :: 0 <= i < |d.nodes| ==> NodeIsValid(d.nodes[i])) && OneLocal(d.nodes)
            && ((ByComponents(d.nodes) && (d.order.None? || d.order == Some(Declared)))
                || (ByRoles(d.nodes) && OneController(d.nodes)))
  {
    NodesAreValidIff(d.nodes);
    CountAtMostOne(d.nodes, (n: Node) => n.isLocal);
    if ByRoles(d.nodes) {
      RolesCount(d.nodes);
    }
    hide FirstError, NodeIsValid, DistinctIds;
  }

  /** What a valid plan says: the draft's own words, and where it is silent the declared order
      for components, executors first for roles, and a pause on a degraded fabric. */
  lemma PlanSays(d: Draft)
    requires Validate(d).Ok?
    ensures var plan := Validate(d).value;
            && plan.version == d.version && plan.digest == d.digest && plan.rollbackVersion == d.rollbackVersion
            && plan.nodes == d.nodes && plan.fabricCheck == d.fabricCheck
            && plan.onDegraded == (if d.onDegraded.Some? then d.onDegraded.value else Pause)
            && plan.order == (if d.order.Some? then d.order.value
                              else if ByComponents(d.nodes) then Declared else ExecutorsFirst)
  {
    hide FirstError;
  }

  // -------------------------------------------------------------------- commands

  /** An abort is refused without a reason, without a file, and once the rollout is complete
      or aborted; otherwise it calls no node and, if it can be saved, marks the file. */
  lemma AbortAnswersIff(f: Fleet, id: string, reasoned: bool, env: Environment)
    requires id in f.files ==> f.files[id].id == id
    ensures var (f', r, v) := AbortSpec(f, id, reasoned, env);
            var allowed := && reasoned && id in f.files && f.files[id].status != Complete
                           && f.files[id].status != Aborted;
            && (!allowed ==> f' == f && v == Refused && r.None?)
            && (allowed ==>
                  && f'.world == f.world && r.Some? && (v == Done <==> Succeeds(f, env))
                  && (!Succeeds(f, env) ==> f'.files == f.files)
                  && (Succeeds(f, env) ==>
                        f'.files == f.files[id := f.files[id].(status := Aborted, events := r.value.events)]))
  {
  }

  /** A continue is refused without a reason or a paused rollout on file; an unhealthy fabric
      changes nothing but the history. */
  lemma ContinueAnswersIff(f: Fleet, id: string, reasoned: bool, env: Environment)
    requires id in f.files ==> f.files[id].id == id
    ensures var (f', r, v) := ContinueSpec(f, id, reasoned, env);
            var allowed := reasoned && id in f.files && f.files[id].status == Degraded;
            && (!allowed ==> f' == f && v == Refused && r.None?)
            && (allowed && !Succeeds(f, env) ==>
                  f'.world == f.world && f'.files == f.files && v == FabricError && r == Some(f.files[id]))
            && (allowed && !Dead(f, env) ==> f.calls + [Fabric(id, Succeeds(f, env))] <= f'.calls)
  {
    hide Advanced;
    if id in f.files {
      var f1 := FabricChecked(f, id, env).0;
      var st := Logged(f.files[id].(status := Running), "", Continued);
      AdvanceFramed(Wrote(f1, st, env), st, env);
    }
  }

  /** A rollback of a named node calls that node once, whatever the rollout's status; when
      that works and can be saved the file is aborted, and otherwise it stays as it was. */
  lemma RollbackNodeAnswersIff(f: Fleet, id: string, node: string, valid: bool, env: Environment)
    requires id in f.files ==> f.files[id].id == id
    ensures var (f', r, v) := RollbackNodeSpec(f, id, node, valid, env);
            var allowed := valid && id in f.files && Names(f.files[id], node);
            && (!allowed ==> f' == f && v == Refused && r.None?)
            && (allowed && !Dead(f, env) ==>
                  f.calls + [RollbackCall(id, node, env(|f.calls|).ok)] <= f'.calls
                  && f'.world == f.world[node := env(|f.calls|).after])
            && (allowed ==>
                  (v == Done ==> f'.files == f.files[id := f.files[id].(status := Aborted, events := r.value.events)])
                            && (v != Done ==> f'.files == f.files))
  {
  }
}
