/** The rollout coordinator: validated plan, ordered installs with readback, a fabric
    gate after every node, pause and continue, and rollback in reverse. */
module Rollout {
  import opened Common

  // ---------------------------------------------------------------------- plans

  datatype Node = Node(id: string, platform: string, components: seq<string>, role: string, address: string,
                       isLocal: bool)

  datatype OrderRule = Declared | ExecutorsFirst | ControllerFirst

  datatype OnDegraded = Pause | RollBack

  /** `identified` stands for the schema, version and digest format checks. */
  datatype Draft = Draft(identified: bool, version: string, digest: string, rollbackVersion: string,
                         order: Option<OrderRule>, onDegraded: Option<OnDegraded>, nodes: seq<Node>,
                             fabricCheck: seq<string>)

  datatype Plan = Plan(version: string, digest: string, rollbackVersion: string, order: OrderRule,
                       onDegraded: OnDegraded, nodes: seq<Node>, fabricCheck: seq<string>)

  datatype PlanError = BadIdentity | NoNodes | DuplicateId | BadPlatform | MixedRole | BadComponents | BadRole
                     | NoAddress | BadTopology | NoFabricCheck | OrderNotDeclared

  predicate HasTwice(names: seq<string>) {
    exists k, l :: 0 <= k < l < |names| && names[k] == names[l]
  }

  function NodeError(nodes: seq<Node>, i: nat): Option<PlanError>
    requires i < |nodes|
  {
    var node := nodes[i];
    if node.id == "" || exists k :: 0 <= k < i && nodes[k].id == node.id then Some(DuplicateId)
    else if node.platform !in {"darwin-arm64", "linux-amd64", "windows-amd64"} then Some(BadPlatform)
    else if node.components != [] && node.role != "" then Some(MixedRole)
    else if node.components != [] && "" in node.components then Some(BadComponents)
    else if HasTwice(node.components) then Some(BadComponents)
    else if node.components == [] && node.role != "controller" && node.role != "executor" then Some(BadRole)
    else if !node.isLocal && node.address == "" then Some(NoAddress)
    else None
  }

  function FirstError(nodes: seq<Node>, n: nat): (r: Option<PlanError>)
    requires n <= |nodes|
    ensures r.None? <==> forall i :: 0 <= i < n ==> NodeError(nodes, i).None?
  {
    if n == 0 then None
    else
      var before := FirstError(nodes, n - 1);
      if before.Some? then before else NodeError(nodes, n - 1)
  }

  function Count(nodes: seq<Node>, p: Node -> bool): (r: nat)
    ensures r <= |nodes|
    ensures r == |nodes| <==> forall i :: 0 <= i < |nodes| ==> p(nodes[i])
    ensures r == 0 <==> forall i :: 0 <= i < |nodes| ==> !p(nodes[i])
  {
    if nodes == [] then 0
    else
      var n := |nodes| - 1;
      Count(nodes[..n], p) + if p(nodes[n]) then 1 else 0
  }

  function Validate(d: Draft): Result<Plan, PlanError> {
    var withComponents := Count(d.nodes, (n: Node) => n.components != []);
    var controllers := Count(d.nodes, (n: Node) => n.components == [] && n.role == "controller");
    var locals := Count(d.nodes, (n: Node) => n.isLocal);
    var order := if d.order.Some? then d.order.value else if withComponents > 0 then Declared else ExecutorsFirst;
    if !d.identified then Err(BadIdentity)
    else if d.nodes == [] then Err(NoNodes)
    else if FirstError(d.nodes, |d.nodes|).Some? then Err(FirstError(d.nodes, |d.nodes|).value)
    else if (withComponents == 0 && controllers != 1) || (withComponents != 0 && withComponents != |d.nodes|)
        || locals > 1 then
      Err(BadTopology)
    else if d.fabricCheck == [] then Err(NoFabricCheck)
    else if withComponents > 0 && !order.Declared? then Err(OrderNotDeclared)
    else Ok(Plan(d.version, d.digest, d.rollbackVersion, order,
                 if d.onDegraded.Some? then d.onDegraded.value else Pause, d.nodes, d.fabricCheck))
  }

  function WithRole(nodes: seq<Node>, role: string): seq<Node> {
    if nodes == [] then []
    else
      var n := |nodes| - 1;
      WithRole(nodes[..n], role) + if nodes[n].role == role then [nodes[n]] else []
  }

  function Ordered(nodes: seq<Node>, order: OrderRule): seq<Node> {
    match order
    case Declared => nodes
    case ExecutorsFirst => WithRole(nodes, "executor") + WithRole(nodes, "controller")
    case ControllerFirst => WithRole(nodes, "controller") + WithRole(nodes, "executor")
  }

  method AppendRole(ordered: seq<Node>, nodes: seq<Node>, role: string) returns (r: seq<Node>)
    ensures r == ordered + WithRole(nodes, role)
  {
    r := ordered;
    for i := 0 to |nodes|
      invariant r == ordered + WithRole(nodes[..i], role)
    {
      if nodes[i].role == role {
        r := r + [nodes[i]];
      }
      assert nodes[..i + 1][..i] == nodes[..i];
    }
    assert nodes[..|nodes|] == nodes;
  }

  /** `orderRolloutNodes`. */
  method OrderNodes(nodes: seq<Node>, order: OrderRule) returns (ordered: seq<Node>)
    ensures ordered == Ordered(nodes, order)
  {
    if order.Declared? {
      return nodes;
    }
    ordered := [];
    if order.ControllerFirst? {
      ordered := AppendRole(ordered, nodes, "controller");
    }
    ordered := AppendRole(ordered, nodes, "executor");
    if !order.ControllerFirst? {
      ordered := AppendRole(ordered, nodes, "controller");
    }
  }

  // --------------------------------------------------------- the fleet and its answers

  datatype Release = Release(version: string, digest: string)

  /** Every call the updater makes on the outside, in order, with the rollout it was
      made for; `Crashed` marks the end of a command that died. */
  datatype Call =
    | Install(rollout: string, node: string, ok: bool)
    | Read(node: string, ok: bool)
    | Fabric(rollout: string, ok: bool)
    | RollbackCall(rollout: string, node: string, ok: bool)
    | Write(rollout: string, ok: bool)
    | Crashed

  /** How the n-th call turns out: an install or rollback, failed or not, may leave its
      node at any release. If `dies`, the process dies instead of making the call. */
  datatype Answer = Answer(ok: bool, after: Release, dies: bool)

  type Environment = nat -> Answer

  datatype Status = Running | Degraded | Failed | RolledBack | Aborted | Complete

  datatype EventKind =
    | InstallStarted | InstallFailed | DigestMismatch | DigestVerified | FabricDegraded | FabricHealthy
    | RollbackStarted | RollbackFailed | RollbackMismatch | RollbackVerified
    | Continued | AbortedByOperator | NodeRolledBack | Completed

  datatype Event = Event(node: string, kind: EventKind)

  /** A rollout; its start is dated by the number of calls made before it. */
  datatype State = State(id: string, startedAt: nat, plan: Plan, ordered: seq<Node>, nextNode: nat, status: Status,
                         degradedNode: string, events: seq<Event>)

  /** The nodes, the calls made so far and the rollout files by id. */
  datatype Fleet = Fleet(world: map<string, Release>, calls: seq<Call>, files: map<string, State>)

  datatype Verdict = Done | NotStarted | InstallError | ReadbackError | FabricError | WriteError | NodeCallFailed
                   | Refused | RollbackIncomplete(cause: Verdict) | RolledBackTo(cause: Verdict)

  /** The process that would make the next call is dead: nothing it does has an effect. */
  predicate Dead(f: Fleet, env: Environment) {
    env(|f.calls|).dies
  }

  predicate Succeeds(f: Fleet, env: Environment) {
    !Dead(f, env) && env(|f.calls|).ok
  }

  /** `writeRollout`. */
  function Wrote(f: Fleet, st: State, env: Environment): Fleet {
    if Dead(f, env) then f
    else
      var ok := Succeeds(f, env);
      f.(calls := f.calls + [Write(st.id, ok)], files := if ok then f.files[st.id := st] else f.files)
  }

  function Installed(f: Fleet, rollout: string, node: string, env: Environment): (Fleet, bool) {
    if Dead(f, env) then (f, false)
    else
      var a := env(|f.calls|);
      (f.(world := f.world[node := a.after], calls := f.calls + [Install(rollout, node, a.ok)]), a.ok)
  }

  function Reverted(f: Fleet, rollout: string, node: string, env: Environment): (Fleet, bool) {
    if Dead(f, env) then (f, false)
    else
      var a := env(|f.calls|);
      (f.(world := f.world[node := a.after], calls := f.calls + [RollbackCall(rollout, node, a.ok)]), a.ok)
  }

  /** A successful read reports what the node really runs. */
  function ReadBack(f: Fleet, node: string, env: Environment): (Fleet, Option<Release>) {
    if Dead(f, env) then (f, None)
    else
      var ok := Succeeds(f, env) && node in f.world;
      (f.(calls := f.calls + [Read(node, ok)]), if ok then Some(f.world[node]) else None)
  }

  function FabricChecked(f: Fleet, rollout: string, env: Environment): (Fleet, bool) {
    if Dead(f, env) then (f, false)
    else
      var ok := Succeeds(f, env);
      (f.(calls := f.calls + [Fabric(rollout, ok)]), ok)
  }

  function Logged(st: State, node: string, kind: EventKind): State {
    st.(events := st.events + [Event(node, kind)])
  }

  // ------------------------------------------------------------------- rolling back

  /** One node of `rollbackInstalledNodes`; true when an error was recorded. */
  function RollbackOne(f: Fleet, st: State, index: nat, env: Environment): (Fleet, State, bool)
    requires index < |st.ordered|
  {
    var id := st.ordered[index].id;
    var started := Logged(st, id, RollbackStarted);
    var (reverted, ok) := Reverted(f, st.id, id, env);
    if !ok then (reverted, Logged(started, id, RollbackFailed), true)
    else
      var (read, release) := ReadBack(reverted, id, env);
      if release.None? || release.value.version != st.plan.rollbackVersion then
        (read, Logged(started, id, RollbackMismatch), true)
      else (read, Logged(started, id, RollbackVerified), false)
  }

  /** The nodes below `count`, last first. */
  function RollbackNodes(f: Fleet, st: State, count: nat, env: Environment): (r: (Fleet, State, bool))
    requires count <= |st.ordered|
    ensures r.1 == st.(events := r.1.events)
    decreases count
  {
    if count == 0 then (f, st, false)
    else
      var (f1, st1, e1) := RollbackOne(f, st, count - 1, env);
      var (f2, st2, e2) := RollbackNodes(f1, st1, count - 1, env);
      (f2, st2, e1 || e2)
  }

  function RollbackInstalled(f: Fleet, st: State, count: nat, cause: Verdict, env: Environment)
    : (Fleet, State, Verdict)
  {
    var n := if count > |st.ordered| then |st.ordered| else count;
    var (f1, st1, errors) := RollbackNodes(f, st, n, env);
    var st2 := st1.(status := RolledBack);
    (Wrote(f1, st2, env), st2, if errors then RollbackIncomplete(cause) else RolledBackTo(cause))
  }

  // ---------------------------------------------------------------------- advancing

  /** Install the next node and read it back; None when it verifiably runs the new release. */
  function InstallNext(f: Fleet, st: State, env: Environment): (r: (Fleet, State, Option<Verdict>))
    requires st.nextNode < |st.ordered|
    ensures r.2.None? ==> r.1 == st.(nextNode := st.nextNode + 1, events := r.1.events)
  {
    var id := st.ordered[st.nextNode].id;
    var st0 := Logged(st, id, InstallStarted);
    var (f1, ok) := Installed(Wrote(f, st0, env), st.id, id, env);
    if !ok then
      var st1 := Logged(st0.(status := Failed), id, InstallFailed);
      var (f2, st2, v) := RollbackInstalled(Wrote(f1, st1, env), st1, st.nextNode + 1, InstallError, env);
      (f2, st2, Some(v))
    else
      var (f2, release) := ReadBack(f1, id, env);
      if release != Some(Release(st.plan.version, st.plan.digest)) then
        var st1 := Logged(st0.(status := Failed), id, DigestMismatch);
        var (f3, st3, v) := RollbackInstalled(Wrote(f2, st1, env), st1, st.nextNode + 1, ReadbackError, env);
        (f3, st3, Some(v))
      else
        var st1 := Logged(st0.(nextNode := st.nextNode + 1), id, DigestVerified);
        (Wrote(f2, st1, env), st1, None)
  }

  /** The fabric check after node `id`; None when the rollout may go on. */
  function PassGate(f: Fleet, st: State, id: string, env: Environment): (r: (Fleet, State, Option<Verdict>))
    ensures r.2.None? ==> r.1 == st.(events := r.1.events)
  {
    var (f1, healthy) := FabricChecked(f, st.id, env);
    if !healthy then
      var st1 := Logged(st.(status := Degraded, degradedNode := id), id, FabricDegraded);
      var f2 := Wrote(f1, st1, env);
      if st.plan.onDegraded.RollBack? then
        var (f3, st3, v) := RollbackInstalled(f2, st1, st.nextNode, FabricError, env);
        (f3, st3, Some(v))
      else (f2, st1, Some(FabricError))
    else
      var st1 := Logged(st, id, FabricHealthy);
      (Wrote(f1, st1, env), st1, None)
  }

  /** One pass of the loop in `advanceRollout`: None when it goes on to the next node. */
  function AdvanceOne(f: Fleet, st: State, env: Environment): (r: (Fleet, State, Option<Verdict>))
    requires st.nextNode < |st.ordered|
    ensures r.2.None? ==> r.1 == st.(nextNode := st.nextNode + 1, events := r.1.events)
  {
    var (f1, st1, stopped) := InstallNext(f, st, env);
    if stopped.Some? then (f1, st1, stopped) else PassGate(f1, st1, st.ordered[st.nextNode].id, env)
  }

  function Advanced(f: Fleet, st: State, env: Environment): (Fleet, State, Verdict)
    decreases |st.ordered| - st.nextNode
  {
    if st.nextNode >= |st.ordered| then
      var done := Logged(st.(status := Complete, degradedNode := ""), "", Completed);
      (Wrote(f, done, env), done, if Succeeds(f, env) then Done else WriteError)
    else
      var (f1, st1, stopped) := AdvanceOne(f, st, env);
      if stopped.Some? then (f1, st1, stopped.value) else Advanced(f1, st1, env)
  }

  // ----------------------------------------------------------------------- commands

  /** Read every plan node until one fails or is not at the rollback version. */
  function Preflight(f: Fleet, plan: Plan, n: nat, env: Environment): (Fleet, bool)
    requires n <= |plan.nodes|
  {
    if n == 0 then (f, true)
    else
      var (f1, ok) := Preflight(f, plan, n - 1, env);
      if !ok then (f1, false)
      else
        var (f2, release) := ReadBack(f1, plan.nodes[n - 1].id, env);
        (f2, release.Some? && release.value.version == plan.rollbackVersion)
  }

  function Fresh(id: string, plan: Plan, startedAt: nat): State {
    State(id, startedAt, plan, Ordered(plan.nodes, plan.order), 0, Running, "", [])
  }

  /** `StartRollout`; the state is returned only once its first save succeeded. */
  function StartSpec(f: Fleet, id: string, plan: Plan, env: Environment): (Fleet, Option<State>, Verdict) {
    var (f1, clear) := Preflight(f, plan, |plan.nodes|, env);
    if !clear then (f1, None, NotStarted)
    else
      var st := Fresh(id, plan, |f1.calls|);
      var f2 := Wrote(f1, st, env);
      if !Succeeds(f1, env) then (f2, None, WriteError)
      else
        var (f3, st', v) := Advanced(f2, st, env);
        (f3, Some(st'), v)
  }

  function ContinueSpec(f: Fleet, id: string, reasoned: bool, env: Environment): (Fleet, Option<State>, Verdict) {
    if !reasoned || id !in f.files || !f.files[id].status.Degraded? then (f, None, Refused)
    else
      var (f1, healthy) := FabricChecked(f, f.files[id].id, env);
      if !healthy then (f1, Some(f.files[id]), FabricError)
      else
        var st := Logged(f.files[id].(status := Running), "", Continued);
        var f2 := Wrote(f1, st, env);
        if !Succeeds(f1, env) then (f2, None, WriteError)
        else
          var (f3, st', v) := Advanced(f2, st, env);
          (f3, Some(st'), v)
  }

  function AbortSpec(f: Fleet, id: string, reasoned: bool, env: Environment): (Fleet, Option<State>, Verdict) {
    if !reasoned || id !in f.files then (f, None, Refused)
    else
      var st := f.files[id];
      if st.status.Complete? || st.status.Aborted? then (f, None, Refused)
      else
        var aborted := Logged(st.(status := Aborted), "", AbortedByOperator);
        (Wrote(f, aborted, env), Some(aborted), if Succeeds(f, env) then Done else WriteError)
  }

  predicate Names(st: State, id: string) {
    exists i :: 0 <= i < |st.ordered| && st.ordered[i].id == id
  }

  /** `RollbackRolloutNode`: no check of the rollout's status. */
  function RollbackNodeSpec(f: Fleet, id: string, node: string, valid: bool, env: Environment)
    : (Fleet, Option<State>, Verdict)
  {
    if !valid || id !in f.files || !Names(f.files[id], node) then (f, None, Refused)
    else
      var st := f.files[id];
      var (f1, ok) := Reverted(f, st.id, node, env);
      if !ok then (f1, Some(st), NodeCallFailed)
      else
        var aborted := Logged(st.(status := Aborted), node, NodeRolledBack);
        (Wrote(f1, aborted, env), Some(aborted), if Succeeds(f1, env) then Done else WriteError)
  }

  /** The coordinator: loops that advance `nextNode`, append events and set the status. */
  class Coordinator {
    const id: string
    const startedAt: nat
    const plan: Plan
    const ordered: seq<Node>
    const env: Environment
    var nextNode: nat
    var status: Status
    var degradedNode: string
    var events: seq<Event>
    var fleet: Fleet

    constructor (st: State, fleet: Fleet, env: Environment)
      ensures View() == st && this.fleet == fleet && this.env == env
    {
      id, startedAt, plan, ordered, this.env := st.id, st.startedAt, st.plan, st.ordered, env;
      nextNode, status, degradedNode, events := st.nextNode, st.status, st.degradedNode, st.events;
      this.fleet := fleet;
    }

    ghost function View(): State
      reads this
    {
      State(id, startedAt, plan, ordered, nextNode, status, degradedNode, events)
    }

    method Save()
      modifies this`fleet
      ensures fleet == Wrote(old(fleet), View(), env)
    {
      fleet := Wrote(fleet, State(id, startedAt, plan, ordered, nextNode, status, degradedNode, events), env);
    }

    method Log(node: string, kind: EventKind)
      modifies this`events
      ensures View() == Logged(old(View()), node, kind)
    {
      events := events + [Event(node, kind)];
    }

    /** One turn of the loop in `rollbackInstalledNodes`. */
    method RollBackNode(index: nat) returns (failed: bool)
      requires index < |ordered|
      modifies this
      ensures (fleet, View(), failed) == RollbackOne(old(fleet), old(View()), index, env)
    {
      var node := ordered[index].id;
      Log(node, RollbackStarted);
      var (reverted, ok) := Reverted(fleet, id, node, env);
      fleet := reverted;
      if !ok {
        Log(node, RollbackFailed);
        return true;
      }
      var (read, release) := ReadBack(fleet, node, env);
      fleet := read;
      if release.None? || release.value.version != plan.rollbackVersion {
        Log(node, RollbackMismatch);
        return true;
      }
      Log(node, RollbackVerified);
      failed := false;
    }

    /** `rollbackInstalledNodes`. */
    method RollBackInstalledNodes(count: nat, cause: Verdict) returns (v: Verdict)
      modifies this
      ensures (fleet, View(), v) == RollbackInstalled(old(fleet), old(View()), count, cause, env)
    {
      hide RollbackOne;
      var index := if count > |ordered| then |ordered| else count;
      ghost var n := index;
      var errors := false;
      while index > 0
        invariant 0 <= index <= n
        invariant View().ordered == old(View().ordered) && View().plan == old(View().plan)
        invariant var (f, st, e) := RollbackNodes(fleet, View(), index, env);
                  (f, st, e || errors) == RollbackNodes(old(fleet), old(View()), n, env)
      {
        index := index - 1;
        var failed := RollBackNode(index);
        errors := errors || failed;
      }
      status := RolledBack;
      Save();
      v := if errors then RollbackIncomplete(cause) else RolledBackTo(cause);
    }

    method InstallNextNode() returns (stopped: Option<Verdict>)
      requires nextNode < |ordered|
      modifies this
      ensures (fleet, View(), stopped) == InstallNext(old(fleet), old(View()), env)
    {
      hide RollbackNodes, RollbackInstalled;
      var node := ordered[nextNode].id;
      Log(node, InstallStarted);
      Save();
      var (installed, ok) := Installed(fleet, id, node, env);
      fleet := installed;
      if !ok {
        status := Failed;
        Log(node, InstallFailed);
        Save();
        var v := RollBackInstalledNodes(nextNode + 1, InstallError);
        return Some(v);
      }
      var (read, release) := ReadBack(fleet, node, env);
      fleet := read;
      if release != Some(Release(plan.version, plan.digest)) {
        status := Failed;
        Log(node, DigestMismatch);
        Save();
        var v := RollBackInstalledNodes(nextNode + 1, ReadbackError);
        return Some(v);
      }
      nextNode := nextNode + 1;
      Log(node, DigestVerified);
      Save();
      stopped := None;
    }

    method CheckFabricAfter(node: string) returns (stopped: Option<Verdict>)
      modifies this
      ensures (fleet, View(), stopped) == PassGate(old(fleet), old(View()), node, env)
    {
      hide RollbackNodes, RollbackInstalled;
      var (checked, healthy) := FabricChecked(fleet, id, env);
      fleet := checked;
      if !healthy {
        status, degradedNode := Degraded, node;
        Log(node, FabricDegraded);
        Save();
        if plan.onDegraded.RollBack? {
          var v := RollBackInstalledNodes(nextNode, FabricError);
          return Some(v);
        }
        return Some(FabricError);
      }
      Log(node, FabricHealthy);
      Save();
      stopped := None;
    }

    /** `advanceRollout`. */
    method Advance() returns (v: Verdict)
      modifies this
      ensures (fleet, View(), v) == Advanced(old(fleet), old(View()), env)
    {
      hide InstallNext, PassGate;
      while nextNode < |ordered|
        invariant Advanced(fleet, View(), env) == Advanced(old(fleet), old(View()), env)
        decreases |ordered| - nextNode
      {
        var node := ordered[nextNode].id;
        var stopped := InstallNextNode();
        if stopped.None? {
          stopped := CheckFabricAfter(node);
        }
        if stopped.Some? {
          return stopped.value;
        }
      }
      status, degradedNode := Complete, "";
      Log("", Completed);
      var ok := Succeeds(fleet, env);
      Save();
      v := if ok then Done else WriteError;
    }
  }

  /** The operator's commands: each loads the saved rollout, acts, and saves. */
  class Updater {
    const env: Environment
    var fleet: Fleet

    constructor (fleet: Fleet, env: Environment)
      ensures this.fleet == fleet && this.env == env
    {
      this.fleet, this.env := fleet, env;
    }

    method RunFrom(st: State) returns (r: State, v: Verdict)
      modifies this
      ensures (fleet, r, v) == Advanced(old(fleet), st, env)
    {
      var run := new Coordinator(st, fleet, env);
      v := run.Advance();
      fleet := run.fleet;
      r := State(run.id, run.startedAt, run.plan, run.ordered, run.nextNode, run.status, run.degradedNode, run.events);
    }

    method Start(id: string, plan: Plan) returns (r: Option<State>, v: Verdict)
      modifies this
      ensures (fleet, r, v) == StartSpec(old(fleet), id, plan, env)
    {
      hide Advanced;
      var clear := true;
      for i := 0 to |plan.nodes|
        invariant (fleet, clear) == Preflight(old(fleet), plan, i, env)
      {
        if clear {
          var (read, release) := ReadBack(fleet, plan.nodes[i].id, env);
          fleet := read;
          clear := release.Some? && release.value.version == plan.rollbackVersion;
        }
      }
      if !clear {
        return None, NotStarted;
      }
      var ordered := OrderNodes(plan.nodes, plan.order);
      var st := State(id, |fleet.calls|, plan, ordered, 0, Running, "", []);
      var ok := Succeeds(fleet, env);
      fleet := Wrote(fleet, st, env);
      if !ok {
        return None, WriteError;
      }
      st, v := RunFrom(st);
      r := Some(st);
    }

    method Continue(id: string, reasoned: bool) returns (r: Option<State>, v: Verdict)
      modifies this
      ensures (fleet, r, v) == ContinueSpec(old(fleet), id, reasoned, env)
    {
      hide Advanced;
      if !reasoned || id !in fleet.files || !fleet.files[id].status.Degraded? {
        return None, Refused;
      }
      var loaded := fleet.files[id];
      var (checked, healthy) := FabricChecked(fleet, loaded.id, env);
      fleet := checked;
      if !healthy {
        return Some(loaded), FabricError;
      }
      var st := Logged(loaded.(status := Running), "", Continued);
      var ok := Succeeds(fleet, env);
      fleet := Wrote(fleet, st, env);
      if !ok {
        return None, WriteError;
      }
      st, v := RunFrom(st);
      r := Some(st);
    }

    method Abort(id: string, reasoned: bool) returns (r: Option<State>, v: Verdict)
      modifies this
      ensures (fleet, r, v) == AbortSpec(old(fleet), id, reasoned, env)
    {
      if !reasoned || id !in fleet.files {
        return None, Refused;
      }
      var st := fleet.files[id];
      if st.status.Complete? || st.status.Aborted? {
        return None, Refused;
      }
      st := Logged(st.(status := Aborted), "", AbortedByOperator);
      var ok := Succeeds(fleet, env);
      fleet := Wrote(fleet, st, env);
      return Some(st), if ok then Done else WriteError;
    }

    method RollbackNode(id: string, node: string, valid: bool) returns (r: Option<State>, v: Verdict)
      modifies this
      ensures (fleet, r, v) == RollbackNodeSpec(old(fleet), id, node, valid, env)
    {
      if !valid || id !in fleet.files || !Names(fleet.files[id], node) {
        return None, Refused;
      }
      var st := fleet.files[id];
      var (reverted, ok) := Reverted(fleet, st.id, node, env);
      fleet := reverted;
      if !ok {
        return Some(st), NodeCallFailed;
      }
      st := Logged(st.(status := Aborted), node, NodeRolledBack);
      ok := Succeeds(fleet, env);
      fleet := Wrote(fleet, st, env);
      return Some(st), if ok then Done else WriteError;
    }
  }
}
