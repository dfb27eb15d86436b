/** Handing a workspace driver over: requests drain the current driver's recorded
    mutations before the lease moves. Each call runs under its workspace's session
    gate, so it is one step. `taskBusy` is whether the task table shows a queued,
    running or cancelling task in the workspace. */
module Handoff {
  import opened Common
  import opened Leases

  datatype Phase = Requested | Draining | Ready | Completed | Cancelled | Expired

  datatype Request = Request(workspace: string, requestedBy: string, previousOwner: Option<string>, phase: Phase,
                             createdAt: nat, expiresAt: nat, completedAt: Option<nat>)

  datatype Mutation = Mutation(id: string, workspace: string, agent: string, tool: string, startedAt: nat)

  datatype Board = Board(leases: Table, requests: seq<Request>, mutations: seq<Mutation>)

  datatype Error = DriverDraining | AlreadyDriver | HandoffNotFound | HandoffDraining | LeaseFailed(cause: LeaseError)

  function ResourceOf(workspace: string): string {
    "workspace:" + workspace
  }

  predicate Open(phase: Phase) {
    phase.Requested? || phase.Draining? || phase.Ready?
  }

  /** `workspace_is_draining`. */
  predicate IsDraining(requests: seq<Request>, workspace: string, owner: string, now: nat) {
    exists i :: 0 <= i < |requests| && requests[i].workspace == workspace
                && requests[i].previousOwner == Some(owner) && requests[i].expiresAt > now && Open(requests[i].phase)
  }

  predicate Busy(b: Board, workspace: string, taskBusy: bool) {
    taskBusy || exists i :: 0 <= i < |b.mutations| && b.mutations[i].workspace == workspace
  }

  /** What `refresh_driver_handoff` does to one request. */
  function RefreshedRequest(q: Request, workspace: string, busy: bool, now: nat): Request {
    if q.workspace != workspace || !Open(q.phase) then q
    else if q.expiresAt <= now then q.(phase := Expired)
    else if !busy then q.(phase := Ready)
    else q
  }

  predicate Expires(q: Request, workspace: string, now: nat) {
    q.workspace == workspace && Open(q.phase) && q.expiresAt <= now
  }

  /** The lease table after the first `n` requests were refreshed: an expired request
      withdraws its handoff target. */
  function RefreshedLeases(t: Table, requests: seq<Request>, workspace: string, now: nat, n: nat): Table
    requires n <= |requests|
  {
    if n == 0 then t
    else
      var before := RefreshedLeases(t, requests, workspace, now, n - 1);
      var q := requests[n - 1];
      if Expires(q, workspace, now) && q.previousOwner.Some? then
        HandoffCancelled(before, ResourceOf(q.workspace), q.requestedBy, now).0
      else before
  }

  function RefreshedRequests(requests: seq<Request>, workspace: string, busy: bool, now: nat): (r: seq<Request>)
    ensures |r| == |requests|
  {
    seq(|requests|, i requires 0 <= i < |requests| => RefreshedRequest(requests[i], workspace, busy, now))
  }

  function Refreshed(b: Board, workspace: string, taskBusy: bool, now: nat): Board {
    b.(leases := RefreshedLeases(b.leases, b.requests, workspace, now, |b.requests|),
       requests := RefreshedRequests(b.requests, workspace, Busy(b, workspace, taskBusy), now))
  }

  function Started(b: Board, m: Mutation, now: nat): (Board, Result<(), Error>) {
    if IsDraining(b.requests, m.workspace, m.agent, now) then (b, Err(DriverDraining))
    else if exists i :: 0 <= i < |b.mutations| && b.mutations[i].id == m.id then (b, Ok(()))
    else (b.(mutations := b.mutations + [m]), Ok(()))
  }

  function WithoutId(ms: seq<Mutation>, id: string): seq<Mutation> {
    if ms == [] then []
    else WithoutId(ms[..|ms| - 1], id) + if ms[|ms| - 1].id == id then [] else [ms[|ms| - 1]]
  }

  function MutationFinished(b: Board, workspace: string, id: string, taskBusy: bool, now: nat): Board {
    Refreshed(b.(mutations := WithoutId(b.mutations, id)), workspace, taskBusy, now)
  }

  function HandoffAsked(b: Board, workspace: string, requester: string, ttl: nat, taskBusy: bool, now: nat)
    : (Board, Result<Request, Error>)
  {
    var resource := ResourceOf(workspace);
    var held := resource in b.leases.leases;
    if held && b.leases.leases[resource].owner == requester then (b, Err(AlreadyDriver))
    else
      var previous := if held then Some(b.leases.leases[resource].owner) else None;
      var phase := if held then Draining else Ready;
      var q := Request(workspace, requester, previous, phase, now, SaturatingAdd(now, ttl), None);
      var (leases, outcome) := if held then HandoffRequested(b.leases, resource, requester, now)
                               else (b.leases, Err(NotFound));
      if held && outcome.Err? then (b, Err(LeaseFailed(outcome.error)))
      else (Refreshed(b.(leases := leases, requests := b.requests + [q]), workspace, taskBusy, now), Ok(q))
  }

  /** The newest request of `requester` in the workspace whose phase satisfies `p`. */
  function Newest(requests: seq<Request>, workspace: string, requester: string, p: Phase -> bool): (r: Option<nat>)
    ensures r.Some? ==> r.value < |requests| && requests[r.value].workspace == workspace
                        && requests[r.value].requestedBy == requester && p(requests[r.value].phase)
  {
    if requests == [] then None
    else
      var n := |requests| - 1;
      if requests[n].workspace == workspace && requests[n].requestedBy == requester && p(requests[n].phase) then Some(n)
      else Newest(requests[..n], workspace, requester, p)
  }

  function Awaitable(): Phase -> bool {
    (p: Phase) => p.Ready? || p.Draining?
  }

  function Cancellable(): Phase -> bool {
    (p: Phase) => Open(p)
  }

  /** `driver.handoff.await`; the value is the request served and the lease granted. */
  function Awaited(b0: Board, workspace: string, requester: string, ttl: nat, taskBusy: bool, now: nat, secret: Token)
    : (Board, Result<(Request, Lease), Error>)
  {
    var b := Refreshed(b0, workspace, taskBusy, now);
    var resource := ResourceOf(workspace);
    var found := Newest(b.requests, workspace, requester, Awaitable());
    if found.None? then (b, Err(HandoffNotFound))
    else if !b.requests[found.value].phase.Ready? then (b, Err(HandoffDraining))
    else
      var q := b.requests[found.value];
      var (leases, outcome) :=
        if q.previousOwner.Some? then HandoffTaken(b.leases, resource, requester, ttl, now, secret)
        else Acquired(b.leases, Driver, resource, requester, ttl, now, "", secret);
      if outcome.Err? then (b, Err(LeaseFailed(outcome.error)))
      else
        (b.(leases := leases, requests := b.requests[found.value := q.(phase := Completed, completedAt := Some(now))]),
         Ok((q, outcome.value)))
  }

  function CancelledHandoff(b: Board, workspace: string, requester: string, now: nat): (Board, Result<(), Error>) {
    var found := Newest(b.requests, workspace, requester, Cancellable());
    if found.None? then (b, Err(HandoffNotFound))
    else
      var q := b.requests[found.value];
      var (leases, outcome) :=
        if q.previousOwner.Some? then HandoffCancelled(b.leases, ResourceOf(workspace), requester, now)
        else (b.leases, Err(NotFound));
      if q.previousOwner.Some? && outcome.Err? then (b, Err(LeaseFailed(outcome.error)))
      else (b.(leases := leases, requests := b.requests[found.value := q.(phase := Cancelled)]), Ok(()))
  }

  /** The controller's handoff state, changed in place by each action. */
  class Coordinator {
    const table: LeaseTable
    var requests: seq<Request>
    var mutations: seq<Mutation>

    ghost function View(): Board
      reads this, table
    {
      Board(table.View(), requests, mutations)
    }

    constructor (table: LeaseTable)
      ensures this.table == table && requests == [] && mutations == []
    {
      this.table := table;
      requests, mutations := [], [];
    }

    method Refresh(workspace: string, taskBusy: bool, now: nat)
      modifies this, table
      ensures View() == Refreshed(old(View()), workspace, taskBusy, now)
    {
      ghost var b := View();
      var busy := taskBusy || exists i :: 0 <= i < |mutations| && mutations[i].workspace == workspace;
      for i := 0 to |requests|
        invariant |requests| == |b.requests| && mutations == b.mutations
        invariant table.View() == RefreshedLeases(b.leases, b.requests, workspace, now, i)
        invariant forall k :: 0 <= k < i ==> requests[k] == RefreshedRequest(b.requests[k], workspace, busy, now)
        invariant forall k :: i <= k < |requests| ==> requests[k] == b.requests[k]
      {
        var q := requests[i];
        if q.workspace == workspace && Open(q.phase) {
          if q.expiresAt <= now {
            requests := requests[i := q.(phase := Expired)];
            if q.previousOwner.Some? {
              var _ := table.CancelHandoff(ResourceOf(q.workspace), q.requestedBy, now);
            }
          } else if !busy {
            requests := requests[i := q.(phase := Ready)];
          }
        }
      }
      assert requests == RefreshedRequests(b.requests, workspace, busy, now);
    }

    method StartMutation(m: Mutation, now: nat) returns (r: Result<(), Error>)
      modifies this`mutations
      ensures (View(), r) == Started(old(View()), m, now)
    {
      if IsDraining(requests, m.workspace, m.agent, now) {
        return Err(DriverDraining);
      }
      if !exists i :: 0 <= i < |mutations| && mutations[i].id == m.id {
        mutations := mutations + [m];
      }
      r := Ok(());
    }

    method FinishMutation(workspace: string, id: string, taskBusy: bool, now: nat)
      modifies this, table
      ensures View() == MutationFinished(old(View()), workspace, id, taskBusy, now)
    {
      mutations := WithoutId(mutations, id);
      Refresh(workspace, taskBusy, now);
    }

    method RequestHandoff(workspace: string, requester: string, ttl: nat, taskBusy: bool, now: nat)
      returns (r: Result<Request, Error>)
      modifies this, table
      ensures (View(), r) == HandoffAsked(old(View()), workspace, requester, ttl, taskBusy, now)
    {
      var resource := ResourceOf(workspace);
      var held := resource in table.leases;
      if held && table.leases[resource].owner == requester {
        return Err(AlreadyDriver);
      }
      var previous := if held then Some(table.leases[resource].owner) else None;
      var phase := if held then Draining else Ready;
      var q := Request(workspace, requester, previous, phase, now, SaturatingAdd(now, ttl), None);
      if held {
        var outcome := table.RequestHandoff(resource, requester, now);
        if outcome.Err? {
          return Err(LeaseFailed(outcome.error));
        }
      }
      requests := requests + [q];
      Refresh(workspace, taskBusy, now);
      r := Ok(q);
    }

    method AwaitHandoff(workspace: string, requester: string, ttl: nat, taskBusy: bool, now: nat, secret: Token)
      returns (r: Result<(Request, Lease), Error>)
      modifies this, table
      ensures (View(), r) == Awaited(old(View()), workspace, requester, ttl, taskBusy, now, secret)
    {
      Refresh(workspace, taskBusy, now);
      var found := Newest(requests, workspace, requester, Awaitable());
      if found.None? {
        return Err(HandoffNotFound);
      }
      var q := requests[found.value];
      if !q.phase.Ready? {
        return Err(HandoffDraining);
      }
      var outcome;
      if q.previousOwner.Some? {
        outcome := table.TakeHandoff(ResourceOf(workspace), requester, ttl, now, secret);
      } else {
        outcome := table.Acquire(Driver, ResourceOf(workspace), requester, ttl, now, "", secret);
      }
      if outcome.Err? {
        return Err(LeaseFailed(outcome.error));
      }
      requests := requests[found.value := q.(phase := Completed, completedAt := Some(now))];
      r := Ok((q, outcome.value));
    }

    method CancelHandoff(workspace: string, requester: string, now: nat) returns (r: Result<(), Error>)
      modifies this, table
      ensures (View(), r) == CancelledHandoff(old(View()), workspace, requester, now)
    {
      var found := Newest(requests, workspace, requester, Cancellable());
      if found.None? {
        return Err(HandoffNotFound);
      }
      var q := requests[found.value];
      if q.previousOwner.Some? {
        var outcome := table.CancelHandoff(ResourceOf(workspace), requester, now);
        if outcome.Err? {
          return Err(LeaseFailed(outcome.error));
        }
      }
      requests := requests[found.value := q.(phase := Cancelled)];
      r := Ok(());
    }
  }
}
