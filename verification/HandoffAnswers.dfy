/** Exactly when each handoff call succeeds, and a handoff from its request to its end. */
module HandoffAnswers {
  import opened Common
  import opened Leases
  import opened Handoff
  import opened HandoffTheorems
  import L = LeaseTheorems

  // ------------------------------------------------------------------- refreshing

  predicate Quiet(b: Board, workspace: string) {
    forall i :: 0 <= i < |b.mutations| ==> b.mutations[i].workspace != workspace
  }

  predicate IsOpen(q: Request, workspace: string) {
    q.workspace == workspace && q.phase in {Requested, Draining, Ready}
  }

  /** A refresh ends the open requests of the workspace whose time is over and readies the
      others once nothing is recorded or running there; it changes no other request. */
  lemma RefreshSays(b: Board, workspace: string, taskBusy: bool, now: nat, i: nat)
    requires i < |b.requests|
    ensures var b' := Refreshed(b, workspace, taskBusy, now); var q := b.requests[i];
            && |b'.requests| == |b.requests| && b'.mutations == b.mutations
            && (!IsOpen(q, workspace) ==> b'.requests[i] == q)
            && (IsOpen(q, workspace) && q.expiresAt <= now ==> b'.requests[i] == q.(phase := Expired))
            && (IsOpen(q, workspace) && now < q.expiresAt && Quiet(b, workspace) && !taskBusy ==>
                  b'.requests[i] == q.(phase := Ready))
            && (IsOpen(q, workspace) && now < q.expiresAt && !(Quiet(b, workspace) && !taskBusy) ==>
                  b'.requests[i] == q)
  {
    hide RefreshedLeases;
  }

  /** A request of the workspace that ends now, made against a driver, by this requester. */
  ghost predicate EndsFor(requests: seq<Request>, n: nat, workspace: string, now: nat, requester: string) {
    exists i :: 0 <= i < n && i < |requests| && IsOpen(requests[i], workspace) && requests[i].expiresAt <= now
                && requests[i].previousOwner.Some? && requests[i].requestedBy == requester
  }

  ghost function Unnamed(named: Option<string>, requests: seq<Request>, n: nat, workspace: string, now: nat)
    : Option<string>
  {
    if named.Some? && EndsFor(requests, n, workspace, now, named.value) then None else named
  }

  /** A refresh keeps every lease, and withdraws a name exactly with the request behind it. */
  lemma {:induction false} RefreshUnnames(t: Table, requests: seq<Request>, workspace: string, now: nat, n: nat)
    requires n <= |requests|
    ensures var t' := RefreshedLeases(t, requests, workspace, now, n); var x := ResourceOf(workspace);
            && t'.fences == t.fences && t'.leases.Keys == t.leases.Keys
            && (forall r :: r in t.leases && r != x ==> t'.leases[r] == t.leases[r])
            && (x in t.leases ==>
                  && t'.leases[x]
                     == t.leases[x].(handoffTo := t'.leases[x].handoffTo, updatedAt := t'.leases[x].updatedAt)
                  && t'.leases[x].handoffTo
                     == Unnamed(t.leases[x].handoffTo, requests, n, workspace, now))
  {
    hide ResourceOf;
    if n > 0 {
      RefreshUnnames(t, requests, workspace, now, n - 1);
      assert forall who :: EndsFor(requests, n, workspace, now, who) <==>
                           EndsFor(requests, n - 1, workspace, now, who)
                           || (IsOpen(requests[n - 1], workspace) && requests[n - 1].expiresAt <= now
                               && requests[n - 1].previousOwner.Some? && requests[n - 1].requestedBy == who);
    }
  }

  // ----------------------------------------------------------------------- mutations

  /** A mutation is refused exactly while an unexpired open request drains its agent. */
  lemma StartRefusedIff(b: Board, m: Mutation, now: nat)
    ensures var (b', r) := Started(b, m, now);
            && (r == Err(DriverDraining) <==>
                exists i :: 0 <= i < |b.requests| && IsOpen(b.requests[i], m.workspace) && now < b.requests[i].expiresAt
                            && b.requests[i].previousOwner == Some(m.agent))
            && (r.Err? ==> r == Err(DriverDraining) && b' == b)
            && (r.Ok? ==>
                  && (exists k :: 0 <= k < |b'.mutations| && b'.mutations[k].id == m.id)
                  && b'.mutations == b.mutations + if exists k :: 0 <= k < |b.mutations| && b.mutations[k].id == m.id
                                                   then [] else [m])
  {
    var (b', r) := Started(b, m, now);
    if r.Ok? && b'.mutations == b.mutations + [m] {
      assert b'.mutations[|b.mutations|].id == m.id;
    }
  }

  /** Finishing forgets every mutation recorded under the id, and no other. */
  lemma FinishForgets(b: Board, workspace: string, id: string, taskBusy: bool, now: nat)
    ensures forall m :: m in MutationFinished(b, workspace, id, taskBusy, now).mutations <==>
                        m in b.mutations && m.id != id
  {
    WithoutIdSelects(b.mutations, id);
    hide RefreshedLeases, RefreshedRequests;
  }

  // ------------------------------------------------------------------------- asking

  /** A request is refused to the driver itself and against a lease whose time is over;
      otherwise it is recorded, draining whoever drives, and the lease names the requester. */
  lemma AskAnswersIff(b: Board, workspace: string, requester: string, ttl: nat, taskBusy: bool, now: nat)
    ensures var (b', r) := HandoffAsked(b, workspace, requester, ttl, taskBusy, now);
            var x := ResourceOf(workspace); var held := x in b.leases.leases;
            && (r == Err(AlreadyDriver) <==> held && b.leases.leases[x].owner == requester)
            && (r.Ok? <==> !held || (b.leases.leases[x].owner != requester && now < b.leases.leases[x].expiresAt))
            && (r.Err? ==> b' == b)
            && (r.Ok? ==>
                  && r.value.workspace == workspace && r.value.requestedBy == requester
                  && r.value.previousOwner == (if held then Some(b.leases.leases[x].owner) else None)
                  && r.value.phase == (if held then Draining else Ready)
                  && r.value.createdAt == now && r.value.expiresAt == SaturatingAdd(now, ttl)
                  && |b'.requests| == |b.requests| + 1)
  {
    hide RefreshedLeases, ResourceOf;
  }

  /** The newest request of this requester in the workspace with such a phase. */
  ghost predicate IsNewest(requests: seq<Request>, i: nat, workspace: string, requester: string, phases: set<Phase>) {
    && i < |requests| && requests[i].workspace == workspace && requests[i].requestedBy == requester
    && requests[i].phase in phases
    && forall k :: i < k < |requests| ==>
         !(requests[k].workspace == workspace && requests[k].requestedBy == requester && requests[k].phase in phases)
  }

  lemma {:induction false} NewestIs(requests: seq<Request>, i: nat, workspace: string, requester: string,
                                    p: Phase -> bool, phases: set<Phase>)
    requires IsNewest(requests, i, workspace, requester, phases) && forall phase :: p(phase) <==> phase in phases
    ensures Newest(requests, workspace, requester, p) == Some(i)
    decreases |requests|
  {
    var n := |requests| - 1;
    if i < n {
      NewestIs(requests[..n], i, workspace, requester, p, phases);
    }
  }

  // ------------------------------------------------------------------------ awaiting

  /** The newest draining or ready request of the requester is served exactly when it is ready
      and, made against a driver, the lease still names the requester, or, made against
      nobody, nobody drives; while it drains the answer says so. */
  lemma AwaitAnswersIff(b0: Board, workspace: string, requester: string, ttl: nat, taskBusy: bool, now: nat,
                        secret: Token, i: nat)
    requires IsNewest(Refreshed(b0, workspace, taskBusy, now).requests, i, workspace, requester, {Draining, Ready})
    ensures var b := Refreshed(b0, workspace, taskBusy, now); var x := ResourceOf(workspace);
            var q := b.requests[i];
            var (b', r) := Awaited(b0, workspace, requester, ttl, taskBusy, now, secret);
            && (q.phase == Draining ==> r == Err(HandoffDraining) && b' == b)
            && (r.Ok? <==>
                && q.phase == Ready
                && (q.previousOwner.Some? ==> x in b.leases.leases && b.leases.leases[x].handoffTo == Some(requester))
                && (q.previousOwner.None? ==> x !in b.leases.leases || b.leases.leases[x].expiresAt <= now))
            && (r.Err? ==> b' == b)
            && (r.Ok? ==>
                  && r.value.0 == q && r.value.1.owner == requester && r.value.1.token == secret
                  && r.value.1.expiresAt == SaturatingAdd(now, ttl)
                  && b'.leases.leases == b.leases.leases[x := r.value.1] && b'.mutations == b.mutations
                  && b'.requests == b.requests[i := q.(phase := Completed, completedAt := Some(now))])
  {
    hide RefreshedLeases, RefreshedRequests, ResourceOf;
    NewestIs(Refreshed(b0, workspace, taskBusy, now).requests, i, workspace, requester, Awaitable(), {Draining, Ready});
  }

  /** The newest open request is cancelled, unless it was made against a driver and the lease
      no longer names the requester; a cancelled one is named no more. */
  lemma CancelAnswersIff(b: Board, workspace: string, requester: string, now: nat, i: nat)
    requires IsNewest(b.requests, i, workspace, requester, {Requested, Draining, Ready})
    ensures var (b', r) := CancelledHandoff(b, workspace, requester, now); var x := ResourceOf(workspace);
            && (r.Ok? <==> b.requests[i].previousOwner.None?
                           || (x in b.leases.leases && b.leases.leases[x].handoffTo == Some(requester)))
            && (r.Err? ==> b' == b)
            && (r.Ok? ==>
                  && b'.requests == b.requests[i := b.requests[i].(phase := Cancelled)] && b'.mutations == b.mutations
                  && (b.requests[i].previousOwner.Some? ==>
                        x in b'.leases.leases && b'.leases.leases[x].handoffTo == None)
                  && (b.requests[i].previousOwner.None? ==> b'.leases == b.leases))
  {
    hide ResourceOf;
    NewestIs(b.requests, i, workspace, requester, Cancellable(), {Requested, Draining, Ready});
  }

  // ---------------------------------------------------------- a handoff, start to end

  /** One driver with one recorded mutation, and no request yet. */
  predicate Driving(b: Board, workspace: string, driver: string, m: Mutation, now: nat) {
    && b.requests == [] && b.mutations == [m] && m.workspace == workspace && m.agent == driver
    && ResourceOf(workspace) in b.leases.leases && b.leases.leases[ResourceOf(workspace)].owner == driver
    && now < b.leases.leases[ResourceOf(workspace)].expiresAt
  }

  /** Asked for, the handoff drains the driver: it may start nothing more, and the requester
      waits; once the recorded mutation is finished, the requester gets the lease. */
  lemma HandoffRunsToEnd(b: Board, workspace: string, driver: string, m: Mutation, requester: string, ttl: nat,
                         now: nat, another: Mutation, secret: Token)
    requires Driving(b, workspace, driver, m, now) && requester != driver && now < SaturatingAdd(now, ttl)
    requires another.workspace == workspace && another.agent == driver
    ensures var (b1, asked) := HandoffAsked(b, workspace, requester, ttl, false, now);
            var (b2, waiting) := Awaited(b1, workspace, requester, ttl, false, now, secret);
            var b3 := MutationFinished(b2, workspace, m.id, false, now);
            var (b4, served) := Awaited(b3, workspace, requester, ttl, false, now, secret);
            && asked.Ok? && asked.value.phase == Draining && asked.value.previousOwner == Some(driver)
            && Started(b1, another, now).1 == Err(DriverDraining)
            && waiting == Err(HandoffDraining)
            && served.Ok? && served.value.1.owner == requester && b4.mutations == []
            && ResourceOf(workspace) in b4.leases.leases
            && b4.leases.leases[ResourceOf(workspace)].owner == requester
  {
    hide ResourceOf;
    var x := ResourceOf(workspace);
    var q := Request(workspace, requester, Some(driver), Draining, now, SaturatingAdd(now, ttl), None);
    var b1 := HandoffAsked(b, workspace, requester, ttl, false, now).0;
    AskedBoard(b, workspace, driver, m, requester, ttl, now);
    assert IsOpen(b1.requests[0], workspace);
    StartRefusedIff(b1, another, now);
    RefreshIsIdle(b1, workspace, now, q, m);
    assert IsNewest(b1.requests, 0, workspace, requester, {Draining, Ready});
    AwaitAnswersIff(b1, workspace, requester, ttl, false, now, secret, 0);
    var b3 := MutationFinished(b1, workspace, m.id, false, now);
    FinishedBoard(b1, workspace, now, q, m);
    RefreshStaysReady(b3, workspace, now, q);
    assert IsNewest(b3.requests, 0, workspace, requester, {Draining, Ready});
    hide Awaited, MutationFinished, HandoffAsked, Started, Refreshed;
    AwaitAnswersIff(b3, workspace, requester, ttl, false, now, secret, 0);
  }

  predicate Named(b: Board, workspace: string, requester: string) {
    ResourceOf(workspace) in b.leases.leases && b.leases.leases[ResourceOf(workspace)].handoffTo == Some(requester)
  }

  lemma AskedBoard(b: Board, workspace: string, driver: string, m: Mutation, requester: string, ttl: nat, now: nat)
    requires Driving(b, workspace, driver, m, now) && requester != driver && now < SaturatingAdd(now, ttl)
    ensures var (b1, asked) := HandoffAsked(b, workspace, requester, ttl, false, now);
            var q := Request(workspace, requester, Some(driver), Draining, now, SaturatingAdd(now, ttl), None);
            asked == Ok(q) && b1.requests == [q] && b1.mutations == [m] && Named(b1, workspace, requester)
  {
    hide ResourceOf;
    var q := Request(workspace, requester, Some(driver), Draining, now, SaturatingAdd(now, ttl), None);
    var t := HandoffRequested(b.leases, ResourceOf(workspace), requester, now).0;
    OneRequestLeases(t, workspace, now, q);
    assert b.requests + [q] == [q];
    var bb := b.(leases := t, requests := [q]);
    assert bb.mutations[0].workspace == workspace;
    assert Busy(bb, workspace, false);
  }

  lemma OneRequestLeases(t: Table, workspace: string, now: nat, q: Request)
    requires q.workspace == workspace && now < q.expiresAt
    ensures RefreshedLeases(t, [q], workspace, now, 1) == t
  {
    assert RefreshedLeases(t, [q], workspace, now, 0) == t;
  }

  lemma RefreshIsIdle(b: Board, workspace: string, now: nat, q: Request, m: Mutation)
    requires b.requests == [q] && q.workspace == workspace && now < q.expiresAt && q.phase == Draining
    requires b.mutations == [m] && m.workspace == workspace
    ensures Refreshed(b, workspace, false, now) == b
  {
    OneRequestLeases(b.leases, workspace, now, q);
    assert b.mutations[0].workspace == workspace;
    assert !Quiet(b, workspace);
    RefreshSays(b, workspace, false, now, 0);
    assert Refreshed(b, workspace, false, now).requests == [q];
  }

  lemma FinishedBoard(b: Board, workspace: string, now: nat, q: Request, m: Mutation)
    requires b.requests == [q] && q.workspace == workspace && now < q.expiresAt && q.phase == Draining
    requires b.mutations == [m] && m.workspace == workspace
    ensures MutationFinished(b, workspace, m.id, false, now)
            == b.(requests := [q.(phase := Ready)], mutations := [])
  {
    assert [m][..0] == [] && WithoutId([], m.id) == [];
    assert WithoutId([m], m.id) == [];
    var bb := b.(mutations := []);
    OneRequestLeases(b.leases, workspace, now, q);
    RefreshSays(bb, workspace, false, now, 0);
    assert Refreshed(bb, workspace, false, now).requests == [q.(phase := Ready)];
  }

  lemma RefreshStaysReady(b: Board, workspace: string, now: nat, q: Request)
    requires b.requests == [q.(phase := Ready)] && q.workspace == workspace && now < q.expiresAt && b.mutations == []
    ensures Refreshed(b, workspace, false, now) == b
  {
    OneRequestLeases(b.leases, workspace, now, q.(phase := Ready));
    RefreshSays(b, workspace, false, now, 0);
  }
}
