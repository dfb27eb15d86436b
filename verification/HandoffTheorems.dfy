/** A driver is never taken over while one of its recorded mutations is open. */
module HandoffTheorems {
  import opened Common
  import opened Leases
  import opened Handoff
  import L = LeaseTheorems

  /** The board, every lease ever issued, and the latest clock reading. */
  datatype System = System(board: Board, issued: seq<L.Issue>, clock: nat)

  const INITIAL := System(Board(EMPTY, [], []), [], 0)

  datatype Event =
    | Start(m: Mutation)
    | Finish(workspace: string, id: string, taskBusy: bool)
    | Ask(workspace: string, requester: string, ttl: nat, taskBusy: bool)
    | Await(workspace: string, requester: string, ttl: nat, taskBusy: bool)
    | Cancel(workspace: string, requester: string)
    | Status(workspace: string, taskBusy: bool)
    | LeaseOp(op: L.Op)

  ghost function Secret(s: System): Token {
    Minted(|s.issued|)
  }

  ghost function AwaitResult(s: System, e: Event, now: nat): (Board, Result<(Request, Lease), Error>)
    requires e.Await?
  {
    Awaited(s.board, e.workspace, e.requester, e.ttl, e.taskBusy, now, Secret(s))
  }

  /** A step at `now`; the clock never goes back. Any other lease operation, gated or
      not, may happen between handoff steps. */
  ghost function Step(s: System, e: Event, now: nat): System {
    if now < s.clock then s
    else
      var b := s.board;
      match e
      case Start(m) => System(Started(b, m, now).0, s.issued, now)
      case Finish(workspace, id, taskBusy) => System(MutationFinished(b, workspace, id, taskBusy, now), s.issued, now)
      case Ask(workspace, requester, ttl, taskBusy) =>
        System(HandoffAsked(b, workspace, requester, ttl, taskBusy, now).0, s.issued, now)
      case Await(_, _, _, _) =>
        var (b', r) := AwaitResult(s, e, now);
        if r.Err? then System(b', s.issued, now)
        else
          var lease := r.value.1;
          System(b', s.issued + [L.Issue(lease.resource, lease.owner, lease.fence, lease.token)], now)
      case Cancel(workspace, requester) => System(CancelledHandoff(b, workspace, requester, now).0, s.issued, now)
      case Status(workspace, taskBusy) => System(Refreshed(b, workspace, taskBusy, now), s.issued, now)
      case LeaseOp(op) =>
        var l := L.Step(L.System(b.leases, s.issued), op, now);
        System(b.(leases := l.table), l.issued, now)
  }

  ghost function Run(s: System, events: seq<(Event, nat)>): System
    decreases |events|
  {
    if events == [] then s else Run(Step(s, events[0].0, events[0].1), events[1..])
  }

  // ------------------------------------------------------------------- invariant

  predicate Blocks(m: Mutation, q: Request) {
    m.workspace == q.workspace && q.previousOwner == Some(m.agent)
  }

  /** An unexpired request that is ready has seen its previous owner fall silent. */
  ghost predicate ReadyMeansDrained(requests: seq<Request>, mutations: seq<Mutation>, clock: nat) {
    forall i, k :: 0 <= i < |requests| && 0 <= k < |mutations| && requests[i].phase.Ready?
                   && requests[i].expiresAt > clock
                   ==> !Blocks(mutations[k], requests[i])
  }

  ghost predicate Sound(s: System) {
    && L.Sound(L.System(s.board.leases, s.issued))
    && ReadyMeansDrained(s.board.requests, s.board.mutations, s.clock)
  }

  lemma {:induction false} RefreshKeepsLeases(t: Table, issued: seq<L.Issue>, requests: seq<Request>,
                                              workspace: string, now: nat, n: nat)
    requires n <= |requests| && L.Sound(L.System(t, issued))
    ensures L.Sound(L.System(RefreshedLeases(t, requests, workspace, now, n), issued))
  {
    hide L.Sound;
    if n > 0 {
      RefreshKeepsLeases(t, issued, requests, workspace, now, n - 1);
      var before := RefreshedLeases(t, requests, workspace, now, n - 1);
      var q := requests[n - 1];
      L.StepKeepsSound(L.System(before, issued), L.CancelHandoff(ResourceOf(q.workspace), q.requestedBy), now);
    }
  }

  lemma RefreshKeepsDrained(b: Board, workspace: string, taskBusy: bool, clock: nat, now: nat)
    requires ReadyMeansDrained(b.requests, b.mutations, clock) && clock <= now
    ensures ReadyMeansDrained(Refreshed(b, workspace, taskBusy, now).requests, b.mutations, now)
  {
    var requests := Refreshed(b, workspace, taskBusy, now).requests;
    forall i, k | 0 <= i < |requests| && 0 <= k < |b.mutations| && requests[i].phase.Ready?
                   && requests[i].expiresAt > now
      ensures !Blocks(b.mutations[k], requests[i])
    {
      if b.requests[i].phase.Ready? {
        assert !Blocks(b.mutations[k], b.requests[i]);
      } else {
        assert !Busy(b, workspace, taskBusy);
        assert b.mutations[k].workspace != workspace;
      }
    }
  }

  lemma {:induction false} WithoutIdSelects(ms: seq<Mutation>, id: string)
    ensures forall m :: m in WithoutId(ms, id) <==> m in ms && m.id != id
  {
    if ms != [] {
      WithoutIdSelects(ms[..|ms| - 1], id);
      assert ms == ms[..|ms| - 1] + [ms[|ms| - 1]];
    }
  }

  lemma FewerMutations(requests: seq<Request>, ms: seq<Mutation>, fewer: seq<Mutation>, clock: nat)
    requires ReadyMeansDrained(requests, ms, clock) && forall m :: m in fewer ==> m in ms
    ensures ReadyMeansDrained(requests, fewer, clock)
  {
    forall i, k | 0 <= i < |requests| && 0 <= k < |fewer| && requests[i].phase.Ready? && requests[i].expiresAt > clock
      ensures !Blocks(fewer[k], requests[i])
    {
      assert fewer[k] in ms;
      var j :| 0 <= j < |ms| && ms[j] == fewer[k];
    }
  }

  lemma LaterClock(requests: seq<Request>, ms: seq<Mutation>, clock: nat, now: nat)
    requires ReadyMeansDrained(requests, ms, clock) && clock <= now
    ensures ReadyMeansDrained(requests, ms, now)
  {
  }

  /** A mutation is only recorded when no unexpired request is draining its agent. */
  lemma StartKeepsDrained(b: Board, m: Mutation, clock: nat, now: nat)
    requires ReadyMeansDrained(b.requests, b.mutations, clock) && clock <= now
    ensures ReadyMeansDrained(b.requests, Started(b, m, now).0.mutations, now)
  {
  }

  lemma StepKeepsSound(s: System, e: Event, now: nat)
    requires Sound(s)
    ensures Sound(Step(s, e, now))
  {
    if now >= s.clock {
      StepKeepsLeases(s, e, now);
      StepKeepsDrained(s, e, now);
    }
  }

  lemma StepKeepsLeases(s: System, e: Event, now: nat)
    requires L.Sound(L.System(s.board.leases, s.issued)) && s.clock <= now
    ensures L.Sound(L.System(Step(s, e, now).board.leases, Step(s, e, now).issued))
  {
    hide L.Sound, RefreshedLeases, RefreshedRequests;
    var b := s.board;
    var sys := L.System(b.leases, s.issued);
    match e {
      case Start(_) =>
      case Finish(workspace, _, _) => RefreshKeepsLeases(b.leases, s.issued, b.requests, workspace, now, |b.requests|);
      case Status(workspace, _) => RefreshKeepsLeases(b.leases, s.issued, b.requests, workspace, now, |b.requests|);
      case Ask(workspace, requester, ttl, taskBusy) => AskKeepsLeases(s, workspace, requester, ttl, taskBusy, now);
      case Await(_, _, _, _) => AwaitKeepsLeases(s, e, now);
      case Cancel(workspace, requester) =>
        L.StepKeepsSound(sys, L.CancelHandoff(ResourceOf(workspace), requester), now);
      case LeaseOp(op) => L.StepKeepsSound(sys, op, now);
    }
  }

  lemma AskKeepsLeases(s: System, workspace: string, requester: string, ttl: nat, taskBusy: bool, now: nat)
    requires L.Sound(L.System(s.board.leases, s.issued))
    ensures L.Sound(L.System(HandoffAsked(s.board, workspace, requester, ttl, taskBusy, now).0.leases, s.issued))
  {
    hide L.Sound, RefreshedLeases, RefreshedRequests;
    var b := s.board;
    var resource := ResourceOf(workspace);
    var held := resource in b.leases.leases;
    L.StepKeepsSound(L.System(b.leases, s.issued), L.RequestHandoff(resource, requester), now);
    var leases := if held then HandoffRequested(b.leases, resource, requester, now).0 else b.leases;
    var previous := if held then Some(b.leases.leases[resource].owner) else None;
    var phase := if held then Draining else Ready;
    var q := Request(workspace, requester, previous, phase, now, SaturatingAdd(now, ttl), None);
    RefreshKeepsLeases(leases, s.issued, b.requests + [q], workspace, now, |b.requests| + 1);
  }

  lemma AwaitKeepsLeases(s: System, e: Event, now: nat)
    requires e.Await? && L.Sound(L.System(s.board.leases, s.issued)) && s.clock <= now
    ensures L.Sound(L.System(Step(s, e, now).board.leases, Step(s, e, now).issued))
  {
    hide L.Sound, RefreshedLeases, RefreshedRequests;
    RefreshKeepsLeases(s.board.leases, s.issued, s.board.requests, e.workspace, now, |s.board.requests|);
    var b := Refreshed(s.board, e.workspace, e.taskBusy, now);
    var sys := L.System(b.leases, s.issued);
    L.StepKeepsSound(sys, L.TakeHandoff(ResourceOf(e.workspace), e.requester, e.ttl), now);
    L.StepKeepsSound(sys, L.Acquire(Driver, ResourceOf(e.workspace), e.requester, e.ttl, ""), now);
  }

  lemma ClosedKeepsDrained(requests: seq<Request>, ms: seq<Mutation>, i: nat, q: Request, clock: nat)
    requires ReadyMeansDrained(requests, ms, clock) && i < |requests| && !q.phase.Ready?
    ensures ReadyMeansDrained(requests[i := q], ms, clock)
  {
  }

  lemma StepKeepsDrained(s: System, e: Event, now: nat)
    requires ReadyMeansDrained(s.board.requests, s.board.mutations, s.clock) && s.clock <= now
    ensures ReadyMeansDrained(Step(s, e, now).board.requests, Step(s, e, now).board.mutations, now)
  {
    hide RefreshedLeases, RefreshedRequests, WithoutId;
    var b := s.board;
    LaterClock(b.requests, b.mutations, s.clock, now);
    match e {
      case Start(m) => StartKeepsDrained(b, m, s.clock, now);
      case Finish(workspace, id, taskBusy) =>
        WithoutIdSelects(b.mutations, id);
        FewerMutations(b.requests, b.mutations, WithoutId(b.mutations, id), now);
        RefreshKeepsDrained(b.(mutations := WithoutId(b.mutations, id)), workspace, taskBusy, now, now);
      case Status(workspace, taskBusy) => RefreshKeepsDrained(b, workspace, taskBusy, s.clock, now);
      case Ask(workspace, requester, ttl, taskBusy) =>
          AskKeepsDrained(b, workspace, requester, ttl, taskBusy, s.clock, now);
      case Await(workspace, requester, _, taskBusy) =>
        RefreshKeepsDrained(b, workspace, taskBusy, s.clock, now);
        var requests := Refreshed(b, workspace, taskBusy, now).requests;
        var found := Newest(requests, workspace, requester, Awaitable());
        if found.Some? {
          ClosedKeepsDrained(requests, b.mutations, found.value,
                             requests[found.value].(phase := Completed, completedAt := Some(now)), now);
        }
      case Cancel(workspace, requester) =>
        var found := Newest(b.requests, workspace, requester, Cancellable());
        if found.Some? {
          ClosedKeepsDrained(b.requests, b.mutations, found.value, b.requests[found.value].(phase := Cancelled), now);
        }
      case LeaseOp(op) =>
    }
  }

  lemma AskKeepsDrained(b: Board, workspace: string, requester: string, ttl: nat, taskBusy: bool, clock: nat, now: nat)
    requires ReadyMeansDrained(b.requests, b.mutations, clock) && clock <= now
    ensures ReadyMeansDrained(HandoffAsked(b, workspace, requester, ttl, taskBusy, now).0.requests, b.mutations, now)
  {
    hide RefreshedLeases, RefreshedRequests;
    LaterClock(b.requests, b.mutations, clock, now);
    var resource := ResourceOf(workspace);
    var held := resource in b.leases.leases;
    var leases := if held then HandoffRequested(b.leases, resource, requester, now).0 else b.leases;
    var previous := if held then Some(b.leases.leases[resource].owner) else None;
    var phase := if held then Draining else Ready;
    var q := Request(workspace, requester, previous, phase, now, SaturatingAdd(now, ttl), None);
    assert ReadyMeansDrained(b.requests + [q], b.mutations, now);
    RefreshKeepsDrained(b.(leases := leases, requests := b.requests + [q]), workspace, taskBusy, now, now);
  }

  lemma {:induction false} RunKeepsSound(s: System, events: seq<(Event, nat)>)
    requires Sound(s)
    ensures Sound(Run(s, events))
    decreases |events|
  {
    hide Sound, Step;
    if events != [] {
      StepKeepsSound(s, events[0].0, events[0].1);
      RunKeepsSound(Step(s, events[0].0, events[0].1), events[1..]);
    }
  }

  // ------------------------------------------------------------------- takeover

  lemma ServedRequestIsLive(s: System, e: Event, now: nat)
    requires e.Await? && Sound(s) && s.clock <= now && AwaitResult(s, e, now).1.Ok?
    ensures var q := AwaitResult(s, e, now).1.value.0;
            && q.workspace == e.workspace && q.requestedBy == e.requester && q.phase.Ready? && q.expiresAt > now
            && q in Refreshed(s.board, e.workspace, e.taskBusy, now).requests
  {
    hide RefreshedLeases;
    var requests := Refreshed(s.board, e.workspace, e.taskBusy, now).requests;
    var i := Newest(requests, e.workspace, e.requester, Awaitable()).value;
    assert requests[i]
           == RefreshedRequest(s.board.requests[i], e.workspace, Busy(s.board, e.workspace, e.taskBusy), now);
  }

  /** Over every run: whenever an await takes the lease over from a recorded previous
      owner, no recorded mutation of that owner is open in the workspace, the fence is
      above every fence issued for the workspace before, and no earlier token of it
      validates any more, for anyone, at any time. */
  lemma TakeoverIsClean(events: seq<(Event, nat)>, e: Event, now: nat)
    requires e.Await? && Run(INITIAL, events).clock <= now
    requires AwaitResult(Run(INITIAL, events), e, now).1.Ok?
    requires AwaitResult(Run(INITIAL, events), e, now).1.value.0.previousOwner.Some?
    ensures var s := Run(INITIAL, events);
            var s' := Step(s, e, now);
            var (q, lease) := AwaitResult(s, e, now).1.value;
            && (forall m :: m in s'.board.mutations ==>
                  !(m.workspace == e.workspace && m.agent == q.previousOwner.value))
            && lease.owner == e.requester && lease.resource == ResourceOf(e.workspace)
            && (forall k :: 0 <= k < |s.issued| && s.issued[k].resource == lease.resource ==>
                  s.issued[k].fence < lease.fence)
            && (forall k, who, time :: 0 <= k < |s.issued| && s.issued[k].resource == lease.resource ==>
                  Validated(s'.board.leases, lease.resource, who, s.issued[k].token, time).Err?)
  {
    var s := Run(INITIAL, events);
    RunKeepsSound(INITIAL, events);
    StepKeepsSound(s, e, now);
    ServedRequestIsLive(s, e, now);
    TakeoverDrained(s, e, now);
    TakeoverFenced(s, e, now);
  }

  lemma TakeoverDrained(s: System, e: Event, now: nat)
    requires e.Await? && Sound(s) && s.clock <= now && AwaitResult(s, e, now).1.Ok?
    requires AwaitResult(s, e, now).1.value.0.previousOwner.Some?
    ensures var q := AwaitResult(s, e, now).1.value.0;
            forall m :: m in Step(s, e, now).board.mutations ==>
                     !(m.workspace == e.workspace && m.agent == q.previousOwner.value)
  {
    hide RefreshedLeases, RefreshedRequests;
    ServedRequestIsLive(s, e, now);
    RefreshKeepsDrained(s.board, e.workspace, e.taskBusy, s.clock, now);
    var q := AwaitResult(s, e, now).1.value.0;
    forall m | m in s.board.mutations
      ensures !Blocks(m, q)
    {
      var k :| 0 <= k < |s.board.mutations| && s.board.mutations[k] == m;
    }
  }

  lemma TakeoverFenced(s: System, e: Event, now: nat)
    requires e.Await? && Sound(s) && Sound(Step(s, e, now)) && s.clock <= now && AwaitResult(s, e, now).1.Ok?
    requires AwaitResult(s, e, now).1.value.0.previousOwner.Some?
    ensures var s' := Step(s, e, now);
            var lease := AwaitResult(s, e, now).1.value.1;
            && lease.owner == e.requester && lease.resource == ResourceOf(e.workspace)
            && (forall k :: 0 <= k < |s.issued| && s.issued[k].resource == lease.resource ==>
                  s.issued[k].fence < lease.fence)
            && (forall k, who, time :: 0 <= k < |s.issued| && s.issued[k].resource == lease.resource ==>
                  Validated(s'.board.leases, lease.resource, who, s.issued[k].token, time).Err?)
  {
    hide RefreshedLeases, RefreshedRequests;
    var s' := Step(s, e, now);
    var lease := AwaitResult(s, e, now).1.value.1;
    RefreshKeepsLeases(s.board.leases, s.issued, s.board.requests, e.workspace, now, |s.board.requests|);
    assert s'.issued == s.issued + [L.Issue(lease.resource, lease.owner, lease.fence, lease.token)];
    forall k, who, time: nat | 0 <= k < |s.issued| && s.issued[k].resource == lease.resource
      ensures Validated(s'.board.leases, lease.resource, who, s.issued[k].token, time).Err?
    {
      L.StaleTokenDead(L.System(s'.board.leases, s'.issued), k, |s.issued|, who, time);
    }
  }
}
