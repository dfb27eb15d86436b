/** Fencing over every run of the lease table, exact restart, and all-or-nothing locking. */
module LeaseTheorems {
  import opened Common
  import opened Leases

  // ------------------------------------------------------------------------ runs

  /** One lease handed to a new owner: by `acquire` or by `take_handoff`. */
  datatype Issue = Issue(resource: string, owner: string, fence: nat, token: Token)

  /** The table and every lease ever issued, oldest first. Fresh secrets are numbered. */
  datatype System = System(table: Table, issued: seq<Issue>)

  const INITIAL := System(EMPTY, [])

  datatype Op =
    | Acquire(kind: Kind, resource: string, owner: string, ttl: nat, id: string)
    | Renew(resource: string, owner: string, token: Token, ttl: nat)
    | Handoff(resource: string, owner: string, token: Token, target: string)
    | RequestHandoff(resource: string, target: string)
    | CancelHandoff(resource: string, target: string)
    | TakeHandoff(resource: string, target: string, ttl: nat)
    | Release(resource: string, owner: string, token: Token)
    | Reap
    | Restart(order: seq<string>)

  ghost function Step(s: System, op: Op, now: nat): System {
    var secret := Minted(|s.issued|);
    match op
    case Acquire(kind, resource, owner, ttl, id) =>
        Issued(s, Acquired(s.table, kind, resource, owner, ttl, now, id, secret))
    case TakeHandoff(resource, target, ttl) => Issued(s, HandoffTaken(s.table, resource, target, ttl, now, secret))
    case Renew(resource, owner, token, ttl) => s.(table := Renewed(s.table, resource, owner, token, ttl, now).0)
    case Handoff(resource, owner, token, target) =>
        s.(table := HandedOff(s.table, resource, owner, token, target, now).0)
    case RequestHandoff(resource, target) => s.(table := HandoffRequested(s.table, resource, target, now).0)
    case CancelHandoff(resource, target) => s.(table := HandoffCancelled(s.table, resource, target, now).0)
    case Release(resource, owner, token) => s.(table := Released(s.table, resource, owner, token, now).0)
    case Reap => s.(table := Reaped(s.table, now))
    case Restart(order) =>
      if Lists(order, s.table) then s.(table := Restored(PersistedLeases(s.table, order), s.table.fences)) else s
  }

  function Issued(s: System, result: (Table, Outcome)): System {
    if result.1.Err? then s
    else
      var lease := result.1.value;
      System(result.0, s.issued + [Issue(lease.resource, lease.owner, lease.fence, lease.token)])
  }

  /** The clock readings need not even be ordered. */
  ghost function Run(s: System, ops: seq<(Op, nat)>): System
    decreases |ops|
  {
    if ops == [] then s else Run(Step(s, ops[0].0, ops[0].1), ops[1..])
  }

  // ------------------------------------------------------------------- invariant

  /** A stored token is `secret` itself or its digest. */
  predicate Denotes(stored: Token, secret: Token) {
    stored == secret || stored == Sha256(secret)
  }

  /** Each lease sits under its resource with the highest fence given out there. */
  ghost predicate Consistent(t: Table) {
    forall r :: r in t.leases ==> t.leases[r].resource == r && r in t.fences && t.fences[r] == t.leases[r].fence
  }

  ghost predicate FencesRise(issued: seq<Issue>) {
    forall k, l :: 0 <= k < l < |issued| && issued[k].resource == issued[l].resource ==>
             issued[k].fence < issued[l].fence
  }

  ghost predicate TokensNumbered(issued: seq<Issue>) {
    forall k :: 0 <= k < |issued| ==> issued[k].token == Minted(k)
  }

  ghost predicate FencesCover(t: Table, issued: seq<Issue>) {
    forall k :: 0 <= k < |issued| ==> issued[k].resource in t.fences && issued[k].fence <= t.fences[issued[k].resource]
  }

  ghost predicate IsIssue(lease: Lease, issued: seq<Issue>, k: nat) {
    && k < |issued| && issued[k].resource == lease.resource && issued[k].owner == lease.owner
    && issued[k].fence == lease.fence && Denotes(lease.token, issued[k].token)
  }

  ghost predicate LeasesIssued(t: Table, issued: seq<Issue>) {
    forall r :: r in t.leases ==> exists k :: IsIssue(t.leases[r], issued, k)
  }

  ghost predicate Sound(s: System) {
    && Consistent(s.table) && FencesRise(s.issued) && TokensNumbered(s.issued)
    && FencesCover(s.table, s.issued) && LeasesIssued(s.table, s.issued)
  }

  predicate SameIssue(a: Lease, b: Lease) {
    && a.resource == b.resource && a.owner == b.owner && a.fence == b.fence
    && (a.token == b.token || a.token == Hashed(b).token)
  }

  /** A change that keeps every lease's identity keeps the invariant. */
  lemma EditKeepsSound(s: System, t: Table)
    requires Sound(s) && t.fences == s.table.fences
    requires forall r :: r in t.leases ==> r in s.table.leases && SameIssue(t.leases[r], s.table.leases[r])
    ensures Sound(s.(table := t))
  {
    forall r | r in t.leases
      ensures exists k :: IsIssue(t.leases[r], s.issued, k)
    {
      var k: nat :| IsIssue(s.table.leases[r], s.issued, k);
      assert IsIssue(t.leases[r], s.issued, k);
    }
  }

  lemma IssueKeepsSound(s: System, t: Table, lease: Lease)
    requires Sound(s) && lease.token == Minted(|s.issued|)
    requires t == Table(s.table.leases[lease.resource := lease], s.table.fences[lease.resource := lease.fence])
    requires lease.fence > FenceOf(s.table, lease.resource, 0)
    ensures Sound(System(t, s.issued + [Issue(lease.resource, lease.owner, lease.fence, lease.token)]))
  {
    var issued := s.issued + [Issue(lease.resource, lease.owner, lease.fence, lease.token)];
    forall r | r in t.leases
      ensures exists k :: IsIssue(t.leases[r], issued, k)
    {
      if r == lease.resource {
        assert IsIssue(t.leases[r], issued, |s.issued|);
      } else {
        var k: nat :| IsIssue(s.table.leases[r], s.issued, k);
        assert IsIssue(t.leases[r], issued, k);
      }
    }
  }

  lemma RestartKeepsSound(s: System, order: seq<string>)
    requires Sound(s) && Lists(order, s.table)
    ensures Sound(s.(table := Restored(PersistedLeases(s.table, order), s.table.fences)))
  {
    RestoreIsHash(s.table, order);
    EditKeepsSound(s, HashedTable(s.table));
  }

  lemma StepKeepsSound(s: System, op: Op, now: nat)
    requires Sound(s)
    ensures Sound(Step(s, op, now))
  {
    hide Sound, Lists, Restored;
    var s' := Step(s, op, now);
    match op {
      case Acquire(kind, resource, owner, ttl, id) =>
        if s' != s {
          IssueKeepsSound(s, s'.table, s'.table.leases[resource]);
        }
      case TakeHandoff(resource, target, ttl) =>
        if s' != s {
          TakenLease(s, resource, target, ttl, now);
          IssueKeepsSound(s, s'.table, s'.table.leases[resource]);
        }
      case Restart(order) =>
        if Lists(order, s.table) {
          RestartKeepsSound(s, order);
        }
      case _ => EditKeepsSound(s, s'.table);
    }
  }

  lemma TakenLease(s: System, resource: string, target: string, ttl: nat, now: nat)
    requires Sound(s) && HandoffTaken(s.table, resource, target, ttl, now, Minted(|s.issued|)).1.Ok?
    ensures var lease := HandoffTaken(s.table, resource, target, ttl, now, Minted(|s.issued|)).1.value;
            lease.resource == resource && lease.fence > FenceOf(s.table, resource, 0)
  {
  }

  lemma {:induction false} RunKeepsSound(s: System, ops: seq<(Op, nat)>)
    requires Sound(s)
    ensures Sound(Run(s, ops))
    decreases |ops|
  {
    if ops != [] {
      StepKeepsSound(s, ops[0].0, ops[0].1);
      RunKeepsSound(Step(s, ops[0].0, ops[0].1), ops[1..]);
    }
  }

  // -------------------------------------------------------------------- fencing

  /** The leases issued for a resource, in order, carry strictly increasing fences,
      over any mix of operations and restarts. */
  lemma FencesStrictlyIncrease(ops: seq<(Op, nat)>, k: nat, l: nat)
    requires k < l < |Run(INITIAL, ops).issued|
    requires Run(INITIAL, ops).issued[k].resource == Run(INITIAL, ops).issued[l].resource
    ensures Run(INITIAL, ops).issued[k].fence < Run(INITIAL, ops).issued[l].fence
  {
    RunKeepsSound(INITIAL, ops);
  }

  /** A token validates only if it is the one issued last for that resource: an older
      one is dead for every claimed owner at every time, before or after a restart. */
  lemma OnlyLastTokenValidates(ops: seq<(Op, nat)>, k: nat, l: nat, owner: string, now: nat)
    requires k < l < |Run(INITIAL, ops).issued|
    requires Run(INITIAL, ops).issued[k].resource == Run(INITIAL, ops).issued[l].resource
    ensures Validated(Run(INITIAL, ops).table, Run(INITIAL, ops).issued[k].resource, owner,
                      Run(INITIAL, ops).issued[k].token, now).Err?
  {
    RunKeepsSound(INITIAL, ops);
    var s := Run(INITIAL, ops);
    StaleTokenDead(s, k, l, owner, now);
  }

  lemma StaleTokenDead(s: System, k: nat, l: nat, owner: string, now: nat)
    requires Sound(s) && k < l < |s.issued| && s.issued[k].resource == s.issued[l].resource
    ensures Validated(s.table, s.issued[k].resource, owner, s.issued[k].token, now).Err?
  {
    var r := s.issued[k].resource;
    if r in s.table.leases {
      var lease := s.table.leases[r];
      var m: nat :| IsIssue(lease, s.issued, m);
      assert s.issued[l].fence <= s.table.fences[r] == lease.fence == s.issued[m].fence;
      assert m >= l;
      assert s.issued[m].token == Minted(m) && s.issued[k].token == Minted(k);
    }
  }

  /** A minted token nobody was given validates nothing. */
  lemma UnissuedTokenDead(ops: seq<(Op, nat)>, n: nat, resource: string, owner: string, now: nat)
    requires n >= |Run(INITIAL, ops).issued|
    ensures Validated(Run(INITIAL, ops).table, resource, owner, Minted(n), now).Err?
  {
    RunKeepsSound(INITIAL, ops);
    var s := Run(INITIAL, ops);
    if resource in s.table.leases {
      var m: nat :| IsIssue(s.table.leases[resource], s.issued, m);
      assert s.issued[m].token == Minted(m);
    }
  }

  // -------------------------------------------------------------------- exclusivity

  /** The lease on `resource` is `owner`'s under the n-th secret until `expires`. */
  predicate HoldsUntil(t: Table, resource: string, owner: string, n: nat, expires: nat) {
    && resource in t.leases && t.leases[resource].owner == owner
    && Denotes(t.leases[resource].token, Minted(n)) && t.leases[resource].expiresAt == expires
  }

  /** What can end or restart a live lease: its holder renewing or releasing it, and a take
      by whom the lease names as its next holder. */
  predicate Touches(t: Table, op: Op, resource: string, owner: string, n: nat) {
    match op
    case Renew(r, o, token, _) => r == resource && o == owner && token == Minted(n)
    case Release(r, o, token) => r == resource && o == owner && token == Minted(n)
    case TakeHandoff(r, target, _) => r == resource && r in t.leases && t.leases[r].handoffTo == Some(target)
    case _ => false
  }

  /** All clock readings are before `expires`, and no operation touches the lease. */
  ghost predicate NoneTouches(s: System, ops: seq<(Op, nat)>, resource: string, owner: string, n: nat, expires: nat) {
    forall k :: 0 <= k < |ops| ==>
      ops[k].1 < expires && !Touches(Run(s, ops[..k]).table, ops[k].0, resource, owner, n)
  }

  lemma {:induction false} RunExtends(s: System, ops: seq<(Op, nat)>)
    requires ops != []
    ensures var n := |ops| - 1; Run(s, ops) == Step(Run(s, ops[..n]), ops[n].0, ops[n].1)
    decreases |ops|
  {
    var n := |ops| - 1;
    if n == 0 {
      assert ops[..0] == [] && ops[1..] == [];
      assert Run(Step(s, ops[0].0, ops[0].1), []) == Step(s, ops[0].0, ops[0].1);
    } else {
      hide Step;
      assert ops[1..][..n - 1] == ops[..n][1..];
      RunExtends(Step(s, ops[0].0, ops[0].1), ops[1..]);
    }
  }

  lemma StepKeepsHolder(s: System, op: Op, now: nat, resource: string, owner: string, n: nat, expires: nat)
    requires Sound(s) && HoldsUntil(s.table, resource, owner, n, expires) && now < expires
    requires !Touches(s.table, op, resource, owner, n)
    ensures HoldsUntil(Step(s, op, now).table, resource, owner, n, expires)
  {
    if op.Restart? && Lists(op.order, s.table) {
      RestoreIsHash(s.table, op.order);
    }
    hide Sound, Lists, Restored;
  }

  lemma {:induction false} RunKeepsHolder(s: System, ops: seq<(Op, nat)>, resource: string, owner: string, n: nat,
                                          expires: nat)
    requires Sound(s) && HoldsUntil(s.table, resource, owner, n, expires)
    requires NoneTouches(s, ops, resource, owner, n, expires)
    ensures Sound(Run(s, ops)) && HoldsUntil(Run(s, ops).table, resource, owner, n, expires)
    decreases |ops|
  {
    RunKeepsSound(s, ops);
    if ops != [] {
      var k := |ops| - 1;
      PrefixUntouched(s, ops, k, resource, owner, n, expires);
      assert ops[k].1 < expires && !Touches(Run(s, ops[..k]).table, ops[k].0, resource, owner, n);
      hide Sound, Step, HoldsUntil, Touches, NoneTouches;
      RunKeepsHolder(s, ops[..k], resource, owner, n, expires);
      RunExtends(s, ops);
      StepKeepsHolder(Run(s, ops[..k]), ops[k].0, ops[k].1, resource, owner, n, expires);
    }
  }

  lemma PrefixUntouched(s: System, ops: seq<(Op, nat)>, k: nat, resource: string, owner: string, n: nat, expires: nat)
    requires k <= |ops| && NoneTouches(s, ops, resource, owner, n, expires)
    ensures NoneTouches(s, ops[..k], resource, owner, n, expires)
  {
    hide Run, Touches;
    forall i | 0 <= i < k
      ensures ops[..k][i].1 < expires
              && !Touches(Run(s, ops[..k][..i]).table, ops[..k][i].0, resource, owner, n)
    {
      assert ops[..k][..i] == ops[..i];
      assert ops[i].1 < expires && !Touches(Run(s, ops[..i]).table, ops[i].0, resource, owner, n);
    }
  }

  /** Exclusive: whatever anybody else does to the table before it expires, restarts and
      attempts to take it unnamed included, a lease stays with its holder, whose secret opens
      it exactly until then; and until then nobody acquires the resource. */
  lemma LeaseIsExclusive(s: System, ops: seq<(Op, nat)>, resource: string, owner: string, n: nat, expires: nat,
                         time: nat, other: string, kind: Kind, ttl: nat, id: string, secret: Token)
    requires Sound(s) && HoldsUntil(s.table, resource, owner, n, expires)
    requires NoneTouches(s, ops, resource, owner, n, expires)
    ensures var t := Run(s, ops).table;
            && HoldsUntil(t, resource, owner, n, expires)
            && (Validated(t, resource, owner, Minted(n), time).Ok? <==> time < expires)
            && (Acquired(t, kind, resource, other, ttl, time, id, secret).1.Ok? <==> expires <= time)
  {
    RunKeepsHolder(s, ops, resource, owner, n, expires);
  }

  // ------------------------------------------------------------------ who is named

  /** Whom the lease names after this operation, said of the operations alone: a handoff by
      its holder or a handoff request names a target, a cancellation of that target unnames. */
  function OfferAfter(offer: Option<string>, op: Op, resource: string, owner: string, n: nat): Option<string> {
    match op
    case RequestHandoff(r, target) => if r == resource then Some(target) else offer
    case Handoff(r, o, token, target) =>
      if r == resource && o == owner && token == Minted(n) then Some(target) else offer
    case CancelHandoff(r, target) => if r == resource && offer == Some(target) then None else offer
    case _ => offer
  }

  function Offer(ops: seq<(Op, nat)>, resource: string, owner: string, n: nat): Option<string> {
    if ops == [] then None
    else OfferAfter(Offer(ops[..|ops| - 1], resource, owner, n), ops[|ops| - 1].0, resource, owner, n)
  }

  lemma StepKeepsOffer(s: System, op: Op, now: nat, resource: string, owner: string, n: nat, expires: nat)
    requires Sound(s) && HoldsUntil(s.table, resource, owner, n, expires) && now < expires
    requires !Touches(s.table, op, resource, owner, n)
    ensures resource in Step(s, op, now).table.leases
    ensures Step(s, op, now).table.leases[resource].handoffTo
            == OfferAfter(s.table.leases[resource].handoffTo, op, resource, owner, n)
  {
    if op.Restart? && Lists(op.order, s.table) {
      RestoreIsHash(s.table, op.order);
    }
    hide Sound, Lists, Restored;
  }

  /** What can end or restart a lease, said of the history alone: a renewal or release by its
      holder, or a take by whom the operations so far have named. */
  predicate Ends(op: Op, offer: Option<string>, resource: string, owner: string, n: nat) {
    match op
    case Renew(r, o, token, _) => r == resource && o == owner && token == Minted(n)
    case Release(r, o, token) => r == resource && o == owner && token == Minted(n)
    case TakeHandoff(r, target, _) => r == resource && offer == Some(target)
    case _ => false
  }

  ghost predicate NoneEnds(ops: seq<(Op, nat)>, resource: string, owner: string, n: nat, expires: nat) {
    forall k :: 0 <= k < |ops| ==>
      ops[k].1 < expires && !Ends(ops[k].0, Offer(ops[..k], resource, owner, n), resource, owner, n)
  }

  /** A lease that was just issued names nobody, and what it names later is what the history
      says; while nothing in the history ends it, it stays with its holder. */
  lemma {:induction false} HistoryKeepsHolder(s: System, ops: seq<(Op, nat)>, resource: string, owner: string, n: nat,
                                              expires: nat)
    requires Sound(s) && HoldsUntil(s.table, resource, owner, n, expires)
    requires s.table.leases[resource].handoffTo == None && NoneEnds(ops, resource, owner, n, expires)
    ensures Sound(Run(s, ops)) && HoldsUntil(Run(s, ops).table, resource, owner, n, expires)
    ensures Run(s, ops).table.leases[resource].handoffTo == Offer(ops, resource, owner, n)
    decreases |ops|
  {
    RunKeepsSound(s, ops);
    if ops != [] {
      var k := |ops| - 1;
      PrefixNoneEnds(ops, k, resource, owner, n, expires);
      assert ops[k].1 < expires && !Ends(ops[k].0, Offer(ops[..k], resource, owner, n), resource, owner, n);
      hide Sound, Step, NoneEnds;
      HistoryKeepsHolder(s, ops[..k], resource, owner, n, expires);
      RunExtends(s, ops);
      StepKeepsHolder(Run(s, ops[..k]), ops[k].0, ops[k].1, resource, owner, n, expires);
      StepKeepsOffer(Run(s, ops[..k]), ops[k].0, ops[k].1, resource, owner, n, expires);
    }
  }

  lemma PrefixNoneEnds(ops: seq<(Op, nat)>, k: nat, resource: string, owner: string, n: nat, expires: nat)
    requires k <= |ops| && NoneEnds(ops, resource, owner, n, expires)
    ensures NoneEnds(ops[..k], resource, owner, n, expires)
  {
    hide Offer, Ends;
    forall i | 0 <= i < k
      ensures ops[..k][i].1 < expires
              && !Ends(ops[..k][i].0, Offer(ops[..k][..i], resource, owner, n), resource, owner, n)
    {
      assert ops[..k][..i] == ops[..i];
      assert ops[i].1 < expires && !Ends(ops[i].0, Offer(ops[..i], resource, owner, n), resource, owner, n);
    }
  }

  /** The operation names `target`: a handoff by the holder or a handoff request. */
  predicate NamesNext(op: Op, resource: string, owner: string, n: nat, target: string) {
    op == RequestHandoff(resource, target) || op == Handoff(resource, owner, Minted(n), target)
  }

  /** Named at `j` and not cancelled since. */
  ghost predicate NamedAt(ops: seq<(Op, nat)>, j: nat, resource: string, owner: string, n: nat, target: string) {
    && j < |ops| && NamesNext(ops[j].0, resource, owner, n, target)
    && forall i :: j < i < |ops| ==> ops[i].0 != CancelHandoff(resource, target)
  }

  lemma {:induction false} OfferWasNamed(ops: seq<(Op, nat)>, resource: string, owner: string, n: nat, target: string)
    requires Offer(ops, resource, owner, n) == Some(target)
    ensures exists j :: NamedAt(ops, j, resource, owner, n, target)
    decreases |ops|
  {
    var k := |ops| - 1;
    if NamesNext(ops[k].0, resource, owner, n, target) {
      assert NamedAt(ops, k, resource, owner, n, target);
    } else {
      OfferWasNamed(ops[..k], resource, owner, n, target);
      var j: nat :| NamedAt(ops[..k], j, resource, owner, n, target);
      assert NamedAt(ops, j, resource, owner, n, target);
    }
  }

  /** A live lease that its holder neither renews nor releases leaves it only to somebody a
      handoff or handoff request has named since it was issued, and not cancelled. */
  lemma LeavesOnlyToNamed(s: System, ops: seq<(Op, nat)>, resource: string, owner: string, n: nat, expires: nat)
    requires Sound(s) && HoldsUntil(s.table, resource, owner, n, expires)
    requires s.table.leases[resource].handoffTo == None
    requires forall k :: 0 <= k < |ops| ==> ops[k].1 < expires && !Ends(ops[k].0, None, resource, owner, n)
    requires !HoldsUntil(Run(s, ops).table, resource, owner, n, expires)
    ensures exists k, j, target, ttl ::
              && 0 <= k < |ops| && ops[k].0 == TakeHandoff(resource, target, ttl)
              && NamedAt(ops[..k], j, resource, owner, n, target)
  {
    if NoneEnds(ops, resource, owner, n, expires) {
      HistoryKeepsHolder(s, ops, resource, owner, n, expires);
    } else {
      var k :| 0 <= k < |ops|
               && !(ops[k].1 < expires && !Ends(ops[k].0, Offer(ops[..k], resource, owner, n), resource, owner, n));
      assert ops[k].1 < expires && !Ends(ops[k].0, None, resource, owner, n);
      var target := ops[k].0.target;
      OfferWasNamed(ops[..k], resource, owner, n, target);
      var j: nat :| NamedAt(ops[..k], j, resource, owner, n, target);
      assert ops[k].0 == TakeHandoff(resource, target, ops[k].0.ttl);
    }
  }

  /** A take succeeds exactly for the named target of a lease, and otherwise changes nothing. */
  lemma TakeAnswersIff(t: Table, resource: string, target: string, ttl: nat, now: nat, secret: Token)
    ensures var (t', r) := HandoffTaken(t, resource, target, ttl, now, secret);
            && (r.Ok? <==> resource in t.leases && t.leases[resource].handoffTo == Some(target))
            && (r.Err? ==> t' == t)
            && (r.Ok? ==> t'.leases == t.leases[resource := r.value] && r.value.owner == target
                          && r.value.token == secret && r.value.handoffTo == None
                          && r.value.expiresAt == SaturatingAdd(now, ttl))
  {
  }

  /** A handoff is the holder's to give, a handoff request anybody's while the lease lives,
      and a cancellation its target's; the target may then take the lease, and nobody else. */
  lemma NamingLetsTake(t: Table, resource: string, owner: string, token: Token, target: string, now: nat,
                       other: string, ttl: nat, later: nat, secret: Token)
    ensures var (t', r) := HandedOff(t, resource, owner, token, target, now);
            && (r.Ok? <==> Validated(t, resource, owner, token, now).Ok?) && (r.Err? ==> t' == t)
            && (r.Ok? ==> (HandoffTaken(t', resource, other, ttl, later, secret).1.Ok? <==> other == target))
    ensures var (t', r) := HandoffRequested(t, resource, target, now);
            && (r.Ok? <==> resource in t.leases && now < t.leases[resource].expiresAt) && (r.Err? ==> t' == t)
            && (r.Ok? ==> r.value.token == Text("")
                          && (HandoffTaken(t', resource, other, ttl, later, secret).1.Ok? <==> other == target))
    ensures var (t', r) := HandoffCancelled(t, resource, target, now);
            && (r.Ok? <==> resource in t.leases && t.leases[resource].handoffTo == Some(target))
            && (r.Err? ==> t' == t)
            && (r.Ok? ==> HandoffTaken(t', resource, other, ttl, later, secret).1.Err?)
  {
  }

  /** An acquisition succeeds exactly when no live lease is in the way, and is told whose
      otherwise; the new lease names nobody yet. */
  lemma AcquireAnswersIff(t: Table, kind: Kind, resource: string, owner: string, ttl: nat, now: nat, id: string,
                          secret: Token)
    ensures var (t', r) := Acquired(t, kind, resource, owner, ttl, now, id, secret);
            && (r.Ok? <==> resource !in t.leases || t.leases[resource].expiresAt <= now)
            && (r.Err? ==> t' == t && r.error == Taken(t.leases[resource].owner, t.leases[resource].expiresAt))
            && (r.Ok? ==> t'.leases == t.leases[resource := r.value] && r.value.owner == owner && r.value.kind == kind
                          && r.value.token == secret && r.value.handoffTo == None && r.value.acquiredAt == now
                          && r.value.expiresAt == SaturatingAdd(now, ttl))
  {
  }

  /** A renewal and a release succeed exactly for credentials that validate now; a release
      takes that lease away and nothing else. */
  lemma HolderAnswersIff(t: Table, resource: string, owner: string, token: Token, ttl: nat, now: nat)
    ensures var (t', r) := Renewed(t, resource, owner, token, ttl, now);
            && (r.Ok? <==> Validated(t, resource, owner, token, now).Ok?) && (r.Err? ==> t' == t)
            && (r.Ok? ==> t'.leases == t.leases[resource := t.leases[resource].(updatedAt := now,
                                                                                 expiresAt := SaturatingAdd(now, ttl))])
    ensures var (t', r) := Released(t, resource, owner, token, now);
            && (r.Ok? <==> Validated(t, resource, owner, token, now).Ok?) && (r.Err? ==> t' == t)
            && (r.Ok? ==> t'.leases == t.leases - {resource} && t'.fences == t.fences)
  {
  }

  /** Reaping removes exactly the leases whose time is over, and no fence. */
  lemma ReapRemovesExpired(t: Table, now: nat)
    ensures Reaped(t, now).fences == t.fences
    ensures forall r :: r in Reaped(t, now).leases <==> r in t.leases && now < t.leases[r].expiresAt
    ensures forall r :: r in Reaped(t, now).leases ==> Reaped(t, now).leases[r] == t.leases[r]
  {
  }

  /** Acquiring starts such a holding, and a renewal restarts it from the renewal's clock. */
  lemma AcquireStartsHolding(t: Table, kind: Kind, resource: string, owner: string, ttl: nat, now: nat, id: string,
                             n: nat,
                             again: nat, later: nat)
    requires Acquired(t, kind, resource, owner, ttl, now, id, Minted(n)).1.Ok?
    ensures var t' := Acquired(t, kind, resource, owner, ttl, now, id, Minted(n)).0;
            && HoldsUntil(t', resource, owner, n, SaturatingAdd(now, ttl))
            && (later < SaturatingAdd(now, ttl) ==>
                  HoldsUntil(Renewed(t', resource, owner, Minted(n), again, later).0, resource, owner, n,
                             SaturatingAdd(later, again)))
            && (later >= SaturatingAdd(now, ttl) ==>
                  Renewed(t', resource, owner, Minted(n), again, later) == (t', Err(NotFound)))
  {
  }

  // ---------------------------------------------------------------- exact restart

  function HashedTable(t: Table): Table {
    t.(leases := map r | r in t.leases :: Hashed(t.leases[r]))
  }

  /** Restoring one more lease whose fence is already known only adds that lease. */
  lemma RestoredStep(saved: seq<Lease>, fences: map<string, nat>)
    requires saved != []
    requires Restored(saved[..|saved| - 1], fences).fences == fences
    requires var lease := saved[|saved| - 1]; lease.resource in fences && fences[lease.resource] >= lease.fence
    ensures var lease := saved[|saved| - 1];
            Restored(saved, fences)
                == Table(Restored(saved[..|saved| - 1], fences).leases[lease.resource := lease], fences)
  {
    var lease := saved[|saved| - 1];
    assert fences[lease.resource := fences[lease.resource]] == fences;
  }

  lemma PersistedAt(t: Table, order: seq<string>, i: nat)
    requires Consistent(t) && Lists(order, t) && i < |order|
    ensures order[i] in t.leases && PersistedLeases(t, order)[i] == Hashed(t.leases[order[i]])
    ensures PersistedLeases(t, order)[i].resource == order[i]
    ensures order[i] in t.fences && t.fences[order[i]] == PersistedLeases(t, order)[i].fence
  {
  }

  lemma LeasesStep(leases: map<string, Lease>, before: map<string, Lease>, order: seq<string>, n: nat)
    requires 0 < n <= |order| && order[n - 1] in leases
    requires forall r :: r in before <==> r in order[..n - 1]
    requires forall r :: r in before ==> r in leases && before[r] == Hashed(leases[r])
    ensures var after := before[order[n - 1] := Hashed(leases[order[n - 1]])];
            && (forall r :: r in after <==> r in order[..n])
            && (forall r :: r in after ==> r in leases && after[r] == Hashed(leases[r]))
  {
    hide Hashed;
    assert order[..n] == order[..n - 1] + [order[n - 1]];
  }

  lemma {:induction false} RestoredPrefix(t: Table, order: seq<string>, n: nat)
    requires Consistent(t) && Lists(order, t) && n <= |order|
    ensures var t' := Restored(PersistedLeases(t, order)[..n], t.fences);
            && t'.fences == t.fences
            && (forall r :: r in t'.leases <==> r in order[..n])
            && (forall r :: r in t'.leases ==> r in t.leases && t'.leases[r] == Hashed(t.leases[r]))
  {
    if n > 0 {
      var saved := PersistedLeases(t, order);
      PersistedAt(t, order, n - 1);
      assert saved[..n][..n - 1] == saved[..n - 1];
      RestoredPrefix(t, order, n - 1);
      hide *;
      RestoredStep(saved[..n], t.fences);
      LeasesStep(t.leases, Restored(saved[..n - 1], t.fences).leases, order, n);
    }
  }

  /** Whatever order the snapshot lists the leases in, restoring it hashes the tokens
      and changes nothing else. */
  lemma RestoreIsHash(t: Table, order: seq<string>)
    requires Consistent(t) && Lists(order, t)
    ensures Restored(PersistedLeases(t, order), t.fences) == HashedTable(t)
  {
    RestoredPrefix(t, order, |order|);
    assert PersistedLeases(t, order)[..|order|] == PersistedLeases(t, order);
    assert order[..|order|] == order;
    assert Restored(PersistedLeases(t, order), t.fences).leases == HashedTable(t).leases;
  }

  /** A restored table accepts exactly the credentials the live one did, at every time. */
  lemma RestartValidatesTheSame(t: Table, order: seq<string>, resource: string, owner: string, token: Token, now: nat)
    requires Consistent(t) && Lists(order, t)
    ensures var t' := Restored(PersistedLeases(t, order), t.fences);
            Validated(t', resource, owner, token, now).Ok? <==> Validated(t, resource, owner, token, now).Ok?
  {
    RestoreIsHash(t, order);
  }

  /** ... gives the next holder the same fence ... */
  lemma RestartIssuesSameFence(t: Table, order: seq<string>, kind: Kind, resource: string, owner: string, ttl: nat,
                               now: nat,
                               id: string, secret: Token)
    requires Consistent(t) && Lists(order, t)
    ensures var t' := Restored(PersistedLeases(t, order), t.fences);
            Acquired(t', kind, resource, owner, ttl, now, id, secret).1
                == Acquired(t, kind, resource, owner, ttl, now, id, secret).1
            && HandoffTaken(t', resource, owner, ttl, now, secret).1
               == HandoffTaken(t, resource, owner, ttl, now, secret).1
  {
    RestoreIsHash(t, order);
  }

  /** ... and saves exactly what it was restored from. */
  lemma PersistIsFixpoint(t: Table, order: seq<string>)
    requires Consistent(t) && Lists(order, t)
    ensures var t' := Restored(PersistedLeases(t, order), t.fences);
            Lists(order, t') && PersistedLeases(t', order) == PersistedLeases(t, order) && t'.fences == t.fences
  {
    RestoreIsHash(t, order);
  }
}
