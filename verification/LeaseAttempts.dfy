/** Several locks for one invocation: all or nothing, with a clock reading for each
    acquisition and other invocations working on the table in between. */
module LeaseAttempts {
  import opened Common
  import opened Leases
  import opened LeaseTheorems

  predicate Live(t: Table, resource: string, now: nat) {
    resource in t.leases && t.leases[resource].expiresAt > now
  }

  // ------------------------------------------------------------------ giving back

  lemma ReleaseOnlyRemoves(t: Table, resource: string, owner: string, token: Token, now: nat)
    ensures var t' := Released(t, resource, owner, token, now).0;
            && t'.fences == t.fences
            && (forall r :: r in t'.leases ==> r in t.leases && t'.leases[r] == t.leases[r])
            && (forall r :: r in t.leases && r != resource ==> r in t'.leases)
            && Validated(t', resource, owner, token, now).Err?
            && (resource in t.leases && resource !in t'.leases ==> Validated(t, resource, owner, token, now).Ok?)
  {
  }

  lemma {:induction false} ReleasesOnlyRemove(t: Table, acquired: seq<Lease>, clock: nat -> nat)
    ensures var t' := ReleasedEach(t, acquired, clock);
            t'.fences == t.fences && forall r :: r in t'.leases ==> r in t.leases && t'.leases[r] == t.leases[r]
    decreases |acquired|
  {
    if acquired != [] {
      var n := |acquired| - 1;
      var a := acquired[n];
      ReleaseOnlyRemoves(t, a.resource, a.owner, a.token, clock(n));
      ReleasesOnlyRemove(Released(t, a.resource, a.owner, a.token, clock(n)).0, acquired[..n], clock);
    }
  }

  /** Giving back locks works on any table, whatever happened to it since: none of the
      given credentials validates once its lease was given back. */
  lemma {:induction false} ReleasedLocksDead(t: Table, acquired: seq<Lease>, k: nat, clock: nat -> nat, after: nat)
    requires k < |acquired| && clock(k) <= after
    ensures var a := acquired[k];
            Validated(ReleasedEach(t, acquired, clock), a.resource, a.owner, a.token, after).Err?
    decreases |acquired|
  {
    var n := |acquired| - 1;
    var a := acquired[n];
    var t' := Released(t, a.resource, a.owner, a.token, clock(n)).0;
    ReleaseOnlyRemoves(t, a.resource, a.owner, a.token, clock(n));
    ReleasesOnlyRemove(t', acquired[..n], clock);
    if k < n {
      ReleasedLocksDead(t', acquired[..n], k, clock, after);
    }
  }

  /** ... and a lease those credentials do not open is untouched. */
  lemma {:induction false} OtherLeasesKept(t: Table, acquired: seq<Lease>, resource: string, clock: nat -> nat)
    requires resource in t.leases
    requires forall k :: 0 <= k < |acquired| ==>
               || acquired[k].resource != resource
               || Validated(t, resource, acquired[k].owner, acquired[k].token, clock(k)).Err?
    ensures resource in ReleasedEach(t, acquired, clock).leases
    ensures ReleasedEach(t, acquired, clock).leases[resource] == t.leases[resource]
    decreases |acquired|
  {
    if acquired != [] {
      var n := |acquired| - 1;
      var a := acquired[n];
      ReleaseOnlyRemoves(t, a.resource, a.owner, a.token, clock(n));
      OtherLeasesKept(Released(t, a.resource, a.owner, a.token, clock(n)).0, acquired[..n], resource, clock);
    }
  }

  // ------------------------------------------------------------ an attempt by itself

  /** Nobody else works on the table, and no reading is after `later`. */
  ghost predicate Alone(a: Attempt, later: nat) {
    && (forall i, t :: a.meanwhile(i, t) == t) && (forall t :: a.beforeRelease(t) == t)
    && (forall i :: a.clock(i) <= later) && (forall i :: a.release(i) <= later)
  }

  lemma AloneAt(a: Attempt, later: nat, i: nat, t: Table)
    requires Alone(a, later)
    ensures a.meanwhile(i, t) == t && a.beforeRelease(t) == t && a.clock(i) <= later && a.release(i) <= later
  {
  }

  /** The attempt's secrets are plain, not digests, and open nothing yet. */
  ghost predicate Unused(t: Table, a: Attempt) {
    && (forall i :: !a.secret(i).Sha256?)
    && (forall r, i :: r in t.leases ==> !TokenMatches(t.leases[r].token, a.secret(i)))
  }

  predicate HeldBy(t: Table, resource: string, owner: string) {
    resource in t.leases && t.leases[resource].owner == owner
  }

  /** The leases taken so far, in order, each under its own secret. */
  ghost predicate TakenInOrder(acquired: seq<Lease>, a: Attempt) {
    && |acquired| <= |a.resources|
    && forall k :: 0 <= k < |acquired| ==>
         && acquired[k].resource == a.resources[k] && acquired[k].owner == a.owner
         && acquired[k].token == a.secret(k)
  }

  ghost predicate LiveKept(t: Table, t': Table, later: nat) {
    forall r :: Live(t, r, later) ==> r in t'.leases && t'.leases[r] == t.leases[r]
  }

  ghost predicate IsTaken(lease: Lease, resource: string, acquired: seq<Lease>) {
    lease.resource == resource && lease in acquired
  }

  ghost predicate NothingElse(t: Table, t': Table, acquired: seq<Lease>) {
    forall r :: r in t'.leases ==>
      (r in t.leases && t'.leases[r] == t.leases[r]) || IsTaken(t'.leases[r], r, acquired)
  }

  /** What the attempt has done by the time it has taken `acquired`. */
  ghost predicate Attempted(t: Table, t': Table, acquired: seq<Lease>, a: Attempt, later: nat) {
    TakenInOrder(acquired, a) && LiveKept(t, t', later) && NothingElse(t, t', acquired)
  }

  lemma AttemptStep(t: Table, before: Table, acquired: seq<Lease>, a: Attempt, later: nat)
    requires Attempted(t, before, acquired, a, later) && Alone(a, later) && |acquired| < |a.resources|
    requires var n := |acquired|;
             Acquired(before, Resource, a.resources[n], a.owner, a.ttl, a.clock(n), "", a.secret(n)).1.Ok?
    ensures var n := |acquired|;
            var (after, outcome) :=
                  Acquired(before, Resource, a.resources[n], a.owner, a.ttl, a.clock(n), "", a.secret(n));
            Attempted(t, after, acquired + [outcome.value], a, later)
  {
    var n := |acquired|;
    AloneAt(a, later, n, before);
    hide Alone;
    var (after, outcome) := Acquired(before, Resource, a.resources[n], a.owner, a.ttl, a.clock(n), "", a.secret(n));
    var lease := outcome.value;
    var all := acquired + [lease];
    assert after.leases == before.leases[a.resources[n] := lease];
    assert !Live(before, a.resources[n], a.clock(n));
    assert !Live(before, a.resources[n], later);
    forall r | r in after.leases
      ensures (r in t.leases && after.leases[r] == t.leases[r]) || IsTaken(after.leases[r], r, all)
    {
      if r == a.resources[n] {
        assert all[n] == lease;
      } else if !(r in t.leases && before.leases[r] == t.leases[r]) {
        assert IsTaken(before.leases[r], r, acquired);
      }
    }
    forall r | Live(t, r, later)
      ensures r in after.leases && after.leases[r] == t.leases[r]
    {
      assert Live(before, r, later);
    }
  }

  lemma AttemptStarts(t: Table, a: Attempt, later: nat)
    ensures Attempted(t, t, [], a, later)
  {
  }

  lemma {:induction false} AttemptIs(t: Table, a: Attempt, later: nat, n: nat)
    requires n <= |a.resources| && Alone(a, later)
    ensures var (t', acquired, conflict) := AcquiredEach(t, a, n);
            Attempted(t, t', acquired, a, later) && (conflict.None? ==> |acquired| == n)
  {
    hide Attempted, Alone;
    if n > 0 {
      AttemptIs(t, a, later, n - 1);
      var (before, acquired, conflict) := AcquiredEach(t, a, n - 1);
      AloneAt(a, later, n - 1, before);
      if AcquiredEach(t, a, n).2.None? {
        AttemptStep(t, before, acquired, a, later);
      }
    } else {
      AttemptStarts(t, a, later);
    }
  }

  /** All or nothing: on a conflict, the live leases afterwards are exactly those that
      were live before, unchanged, and none of the attempt's secrets validates; on
      success every listed resource is held by the caller. */
  lemma AcquireAllOrNothing(t: Table, a: Attempt, later: nat)
    requires Alone(a, later) && Unused(t, a)
    ensures var (t', r) := AcquiredAll(t, a);
            if r.Ok? then
              |r.value| == |a.resources| && forall k :: 0 <= k < |a.resources| ==> HeldBy(t', a.resources[k], a.owner)
            else
              && (forall x :: Live(t', x, later) <==> Live(t, x, later))
              && (forall x :: Live(t', x, later) ==> t'.leases[x] == t.leases[x])
              && (forall x, i, who, time :: later <= time ==> Validated(t', x, who, a.secret(i), time).Err?)
  {
    AttemptIs(t, a, later, |a.resources|);
    var (mid, acquired, conflict) := AcquiredEach(t, a, |a.resources|);
    AloneAt(a, later, 0, mid);
    if conflict.None? {
      HeldAfterSuccess(t, a, later, |a.resources|);
    } else {
      NothingTakenLives(t, mid, acquired, a, later);
      LiveStays(t, mid, acquired, a, later);
      SecretsDead(t, ReleasedEach(mid, acquired, a.release), a, later);
    }
  }

  lemma {:induction false} HeldAfterSuccess(t: Table, a: Attempt, later: nat, n: nat)
    requires n <= |a.resources| && AcquiredEach(t, a, n).2.None? && Alone(a, later)
    ensures forall k :: 0 <= k < n ==> HeldBy(AcquiredEach(t, a, n).0, a.resources[k], a.owner)
  {
    hide Alone;
    if n > 0 {
      HeldAfterSuccess(t, a, later, n - 1);
      AloneAt(a, later, n - 1, AcquiredEach(t, a, n - 1).0);
    }
  }

  lemma TakenIsDead(t: Table, mid: Table, acquired: seq<Lease>, a: Attempt, later: nat, x: string)
    requires Alone(a, later) && Unused(t, a) && TakenInOrder(acquired, a)
    requires Live(ReleasedEach(mid, acquired, a.release), x, later)
    ensures x in mid.leases && !IsTaken(mid.leases[x], x, acquired)
  {
    ReleasesOnlyRemove(mid, acquired, a.release);
    if IsTaken(mid.leases[x], x, acquired) {
      var k :| 0 <= k < |acquired| && acquired[k] == mid.leases[x];
      AloneAt(a, later, k, t);
      assert !a.secret(k).Sha256?;
      assert TokenMatches(acquired[k].token, acquired[k].token);
      hide Alone, TakenInOrder, Unused;
      ReleasedLocksDead(mid, acquired, k, a.release, later);
      hide ReleasedEach;
    }
  }

  lemma NothingTakenLives(t: Table, mid: Table, acquired: seq<Lease>, a: Attempt, later: nat)
    requires Alone(a, later) && Unused(t, a) && Attempted(t, mid, acquired, a, later)
    ensures var t' := ReleasedEach(mid, acquired, a.release);
            forall x :: Live(t', x, later) ==> Live(t, x, later) && t'.leases[x] == t.leases[x]
  {
    hide Alone, ReleasedEach, TakenInOrder, LiveKept;
    var t' := ReleasedEach(mid, acquired, a.release);
    ReleasesOnlyRemove(mid, acquired, a.release);
    forall x | Live(t', x, later)
      ensures x in t.leases && t'.leases[x] == t.leases[x]
    {
      TakenIsDead(t, mid, acquired, a, later, x);
    }
  }

  lemma LiveStays(t: Table, mid: Table, acquired: seq<Lease>, a: Attempt, later: nat)
    requires Unused(t, a) && Attempted(t, mid, acquired, a, later)
    ensures forall x :: Live(t, x, later) ==> x in ReleasedEach(mid, acquired, a.release).leases
                                              && ReleasedEach(mid, acquired, a.release).leases[x] == t.leases[x]
  {
    forall x | Live(t, x, later)
      ensures x in ReleasedEach(mid, acquired, a.release).leases
              && ReleasedEach(mid, acquired, a.release).leases[x] == t.leases[x]
    {
      assert forall k :: 0 <= k < |acquired| ==> !TokenMatches(t.leases[x].token, a.secret(k));
      OtherLeasesKept(mid, acquired, x, a.release);
    }
  }

  lemma SecretsDead(t: Table, t': Table, a: Attempt, later: nat)
    requires Unused(t, a) && forall x :: Live(t', x, later) ==> Live(t, x, later) && t'.leases[x] == t.leases[x]
    ensures forall x, i, who, time :: later <= time ==> Validated(t', x, who, a.secret(i), time).Err?
  {
    forall x, i: nat, who, time: nat | later <= time
      ensures Validated(t', x, who, a.secret(i), time).Err?
    {
      if Live(t', x, time) {
        assert Live(t', x, later);
      }
    }
  }

  // -------------------------------------------------------------- among other work

  /** Before each acquisition others run any operations; then the lock is tried at `now`. */
  datatype Turn = Turn(others: seq<(Op, nat)>, now: nat)

  datatype Claim = Claim(owner: string, ttl: nat, resources: seq<string>, turns: seq<Turn>)

  ghost predicate Matched(c: Claim) {
    |c.turns| == |c.resources|
  }

  ghost function Claimed(c: Claim, k: nat): Op
    requires k < |c.resources|
  {
    Op.Acquire(Resource, c.resources[k], c.owner, c.ttl, "")
  }

  /** The system, the leases taken and the first conflict after `n` resources. */
  ghost function Tried(s: System, c: Claim, n: nat): (System, seq<Lease>, Option<LeaseError>)
    requires Matched(c) && n <= |c.resources|
  {
    if n == 0 then (s, [], None)
    else
      var (before, acquired, conflict) := Tried(s, c, n - 1);
      if conflict.Some? then (before, acquired, conflict)
      else
        var seen := Run(before, c.turns[n - 1].others);
        var outcome := Acquired(seen.table, Resource, c.resources[n - 1], c.owner, c.ttl, c.turns[n - 1].now, "",
                                Minted(|seen.issued|)).1;
        if outcome.Err? then (seen, acquired, Some(outcome.error))
        else (Step(seen, Claimed(c, n - 1), c.turns[n - 1].now), acquired + [outcome.value], None)
  }

  /** The system the `i`-th acquisition finds. */
  ghost function Seen(s: System, c: Claim, i: nat): System
    requires Matched(c) && i < |c.turns|
  {
    Run(Tried(s, c, i).0, c.turns[i].others)
  }

  /** On a conflict others run once more, `last`, before what was taken is given back. */
  ghost function Settled(s: System, c: Claim, last: seq<(Op, nat)>, release: nat -> nat)
    : (System, Result<seq<Lease>, LeaseError>)
    requires Matched(c)
  {
    var (after, acquired, conflict) := Tried(s, c, |c.resources|);
    if conflict.None? then (after, Ok(acquired))
    else
      var seen := Run(after, last);
      (seen.(table := ReleasedEach(seen.table, acquired, release)), Err(conflict.value))
  }

  /** The leases in `acquired` were issued, in this order, to this owner. */
  ghost predicate WereIssued(acquired: seq<Lease>, issued: seq<Issue>, owner: string) {
    forall k :: 0 <= k < |acquired| ==> WasIssued(acquired[k], issued, owner)
  }

  ghost predicate WasIssued(lease: Lease, issued: seq<Issue>, owner: string) {
    && lease.owner == owner && lease.token.Minted? && lease.token.n < |issued|
    && issued[lease.token.n] == Issue(lease.resource, owner, lease.fence, lease.token)
  }

  lemma {:induction false} RunIssuesMore(s: System, ops: seq<(Op, nat)>)
    ensures s.issued <= Run(s, ops).issued
    decreases |ops|
  {
    if ops != [] {
      StepIssuesMore(s, ops[0].0, ops[0].1);
      hide Step;
      RunIssuesMore(Step(s, ops[0].0, ops[0].1), ops[1..]);
    }
  }

  lemma StepIssuesMore(s: System, op: Op, now: nat)
    ensures s.issued <= Step(s, op, now).issued
  {
  }

  lemma StillIssued(acquired: seq<Lease>, issued: seq<Issue>, more: seq<Issue>, owner: string)
    requires WereIssued(acquired, issued, owner) && issued <= more
    ensures WereIssued(acquired, more, owner)
  {
    forall k | 0 <= k < |acquired|
      ensures WasIssued(acquired[k], more, owner)
    {
      assert WasIssued(acquired[k], issued, owner);
    }
  }

  lemma {:induction false} TriedIsSound(s: System, c: Claim, n: nat)
    requires Sound(s) && Matched(c) && n <= |c.resources|
    ensures var (s', acquired, conflict) := Tried(s, c, n);
            && Sound(s') && WereIssued(acquired, s'.issued, c.owner)
            && |acquired| <= n && (conflict.None? ==> |acquired| == n)
            && (forall k :: 0 <= k < |acquired| ==> acquired[k].resource == c.resources[k])
  {
    hide Sound, Run, Step, WereIssued;
    if n == 0 {
      NothingIssued(s.issued, c.owner);
    } else {
      TriedIsSound(s, c, n - 1);
      var (before, acquired, conflict) := Tried(s, c, n - 1);
      if conflict.None? {
        var turn := c.turns[n - 1];
        var seen := Run(before, turn.others);
        RunKeepsSound(before, turn.others);
        RunIssuesMore(before, turn.others);
        StillIssued(acquired, before.issued, seen.issued, c.owner);
        StepKeepsSound(seen, Claimed(c, n - 1), turn.now);
        ClaimIsIssued(seen, c, n - 1, acquired);
      }
    }
  }

  lemma NothingIssued(issued: seq<Issue>, owner: string)
    ensures WereIssued([], issued, owner)
  {
  }

  lemma ClaimIsIssued(seen: System, c: Claim, k: nat, acquired: seq<Lease>)
    requires Matched(c) && k < |c.resources| && WereIssued(acquired, seen.issued, c.owner)
    ensures var outcome := Acquired(seen.table, Resource, c.resources[k], c.owner, c.ttl, c.turns[k].now, "",
                                    Minted(|seen.issued|)).1;
            outcome.Ok? ==>
              && WereIssued(acquired + [outcome.value], Step(seen, Claimed(c, k), c.turns[k].now).issued, c.owner)
              && outcome.value.resource == c.resources[k]
  {
    var outcome :=
          Acquired(seen.table, Resource, c.resources[k], c.owner, c.ttl, c.turns[k].now, "", Minted(|seen.issued|)).1;
    if outcome.Ok? {
      var s' := Step(seen, Claimed(c, k), c.turns[k].now);
      StillIssued(acquired, seen.issued, s'.issued, c.owner);
      assert WasIssued(outcome.value, s'.issued, c.owner);
    }
  }

  /** A secret opens only the resource it was issued for, and only for its owner. */
  lemma SecretOpensItsLease(s: System, lease: Lease, owner: string, resource: string, who: string, time: nat)
    requires Sound(s) && WasIssued(lease, s.issued, owner)
    requires Validated(s.table, resource, who, lease.token, time).Ok?
    ensures resource == lease.resource && who == owner
  {
    var stored := s.table.leases[resource];
    var k: nat :| IsIssue(stored, s.issued, k);
    assert s.issued[k].token == Minted(k);
  }

  /** Nothing stays behind: after a conflict at any position, whatever others did before,
      between and after the acquisitions, no secret of the attempt opens anything, for
      anyone, once its lease was given back. */
  lemma ConflictLeavesNoSecret(s: System, c: Claim, last: seq<(Op, nat)>, release: nat -> nat, k: nat,
                               resource: string, who: string, time: nat)
    requires Sound(s) && Matched(c) && Settled(s, c, last, release).1.Err?
    requires k < |Tried(s, c, |c.resources|).1| && release(k) <= time
    ensures Validated(Settled(s, c, last, release).0.table, resource, who,
                      Tried(s, c, |c.resources|).1[k].token, time).Err?
  {
    var (after, acquired, conflict) := Tried(s, c, |c.resources|);
    TriedIsSound(s, c, |c.resources|);
    RunKeepsSound(after, last);
    RunIssuesMore(after, last);
    var seen := Run(after, last);
    StillIssued(acquired, after.issued, seen.issued, c.owner);
    var t' := ReleasedEach(seen.table, acquired, release);
    ReleasesOnlyRemove(seen.table, acquired, release);
    ReleasedLocksDead(seen.table, acquired, k, release, time);
    hide Sound, Run, Tried, ReleasedEach;
    assert WasIssued(acquired[k], seen.issued, c.owner);
    if Validated(t', resource, who, acquired[k].token, time).Ok? {
      SecretOpensItsLease(seen, acquired[k], c.owner, resource, who, time);
    }
  }

  /** All the clock readings of the turns `j` to `n` are before `expires`, and nobody
      touches the lease that `owner` holds under secret `m`. */
  ghost predicate LeftAlone(s: System, c: Claim, j: nat, n: nat, resource: string, owner: string, m: nat, expires: nat)
    requires Matched(c)
  {
    && n <= |c.turns|
    && forall k :: j <= k < n ==>
         && c.turns[k].now < expires
         && NoneTouches(Tried(s, c, k).0, c.turns[k].others, resource, owner, m, expires)
  }

  /** No live lease is changed by somebody else's acquisitions, nor, once taken, by the
      attempt's own later ones. */
  lemma {:induction false} TriedKeepsHolder(s: System, c: Claim, j: nat, n: nat, resource: string, owner: string,
                                            m: nat, expires: nat)
    requires Sound(s) && Matched(c) && j <= n <= |c.resources|
    requires HoldsUntil(Tried(s, c, j).0.table, resource, owner, m, expires)
    requires LeftAlone(s, c, j, n, resource, owner, m, expires)
    ensures HoldsUntil(Tried(s, c, n).0.table, resource, owner, m, expires)
    decreases n - j
  {
    hide *;
    if j < n {
      LeftAloneAt(s, c, j, n, resource, owner, m, expires);
      TriedIsSound(s, c, n - 1);
      TriedMoves(s, c, n);
      TriedKeepsHolder(s, c, j, n - 1, resource, owner, m, expires);
      TurnKeepsHolder(Tried(s, c, n - 1).0, c, n - 1, resource, owner, m, expires);
    }
  }

  /** A turn leaves the system as it was, or as others left it, or with one more lease. */
  lemma TriedMoves(s: System, c: Claim, n: nat)
    requires Matched(c) && 0 < n <= |c.resources|
    ensures var before := Tried(s, c, n - 1).0; var after := Tried(s, c, n).0;
            var seen := Run(before, c.turns[n - 1].others);
            after == before || after == seen || after == Step(seen, Claimed(c, n - 1), c.turns[n - 1].now)
  {
    hide Run, Step;
  }

  lemma LeftAloneAt(s: System, c: Claim, j: nat, n: nat, resource: string, owner: string, m: nat, expires: nat)
    requires Matched(c) && j < n && LeftAlone(s, c, j, n, resource, owner, m, expires)
    ensures LeftAlone(s, c, j, n - 1, resource, owner, m, expires) && c.turns[n - 1].now < expires
    ensures NoneTouches(Tried(s, c, n - 1).0, c.turns[n - 1].others, resource, owner, m, expires)
  {
  }

  lemma TurnKeepsHolder(before: System, c: Claim, k: nat, resource: string, owner: string, m: nat, expires: nat)
    requires Sound(before) && Matched(c) && k < |c.resources| && c.turns[k].now < expires
    requires HoldsUntil(before.table, resource, owner, m, expires)
    requires NoneTouches(before, c.turns[k].others, resource, owner, m, expires)
    ensures HoldsUntil(Run(before, c.turns[k].others).table, resource, owner, m, expires)
    ensures HoldsUntil(Step(Run(before, c.turns[k].others), Claimed(c, k), c.turns[k].now).table, resource, owner, m,
                       expires)
  {
    hide Sound, Run, Step, HoldsUntil, NoneTouches;
    RunKeepsHolder(before, c.turns[k].others, resource, owner, m, expires);
    StepKeepsHolder(Run(before, c.turns[k].others), Claimed(c, k), c.turns[k].now, resource, owner, m, expires);
  }

  /** Every lease that somebody holds at any turn of the attempt, and that is not one of
      its own, outlives it untouched: taken, refused or given back, the attempt changes
      nothing else. */
  lemma OthersUndisturbed(s: System, c: Claim, last: seq<(Op, nat)>, release: nat -> nat, j: nat,
                          resource: string, owner: string, m: nat, expires: nat)
    requires Sound(s) && Matched(c) && j <= |c.resources|
    requires HoldsUntil(Tried(s, c, j).0.table, resource, owner, m, expires)
    requires LeftAlone(s, c, j, |c.resources|, resource, owner, m, expires)
    requires NoneTouches(Tried(s, c, |c.resources|).0, last, resource, owner, m, expires)
    requires forall k :: 0 <= k < |Tried(s, c, |c.resources|).1| ==> Tried(s, c, |c.resources|).1[k].token != Minted(m)
    ensures HoldsUntil(Settled(s, c, last, release).0.table, resource, owner, m, expires)
  {
    TriedKeepsHolder(s, c, j, |c.resources|, resource, owner, m, expires);
    var (after, acquired, conflict) := Tried(s, c, |c.resources|);
    if conflict.Some? {
      TriedIsSound(s, c, |c.resources|);
      hide Tried, Run, HoldsUntil, WereIssued, Sound, NoneTouches;
      RunKeepsHolder(after, last, resource, owner, m, expires);
      ReleaseSpares(Run(after, last).table, acquired, after.issued, c.owner, release, resource, owner, m, expires);
    }
  }

  lemma ReleaseSpares(t: Table, acquired: seq<Lease>, issued: seq<Issue>, taker: string, release: nat -> nat,
                      resource: string, owner: string, m: nat, expires: nat)
    requires WereIssued(acquired, issued, taker) && HoldsUntil(t, resource, owner, m, expires)
    requires forall k :: 0 <= k < |acquired| ==> acquired[k].token != Minted(m)
    ensures HoldsUntil(ReleasedEach(t, acquired, release), resource, owner, m, expires)
  {
    forall k | 0 <= k < |acquired|
      ensures Validated(t, resource, acquired[k].owner, acquired[k].token, release(k)).Err?
    {
      assert WasIssued(acquired[k], issued, taker);
    }
    OtherLeasesKept(t, acquired, resource, release);
  }

  lemma ClaimHolds(seen: System, c: Claim, k: nat)
    requires Matched(c) && k < |c.resources|
    ensures var secret := Minted(|seen.issued|);
            var outcome := Acquired(seen.table, Resource, c.resources[k], c.owner, c.ttl, c.turns[k].now, "", secret).1;
            outcome.Ok? ==>
              && outcome.value.token == secret
              && HoldsUntil(Step(seen, Claimed(c, k), c.turns[k].now).table, c.resources[k], c.owner, |seen.issued|,
                            SaturatingAdd(c.turns[k].now, c.ttl))
  {
  }

  /** The lease of turn `k`, as long as the attempt went on. */
  lemma {:induction false} TriedTakes(s: System, c: Claim, k: nat, n: nat)
    requires Sound(s) && Matched(c) && k < n <= |c.resources| && Tried(s, c, n).2.None?
    ensures Tried(s, c, k + 1).2.None? && |Tried(s, c, n).1| == n
    ensures Tried(s, c, n).1[k].token == Minted(|Seen(s, c, k).issued|)
    ensures HoldsUntil(Tried(s, c, k + 1).0.table, c.resources[k], c.owner, |Seen(s, c, k).issued|,
                       SaturatingAdd(c.turns[k].now, c.ttl))
    decreases n - k
  {
    hide Sound, Run, Step, HoldsUntil;
    TriedIsSound(s, c, n - 1);
    if k + 1 < n {
      TriedTakes(s, c, k, n - 1);
    } else {
      ClaimHolds(Seen(s, c, k), c, k);
    }
  }

  /** On success the caller holds every lease it took, under its own secret, until its own
      expiry: whatever others did meanwhile short of taking that lease over. */
  lemma SuccessHoldsAll(s: System, c: Claim, last: seq<(Op, nat)>, release: nat -> nat, k: nat)
    requires Sound(s) && Matched(c) && k < |c.resources| && Settled(s, c, last, release).1.Ok?
    ensures var (s', r) := Settled(s, c, last, release);
            var m := |Seen(s, c, k).issued|; var expires := SaturatingAdd(c.turns[k].now, c.ttl);
            && |r.value| == |c.resources| && r.value[k].resource == c.resources[k] && r.value[k].token == Minted(m)
            && (LeftAlone(s, c, k + 1, |c.resources|, c.resources[k], c.owner, m, expires) ==>
                  HoldsUntil(s'.table, c.resources[k], c.owner, m, expires))
  {
    hide Run, Step, HoldsUntil, LeftAlone;
    var m := |Seen(s, c, k).issued|;
    var expires := SaturatingAdd(c.turns[k].now, c.ttl);
    TriedIsSound(s, c, |c.resources|);
    TriedTakes(s, c, k, |c.resources|);
    if LeftAlone(s, c, k + 1, |c.resources|, c.resources[k], c.owner, m, expires) {
      TriedKeepsHolder(s, c, k + 1, |c.resources|, c.resources[k], c.owner, m, expires);
    }
  }

  /** Asking twice for the same resource, the first lease still running, is a conflict
      with oneself. */
  lemma DuplicatesConflict(s: System, c: Claim, i: nat, j: nat)
    requires Sound(s) && Matched(c) && i < j < |c.resources| && c.resources[i] == c.resources[j]
    requires LeftAlone(s, c, i + 1, j + 1, c.resources[i], c.owner, |Seen(s, c, i).issued|,
                       SaturatingAdd(c.turns[i].now, c.ttl))
    ensures Tried(s, c, j + 1).2.Some?
  {
    if Tried(s, c, j).2.None? {
      var m := |Seen(s, c, i).issued|;
      var expires := SaturatingAdd(c.turns[i].now, c.ttl);
      LeftAloneAt(s, c, i + 1, j + 1, c.resources[i], c.owner, m, expires);
      TriedTakes(s, c, i, j);
      TriedIsSound(s, c, j);
      RefusalEnds(s, c, j);
      DuplicateIsHeld(s, c, i, j, m, expires);
    }
  }

  lemma DuplicateIsHeld(s: System, c: Claim, i: nat, j: nat, m: nat, expires: nat)
    requires Sound(s) && Matched(c) && i < j < |c.resources| && c.resources[i] == c.resources[j]
    requires LeftAlone(s, c, i + 1, j, c.resources[i], c.owner, m, expires) && c.turns[j].now < expires
    requires NoneTouches(Tried(s, c, j).0, c.turns[j].others, c.resources[i], c.owner, m, expires)
    requires HoldsUntil(Tried(s, c, i + 1).0.table, c.resources[i], c.owner, m, expires) && Sound(Tried(s, c, j).0)
    ensures Acquired(Seen(s, c, j).table, Resource, c.resources[j], c.owner, c.ttl, c.turns[j].now, "",
                     Minted(|Seen(s, c, j).issued|)).1.Err?
  {
    hide Sound, Run, Step, HoldsUntil, LeftAlone, NoneTouches, Tried, Acquired;
    TriedKeepsHolder(s, c, i + 1, j, c.resources[i], c.owner, m, expires);
    TurnKeepsHolder(Tried(s, c, j).0, c, j, c.resources[i], c.owner, m, expires);
    HeldIsRefused(Seen(s, c, j), c, j, c.resources[i], c.owner, m, expires);
  }

  lemma RefusalEnds(s: System, c: Claim, j: nat)
    requires Matched(c) && j < |c.resources| && Tried(s, c, j).2.None?
    ensures var seen := Seen(s, c, j); var secret := Minted(|seen.issued|);
            var r := Acquired(seen.table, Resource, c.resources[j], c.owner, c.ttl, c.turns[j].now, "", secret).1;
            r.Err? ==> Tried(s, c, j + 1).2.Some?
  {
    hide Run, Step, Acquired;
  }

  lemma HeldIsRefused(seen: System, c: Claim, k: nat, resource: string, owner: string, m: nat, expires: nat)
    requires Matched(c) && k < |c.resources| && c.resources[k] == resource && c.turns[k].now < expires
    requires HoldsUntil(seen.table, resource, owner, m, expires)
    ensures Acquired(seen.table, Resource, resource, c.owner, c.ttl, c.turns[k].now, "", Minted(|seen.issued|)).1.Err?
  {
  }

  // ------------------------------------------------------------- the method's attempt

  /** A claim among other work is one attempt of the table's method. */
  ghost function AttemptOf(s: System, c: Claim, last: seq<(Op, nat)>, release: nat -> nat): Attempt
    requires Matched(c)
  {
    Attempt(c.resources, c.owner, c.ttl,
            (i: nat) => if i < |c.turns| then c.turns[i].now else 0,
            (i: nat) => if i < |c.turns| then Minted(|Seen(s, c, i).issued|) else Text(""),
            (i: nat, t: Table) =>
              if i < |c.turns| then Run(Tried(s, c, i).0.(table := t), c.turns[i].others).table else t,
            (t: Table) => Run(Tried(s, c, |c.resources|).0.(table := t), last).table,
            release)
  }

  /** `a` meets the same clock, secrets and other work as the claim. */
  ghost predicate Plays(a: Attempt, s: System, c: Claim)
    requires Matched(c)
  {
    && a.resources == c.resources && a.owner == c.owner && a.ttl == c.ttl
    && forall i :: 0 <= i < |c.resources| ==> PlaysAt(a, s, c, i)
  }

  ghost predicate PlaysAt(a: Attempt, s: System, c: Claim, i: nat)
    requires Matched(c) && i < |c.resources|
  {
    && a.clock(i) == c.turns[i].now && a.secret(i) == Minted(|Seen(s, c, i).issued|)
    && a.meanwhile(i, Tried(s, c, i).0.table) == Seen(s, c, i).table
  }

  lemma AttemptPlays(s: System, c: Claim, last: seq<(Op, nat)>, release: nat -> nat)
    requires Matched(c)
    ensures Plays(AttemptOf(s, c, last, release), s, c)
  {
    hide Run, Tried;
    forall i | 0 <= i < |c.resources|
      ensures PlaysAt(AttemptOf(s, c, last, release), s, c, i)
    {
      var before := Tried(s, c, i).0;
      assert before.(table := before.table) == before;
    }
  }

  lemma ClaimTable(seen: System, c: Claim, k: nat)
    requires Matched(c) && k < |c.resources|
    ensures var (t, outcome) := Acquired(seen.table, Resource, c.resources[k], c.owner, c.ttl, c.turns[k].now, "",
                                         Minted(|seen.issued|));
            outcome.Ok? ==> Step(seen, Claimed(c, k), c.turns[k].now).table == t
  {
  }

  lemma {:induction false} AttemptIsClaim(a: Attempt, s: System, c: Claim, n: nat)
    requires Matched(c) && Plays(a, s, c) && n <= |c.resources|
    ensures var (s', acquired, conflict) := Tried(s, c, n);
            AcquiredEach(s.table, a, n) == (s'.table, acquired, conflict)
  {
    hide Run, Step, Acquired;
    if n > 0 {
      AttemptIsClaim(a, s, c, n - 1);
      assert PlaysAt(a, s, c, n - 1);
      ClaimTable(Seen(s, c, n - 1), c, n - 1);
    }
  }

  /** So the theorems about claims are theorems about `AcquireAll`. */
  lemma AcquireAllIsSettled(s: System, c: Claim, last: seq<(Op, nat)>, release: nat -> nat)
    requires Matched(c)
    ensures AcquiredAll(s.table, AttemptOf(s, c, last, release))
            == (Settled(s, c, last, release).0.table, Settled(s, c, last, release).1)
  {
    hide Run, Tried;
    AttemptPlays(s, c, last, release);
    AttemptIsClaim(AttemptOf(s, c, last, release), s, c, |c.resources|);
    var after := Tried(s, c, |c.resources|).0;
    assert after.(table := after.table) == after;
    hide AcquiredEach;
  }
}
