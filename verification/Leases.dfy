/** The lease table: exclusive ownership of named resources, fenced by numbers that
    only grow, handed over explicitly and persisted with hashed tokens. */
module Leases {
  import opened Common

  /** A token as stored or presented. `Minted(n)` is the n-th fresh secret; `Sha256` is a
      digest, told apart by its prefix and assumed free of collisions. */
  datatype Token = Minted(n: nat) | Text(text: string) | Sha256(of: Token)

  datatype Kind = Driver | Resource

  datatype Lease = Lease(id: string, kind: Kind, resource: string, owner: string, token: Token, fence: nat,
                         acquiredAt: nat, updatedAt: nat, expiresAt: nat, handoffTo: Option<string>)

  datatype LeaseError = Taken(owner: string, expiresAt: nat) | NotFound | OwnedByOther | InvalidHandoff

  type Outcome = Result<Lease, LeaseError>

  datatype Table = Table(leases: map<string, Lease>, fences: map<string, nat>)

  const EMPTY := Table(map[], map[])

  predicate TokenMatches(stored: Token, presented: Token) {
    if stored.Sha256? then Sha256(presented) == stored else stored == presented
  }

  function Public(lease: Lease): Lease {
    lease.(token := Text(""))
  }

  function FenceOf(t: Table, resource: string, default: nat): nat {
    if resource in t.fences then t.fences[resource] else default
  }

  function Validated(t: Table, resource: string, owner: string, token: Token, now: nat): Outcome {
    if resource !in t.leases then Err(NotFound)
    else
      var lease := t.leases[resource];
      if lease.expiresAt <= now then Err(NotFound)
      else if lease.owner != owner || !TokenMatches(lease.token, token) then Err(OwnedByOther)
      else Ok(lease)
  }

  function Acquired(t: Table, kind: Kind, resource: string, owner: string, ttl: nat, now: nat, id: string,
                    secret: Token)
    : (Table, Outcome)
  {
    if resource in t.leases && t.leases[resource].expiresAt > now then
      (t, Err(Taken(t.leases[resource].owner, t.leases[resource].expiresAt)))
    else
      var fence := FenceOf(t, resource, 0) + 1;
      var lease := Lease(id, kind, resource, owner, secret, fence, now, now, SaturatingAdd(now, ttl), None);
      (Table(t.leases[resource := lease], t.fences[resource := fence]), Ok(lease))
  }

  function Renewed(t: Table, resource: string, owner: string, token: Token, ttl: nat, now: nat): (Table, Outcome) {
    var valid := Validated(t, resource, owner, token, now);
    if valid.Err? then (t, valid)
    else
      var lease := valid.value.(updatedAt := now, expiresAt := SaturatingAdd(now, ttl));
      (t.(leases := t.leases[resource := lease]), Ok(lease.(token := token)))
  }

  function HandedOff(t: Table, resource: string, owner: string, token: Token, target: string, now: nat)
    : (Table, Outcome)
  {
    var valid := Validated(t, resource, owner, token, now);
    if valid.Err? then (t, valid)
    else
      var lease := valid.value.(handoffTo := Some(target), updatedAt := now);
      (t.(leases := t.leases[resource := lease]), Ok(lease.(token := token)))
  }

  function HandoffRequested(t: Table, resource: string, target: string, now: nat): (Table, Outcome) {
    if resource !in t.leases || t.leases[resource].expiresAt <= now then (t, Err(NotFound))
    else
      var lease := t.leases[resource].(handoffTo := Some(target), updatedAt := now);
      (t.(leases := t.leases[resource := lease]), Ok(Public(lease)))
  }

  function HandoffCancelled(t: Table, resource: string, target: string, now: nat): (Table, Outcome) {
    if resource !in t.leases then (t, Err(NotFound))
    else if t.leases[resource].handoffTo != Some(target) then (t, Err(InvalidHandoff))
    else
      var lease := t.leases[resource].(handoffTo := None, updatedAt := now);
      (t.(leases := t.leases[resource := lease]), Ok(Public(lease)))
  }

  function HandoffTaken(t: Table, resource: string, target: string, ttl: nat, now: nat, secret: Token)
    : (Table, Outcome)
  {
    if resource !in t.leases then (t, Err(NotFound))
    else if t.leases[resource].handoffTo != Some(target) then (t, Err(InvalidHandoff))
    else
      var held := t.leases[resource];
      var fence := FenceOf(t, resource, held.fence) + 1;
      var lease := held.(owner := target, token := secret, fence := fence, acquiredAt := now, updatedAt := now,
                         expiresAt := SaturatingAdd(now, ttl), handoffTo := None);
      (Table(t.leases[resource := lease], t.fences[resource := fence]), Ok(lease))
  }

  function Released(t: Table, resource: string, owner: string, token: Token, now: nat): (Table, Outcome) {
    var valid := Validated(t, resource, owner, token, now);
    if valid.Err? then (t, valid) else (t.(leases := t.leases - {resource}), valid)
  }

  function Expired(t: Table, now: nat): set<string> {
    set r | r in t.leases && t.leases[r].expiresAt <= now
  }

  function Reaped(t: Table, now: nat): Table {
    t.(leases := t.leases - Expired(t, now))
  }

  // ------------------------------------------------------------------ persistence

  function Hashed(lease: Lease): Lease {
    if lease.token.Sha256? then lease else lease.(token := Sha256(lease.token))
  }

  /** `order` lists every leased resource once; the map iterates in some such order. */
  ghost predicate Lists(order: seq<string>, t: Table) {
    && (forall i :: 0 <= i < |order| ==> order[i] in t.leases)
    && (forall r :: r in t.leases ==> r in order)
    && (forall i, j :: 0 <= i < j < |order| ==> order[i] != order[j])
  }

  function PersistedLeases(t: Table, order: seq<string>): (r: seq<Lease>)
    requires forall i :: 0 <= i < |order| ==> order[i] in t.leases
    ensures |r| == |order|
  {
    seq(|order|, i requires 0 <= i < |order| => Hashed(t.leases[order[i]]))
  }

  /** `from_snapshot`: leases in order, each fence at least as high as its lease's. */
  function Restored(leases: seq<Lease>, fences: map<string, nat>): Table {
    if leases == [] then Table(map[], fences)
    else
      var t := Restored(leases[..|leases| - 1], fences);
      var lease := leases[|leases| - 1];
      var fence := FenceOf(t, lease.resource, 0);
      Table(t.leases[lease.resource := lease],
            t.fences[lease.resource := if fence >= lease.fence then fence else lease.fence])
  }

  class LeaseTable {
    var leases: map<string, Lease>
    var fences: map<string, nat>

    ghost function View(): Table
      reads this
    {
      Table(leases, fences)
    }

    /** `from_snapshot`. */
    constructor (saved: seq<Lease>, savedFences: map<string, nat>)
      ensures View() == Restored(saved, savedFences)
    {
      leases, fences := map[], savedFences;
      new;
      for i := 0 to |saved|
        invariant View() == Restored(saved[..i], savedFences)
      {
        var lease := saved[i];
        var fence := if lease.resource in fences then fences[lease.resource] else 0;
        fences := fences[lease.resource := if fence >= lease.fence then fence else lease.fence];
        leases := leases[lease.resource := lease];
        assert saved[..i + 1][..i] == saved[..i];
      }
      assert saved[..|saved|] == saved;
    }

    method Acquire(kind: Kind, resource: string, owner: string, ttl: nat, now: nat, id: string, secret: Token)
      returns (r: Outcome)
      modifies this
      ensures (View(), r) == Acquired(old(View()), kind, resource, owner, ttl, now, id, secret)
    {
      if resource in leases && leases[resource].expiresAt > now {
        return Err(Taken(leases[resource].owner, leases[resource].expiresAt));
      }
      var fence := (if resource in fences then fences[resource] else 0) + 1;
      fences := fences[resource := fence];
      var lease := Lease(id, kind, resource, owner, secret, fence, now, now, SaturatingAdd(now, ttl), None);
      leases := leases[resource := lease];
      r := Ok(lease);
    }

    method Validate(resource: string, owner: string, token: Token, now: nat) returns (r: Outcome)
      ensures r == Validated(View(), resource, owner, token, now)
    {
      if resource !in leases || leases[resource].expiresAt <= now {
        return Err(NotFound);
      }
      if leases[resource].owner != owner || !TokenMatches(leases[resource].token, token) {
        return Err(OwnedByOther);
      }
      r := Ok(leases[resource]);
    }

    method Renew(resource: string, owner: string, token: Token, ttl: nat, now: nat) returns (r: Outcome)
      modifies this`leases
      ensures (View(), r) == Renewed(old(View()), resource, owner, token, ttl, now)
    {
      r := Validate(resource, owner, token, now);
      if r.Ok? {
        leases := leases[resource := leases[resource].(updatedAt := now, expiresAt := SaturatingAdd(now, ttl))];
        r := Ok(leases[resource].(token := token));
      }
    }

    method Handoff(resource: string, owner: string, token: Token, target: string, now: nat) returns (r: Outcome)
      modifies this`leases
      ensures (View(), r) == HandedOff(old(View()), resource, owner, token, target, now)
    {
      r := Validate(resource, owner, token, now);
      if r.Ok? {
        leases := leases[resource := leases[resource].(handoffTo := Some(target), updatedAt := now)];
        r := Ok(leases[resource].(token := token));
      }
    }

    method RequestHandoff(resource: string, target: string, now: nat) returns (r: Outcome)
      modifies this`leases
      ensures (View(), r) == HandoffRequested(old(View()), resource, target, now)
    {
      if resource !in leases || leases[resource].expiresAt <= now {
        return Err(NotFound);
      }
      leases := leases[resource := leases[resource].(handoffTo := Some(target), updatedAt := now)];
      r := Ok(Public(leases[resource]));
    }

    method CancelHandoff(resource: string, target: string, now: nat) returns (r: Outcome)
      modifies this`leases
      ensures (View(), r) == HandoffCancelled(old(View()), resource, target, now)
    {
      if resource !in leases {
        return Err(NotFound);
      }
      if leases[resource].handoffTo != Some(target) {
        return Err(InvalidHandoff);
      }
      leases := leases[resource := leases[resource].(handoffTo := None, updatedAt := now)];
      r := Ok(Public(leases[resource]));
    }

    method TakeHandoff(resource: string, target: string, ttl: nat, now: nat, secret: Token) returns (r: Outcome)
      modifies this
      ensures (View(), r) == HandoffTaken(old(View()), resource, target, ttl, now, secret)
    {
      if resource !in leases {
        return Err(NotFound);
      }
      var held := leases[resource];
      if held.handoffTo != Some(target) {
        return Err(InvalidHandoff);
      }
      var fence := (if resource in fences then fences[resource] else held.fence) + 1;
      fences := fences[resource := fence];
      var lease := held.(owner := target, token := secret, fence := fence, acquiredAt := now, updatedAt := now,
                         expiresAt := SaturatingAdd(now, ttl), handoffTo := None);
      leases := leases[resource := lease];
      r := Ok(lease);
    }

    method Release(resource: string, owner: string, token: Token, now: nat) returns (r: Outcome)
      modifies this`leases
      ensures (View(), r) == Released(old(View()), resource, owner, token, now)
    {
      r := Validate(resource, owner, token, now);
      if r.Ok? {
        leases := leases - {resource};
      }
    }

    method ReapExpired(now: nat)
      modifies this`leases
      ensures View() == Reaped(old(View()), now)
    {
      leases := leases - (set r | r in leases && leases[r].expiresAt <= now);
    }

    method PersistenceSnapshot(order: seq<string>) returns (r: seq<Lease>)
      requires Lists(order, View())
      ensures r == PersistedLeases(View(), order)
    {
      r := [];
      for i := 0 to |order|
        invariant |r| == i && forall k :: 0 <= k < i ==> r[k] == Hashed(leases[order[k]])
      {
        r := r + [Hashed(leases[order[i]])];
      }
    }

    /** The locks of one invocation: all of them, or none. The table lock is taken anew for
        each acquisition, so others get their turn in between. */
    method AcquireAll(a: Attempt) returns (r: Result<seq<Lease>, LeaseError>)
      modifies this
      ensures (View(), r) == AcquiredAll(old(View()), a)
    {
      hide Acquired, ReleasedEach;
      var acquired := [];
      for i := 0 to |a.resources|
        invariant (View(), acquired, None) == AcquiredEach(old(View()), a, i)
      {
        AcquiredEachStops(old(View()), a, i, |a.resources|);
        var seen := a.meanwhile(i, Table(leases, fences));
        leases, fences := seen.leases, seen.fences;
        var outcome := Acquire(Resource, a.resources[i], a.owner, a.ttl, a.clock(i), "", a.secret(i));
        if outcome.Err? {
          RefusalChangesNothing(seen, Resource, a.resources[i], a.owner, a.ttl, a.clock(i), "", a.secret(i));
          AcquiredEachStops(old(View()), a, i + 1, |a.resources|);
          seen := a.beforeRelease(Table(leases, fences));
          leases, fences := seen.leases, seen.fences;
          ReleaseAcquired(acquired, a.release);
          return Err(outcome.error);
        }
        acquired := acquired + [outcome.value];
      }
      r := Ok(acquired);
    }

    /** `release_acquired`: in reverse, ignoring failures; lease `k` is given back at
        clock reading `clock(k)`. */
    method ReleaseAcquired(acquired: seq<Lease>, clock: nat -> nat)
      modifies this
      ensures View() == ReleasedEach(old(View()), acquired, clock)
    {
      var i := |acquired|;
      assert acquired[..i] == acquired;
      while i > 0
        invariant 0 <= i <= |acquired|
        invariant ReleasedEach(old(View()), acquired, clock) == ReleasedEach(View(), acquired[..i], clock)
      {
        i := i - 1;
        assert acquired[..i + 1][..i] == acquired[..i];
        var _ := Release(acquired[i].resource, acquired[i].owner, acquired[i].token, clock(i));
      }
    }
  }

  // -------------------------------------------------------- several locks at once

  /** One invocation's attempt at several locks: what it asks for, the clock reading and
      the secret of each acquisition, what everybody else did to the table before each of
      them and before the release, and the reading at which each lease is given back. */
  datatype Attempt = Attempt(resources: seq<string>, owner: string, ttl: nat, clock: nat -> nat, secret: nat -> Token,
                             meanwhile: (nat, Table) -> Table, beforeRelease: Table -> Table, release: nat -> nat)

  lemma RefusalChangesNothing(t: Table, kind: Kind, resource: string, owner: string, ttl: nat, now: nat, id: string,
                              secret: Token)
    ensures var (t', r) := Acquired(t, kind, resource, owner, ttl, now, id, secret); r.Err? ==> t' == t
  {
  }

  /** Releases from the last acquired to the first. */
  function ReleasedEach(t: Table, acquired: seq<Lease>, clock: nat -> nat): Table
    decreases |acquired|
  {
    if acquired == [] then t
    else
      var n := |acquired| - 1;
      ReleasedEach(Released(t, acquired[n].resource, acquired[n].owner, acquired[n].token, clock(n)).0, acquired[..n],
                   clock)
  }

  /** After trying the first `n` resources: the table, the leases taken, and the first conflict. */
  function AcquiredEach(t: Table, a: Attempt, n: nat): (Table, seq<Lease>, Option<LeaseError>)
    requires n <= |a.resources|
  {
    if n == 0 then (t, [], None)
    else
      var (before, acquired, conflict) := AcquiredEach(t, a, n - 1);
      if conflict.Some? then (before, acquired, conflict)
      else
        var seen := a.meanwhile(n - 1, before);
        var (after, outcome) :=
          Acquired(seen, Resource, a.resources[n - 1], a.owner, a.ttl, a.clock(n - 1), "", a.secret(n - 1));
        if outcome.Err? then (seen, acquired, Some(outcome.error)) else (after, acquired + [outcome.value], None)
  }

  function AcquiredAll(t: Table, a: Attempt): (Table, Result<seq<Lease>, LeaseError>) {
    var (after, acquired, conflict) := AcquiredEach(t, a, |a.resources|);
    if conflict.None? then (after, Ok(acquired))
    else (ReleasedEach(a.beforeRelease(after), acquired, a.release), Err(conflict.value))
  }

  /** The first conflict ends the attempt. */
  lemma {:induction false} AcquiredEachStops(t: Table, a: Attempt, k: nat, n: nat)
    requires k <= n <= |a.resources|
    ensures AcquiredEach(t, a, k).2.Some? ==> AcquiredEach(t, a, n) == AcquiredEach(t, a, k)
    decreases n - k
  {
    if k < n {
      AcquiredEachStops(t, a, k, n - 1);
    }
  }
}
