/** The updater's transactions over installed releases, the current pointer and the
    verified records. Every filesystem, download and process outcome is an input. */
module Releases {
  import opened Common
  import opened Ordering

  datatype Status = Active | Deprecated | Revoked

  /** `digest` is the digest of the manifest bytes; `checked` is whether it declares a health check. */
  datatype Manifest = Manifest(version: Bytes, digest: string, stateFormat: int, status: Status, checked: bool)

  datatype Record = Record(digest: string, stateFormat: int, verifiedAt: nat)

  datatype Store = Store(releases: map<Bytes, Manifest>, current: Option<Bytes>, verified: map<Bytes, Record>)

  const EMPTY := Store(map[], None, map[])

  /** How the steps of one transaction turn out. `prepared` covers everything before the
      first look at the store, `staged` everything up to the rename into place. */
  datatype Luck = Luck(prepared: bool, filesIntact: bool, staged: bool, switched: bool, launchers: bool, healthy: bool,
                       recorded: bool, restored: bool, removed: bool, platform: bool)

  /** Consent flags of the command line. */
  datatype Consent = Consent(allowDeprecated: bool, forceRevoked: bool, reasoned: bool)

  predicate Permitted(status: Status, consent: Consent) {
    match status
    case Active => true
    case Deprecated => consent.allowDeprecated
    case Revoked => consent.forceRevoked && consent.reasoned
  }

  /** `restoreCurrent`: back to the previous release, or to none. */
  function Restored(s: Store, previous: Option<Bytes>, ok: bool): Store {
    if ok && (previous.None? || previous.value in s.releases) then s.(current := previous) else s
  }

  predicate FormatClash(s: Store, m: Manifest) {
    s.current.Some? && s.current.value in s.verified && s.verified[s.current.value].stateFormat != m.stateFormat
  }

  /** Installing a version whose directory is already there only activates it. */
  function Activated(s: Store, m: Manifest, luck: Luck): (Store, bool) {
    if m.version !in s.verified || s.verified[m.version].digest != m.digest || !luck.filesIntact
        || !luck.switched then (s, false)
    else
      var switched := s.(current := Some(m.version));
      if m.checked && !luck.healthy then (Restored(switched, s.current, luck.restored), false) else (switched, true)
  }

  predicate NewReleaseFails(m: Manifest, luck: Luck) {
    !luck.launchers || (m.checked && !luck.healthy) || !luck.recorded
  }

  /** Installing a new version: rename into place, switch, launchers, health, record. */
  function InstalledNew(s: Store, m: Manifest, now: nat, luck: Luck): (Store, bool) {
    if !luck.staged then (s, false)
    else
      var placed := s.(releases := s.releases[m.version := m]);
      if !luck.switched then (if luck.removed then s else placed, false)
      else
        var switched := placed.(current := Some(m.version));
        if NewReleaseFails(m, luck) then
          var back := Restored(switched, s.current, luck.restored);
          (if luck.removed then back.(releases := back.releases - {m.version}) else back, false)
        else (switched.(verified := s.verified[m.version := Record(m.digest, m.stateFormat, now)]), true)
  }

  function InstallSpec(s: Store, version: Bytes, m: Manifest, consent: Consent, now: nat, luck: Luck): (Store, bool) {
    if !luck.prepared || m.version != version || !Permitted(m.status, consent) || FormatClash(s, m) then (s, false)
    else if version in s.releases then Activated(s, m, luck)
    else InstalledNew(s, m, now, luck)
  }

  function RollbackSpec(s: Store, version: Bytes, consent: Consent, luck: Luck): (Store, bool) {
    if version !in s.releases || (s.releases[version].status.Revoked? && !Permitted(Revoked, consent)) then (s, false)
    else if version !in s.verified || !luck.filesIntact || !luck.switched then (s, false)
    else
      var switched := s.(current := Some(version));
      if !luck.platform then (switched, false)
      else if s.releases[version].checked && !luck.healthy then (Restored(switched, s.current, luck.restored), false)
      else (switched, true)
  }

  // ---------------------------------------------------------------------- pruning

  /** What pruning meets on disk: releases in use, directories and records that resist removal. */
  datatype Disk = Disk(inUse: Bytes -> bool, removable: Bytes -> bool, recordRemovable: Bytes -> bool)

  datatype Item = Item(name: Bytes, verifiedAt: nat)

  function Newer(): (Item, Item) -> bool {
    (a: Item, b: Item) => a.verifiedAt >= b.verifiedAt
  }

  /** The verified releases among the directory entries. */
  function Items(s: Store, listing: seq<Bytes>): seq<Item> {
    if listing == [] then []
    else
      var n := |listing| - 1;
      Items(s, listing[..n]) +
      if listing[n] in s.releases
          && listing[n] in s.verified then [Item(listing[n], s.verified[listing[n]].verifiedAt)] else []
  }

  predicate IsProtected(s: Store, sorted: seq<Item>, keep: nat, name: Bytes) {
    s.current == Some(name) || exists i :: 0 <= i < keep && i < |sorted| && sorted[i].name == name
  }

  /** The store after considering the first `n` items; false once a directory resisted. */
  function PrunedUpTo(s: Store, sorted: seq<Item>, keep: nat, disk: Disk, n: nat): (Store, bool)
    requires n <= |sorted|
  {
    if n == 0 then (s, true)
    else
      var (before, going) := PrunedUpTo(s, sorted, keep, disk, n - 1);
      var name := sorted[n - 1].name;
      if !going || IsProtected(s, sorted, keep, name) || disk.inUse(name) then (before, going)
      else if !disk.removable(name) then (before, false)
      else (before.(releases := before.releases - {name},
                    verified := if disk.recordRemovable(name) then before.verified - {name} else before.verified), true)
  }

  function PruneSpec(s: Store, listing: seq<Bytes>, keep: nat, disk: Disk): (Store, bool) {
    if keep < 2 then (s, false)
    else
      var sorted := Sort(Items(s, listing), Newer());
      PrunedUpTo(s, sorted, keep, disk, |sorted|)
  }

  class Updater {
    var releases: map<Bytes, Manifest>
    var current: Option<Bytes>
    var verified: map<Bytes, Record>

    ghost function View(): Store
      reads this
    {
      Store(releases, current, verified)
    }

    constructor ()
      ensures View() == EMPTY
    {
      releases, current, verified := map[], None, map[];
    }

    method RestoreCurrent(previous: Option<Bytes>, ok: bool)
      modifies this`current
      ensures View() == Restored(old(View()), previous, ok)
    {
      if ok && (previous.None? || previous.value in releases) {
        current := previous;
      }
    }

    /** The branch of `Install` for a version whose directory is already there. */
    method ActivateExisting(m: Manifest, luck: Luck) returns (ok: bool)
      modifies this`current
      ensures (View(), ok) == Activated(old(View()), m, luck)
    {
      if m.version !in verified || verified[m.version].digest != m.digest || !luck.filesIntact || !luck.switched {
        return false;
      }
      var previous := current;
      current := Some(m.version);
      if m.checked && !luck.healthy {
        RestoreCurrent(previous, luck.restored);
        return false;
      }
      return true;
    }

    method Install(version: Bytes, m: Manifest, consent: Consent, now: nat, luck: Luck) returns (ok: bool)
      modifies this
      ensures (View(), ok) == InstallSpec(old(View()), version, m, consent, now, luck)
    {
      if !luck.prepared || m.version != version || !Permitted(m.status, consent) {
        return false;
      }
      var previous := current;
      if previous.Some? && previous.value in verified && verified[previous.value].stateFormat != m.stateFormat {
        return false;
      }
      if version in releases {
        ok := ActivateExisting(m, luck);
        return;
      }
      hide Activated;
      if !luck.staged {
        return false;
      }
      ghost var before := releases;
      releases := releases[version := m];
      if !luck.switched {
        if luck.removed {
          releases := releases - {version};
          assert releases == before;
        }
        return false;
      }
      current := Some(version);
      if !luck.launchers || (m.checked && !luck.healthy) || !luck.recorded {
        RestoreCurrent(previous, luck.restored);
        if luck.removed {
          releases := releases - {version};
        }
        return false;
      }
      verified := verified[version := Record(m.digest, m.stateFormat, now)];
      ok := true;
    }

    method Rollback(version: Bytes, consent: Consent, luck: Luck) returns (ok: bool)
      modifies this`current
      ensures (View(), ok) == RollbackSpec(old(View()), version, consent, luck)
    {
      if version !in releases || (releases[version].status.Revoked? && !Permitted(Revoked, consent)) {
        return false;
      }
      if version !in verified || !luck.filesIntact {
        return false;
      }
      var previous := current;
      if !luck.switched {
        return false;
      }
      current := Some(version);
      if !luck.platform {
        return false;
      }
      if releases[version].checked && !luck.healthy {
        RestoreCurrent(previous, luck.restored);
        return false;
      }
      ok := true;
    }

    method Prune(listing: seq<Bytes>, keep: nat, disk: Disk) returns (ok: bool)
      modifies this
      ensures (View(), ok) == PruneSpec(old(View()), listing, keep, disk)
    {
      if keep < 2 {
        return false;
      }
      ghost var s := View();
      var sorted := Sort(Items(Store(releases, current, verified), listing), Newer());
      ok := true;
      for i := 0 to |sorted|
        invariant (View(), ok) == PrunedUpTo(s, sorted, keep, disk, i)
        invariant current == s.current
      {
        var name := sorted[i].name;
        var isProtected := current == Some(name) || exists k :: 0 <= k < keep && k < |sorted| && sorted[k].name == name;
        if ok && !isProtected && !disk.inUse(name) {
          if !disk.removable(name) {
            ok := false;
          } else {
            releases := releases - {name};
            if disk.recordRemovable(name) {
              verified := verified - {name};
            }
          }
        }
      }
    }
  }

  // -------------------------------------------------------------------- invariant

  ghost predicate OneFormat(verified: map<Bytes, Record>) {
    forall a, b :: a in verified && b in verified ==> verified[a].stateFormat == verified[b].stateFormat
  }

  /** The pointer is unset only while nothing was ever verified; otherwise it names an
      installed, verified release, and all verified releases share one state format. */
  ghost predicate Healthy(s: Store) {
    && (s.current.None? ==> s.verified == map[])
    && (s.current.Some? ==> s.current.value in s.releases && s.current.value in s.verified)
    && OneFormat(s.verified)
  }

  /** A new release was switched to, failed before it was recorded, and the pointer could
      not be put back (a record left over from an earlier prune may still vouch for it). */
  predicate LeftDangling(s: Store, version: Bytes, m: Manifest, consent: Consent, luck: Luck) {
    && luck.prepared && m.version == version && Permitted(m.status, consent) && !FormatClash(s, m)
    && version !in s.releases && luck.staged && luck.switched && NewReleaseFails(m, luck)
    && !luck.restored && (luck.removed || version !in s.verified)
  }

  /** An install keeps the store healthy, whatever else fails, exactly when it does not
      end on a failed new release. */
  lemma InstallHealthyIff(s: Store, version: Bytes, m: Manifest, consent: Consent, now: nat, luck: Luck)
    requires Healthy(s)
    ensures Healthy(InstallSpec(s, version, m, consent, now, luck).0) <==> !LeftDangling(s, version, m, consent, luck)
  {
    if LeftDangling(s, version, m, consent, luck) {
      assert InstallSpec(s, version, m, consent, now, luck).0.current == Some(version);
    }
  }

  /** It happens: a first install whose launchers fail, the pointer not taken back. */
  lemma DanglingHappens(version: Bytes, m: Manifest, now: nat)
    requires m.version == version && m.status.Active?
    ensures var luck := Luck(true, true, true, true, false, true, true, false, true, true);
            var consent := Consent(false, false, false);
            && LeftDangling(EMPTY, version, m, consent, luck)
            && Run(EMPTY, [Install(version, m, consent, now, luck)]).current == Some(version)
            && !Healthy(Run(EMPTY, [Install(version, m, consent, now, luck)]))
  {
    var luck := Luck(true, true, true, true, false, true, true, false, true, true);
    var op := Install(version, m, Consent(false, false, false), now, luck);
    assert [op][1..] == [];
    assert Run(EMPTY, [op]) == Run(Step(EMPTY, op), []);
  }

  /** A rollback keeps the store healthy even when its own restore fails, and never
      changes the state format in use, although it does not look at it. */
  lemma RollbackKeepsFormat(s: Store, version: Bytes, consent: Consent, luck: Luck)
    requires Healthy(s)
    ensures var s' := RollbackSpec(s, version, consent, luck).0;
            && Healthy(s') && s'.releases == s.releases && s'.verified == s.verified
            && (s.current.Some? <==> s'.current.Some?)
            && (s.current.Some? ==> s.verified[s'.current.value].stateFormat == s.verified[s.current.value].stateFormat)
  {
    if s.current.None? {
      assert s.verified == map[];
    }
  }

  // ------------------------------------------------------------------ pruning keeps

  /** Pruning removes only unprotected verified releases that are not in use. */
  lemma {:induction false} PruneRemoves(s: Store, sorted: seq<Item>, keep: nat, disk: Disk, n: nat, name: Bytes)
    requires n <= |sorted|
    ensures var s' := PrunedUpTo(s, sorted, keep, disk, n).0;
            && s'.current == s.current
            && (name in s'.releases ==> name in s.releases && s'.releases[name] == s.releases[name])
            && (name in s'.verified ==> name in s.verified && s'.verified[name] == s.verified[name])
            && (name in s.releases && name !in s'.releases ==> exists i :: 0 <= i < n && sorted[i].name == name)
            && (name in s.releases && name !in s'.releases ==> !IsProtected(s, sorted, keep, name) && !disk.inUse(name))
            && (name in s.verified && name !in s'.verified ==> !IsProtected(s, sorted, keep, name) && !disk.inUse(name))
  {
    if n > 0 {
      PruneRemoves(s, sorted, keep, disk, n - 1, name);
      var before := PrunedUpTo(s, sorted, keep, disk, n - 1).0;
      if name in before.releases && name !in PrunedUpTo(s, sorted, keep, disk, n).0.releases {
        assert sorted[n - 1].name == name;
      }
    }
  }

  lemma PruneKeepsHealthy(s: Store, listing: seq<Bytes>, keep: nat, disk: Disk)
    requires Healthy(s)
    ensures Healthy(PruneSpec(s, listing, keep, disk).0)
  {
    if keep >= 2 {
      var sorted := Sort(Items(s, listing), Newer());
      var s' := PruneSpec(s, listing, keep, disk).0;
      forall name: Bytes
        ensures name in s'.verified ==> name in s.verified && s'.verified[name] == s.verified[name]
        ensures s.current == Some(name) && name in s.releases ==> name in s'.releases
        ensures s.current == Some(name) && name in s.verified ==> name in s'.verified
        ensures s'.current == s.current
      {
        PruneRemoves(s, sorted, keep, disk, |sorted|, name);
      }
      assert s'.current == s.current;
      if s.current.None? {
        assert s'.verified == map[];
      }
    }
  }

  /** `x` is a listed release with a verified record, dated by that record. */
  predicate IsItem(s: Store, listing: seq<Bytes>, x: Item) {
    && x.name in listing && x.name in s.releases && x.name in s.verified
    && x.verifiedAt == s.verified[x.name].verifiedAt
  }

  lemma {:induction false} ItemsAreVerified(s: Store, listing: seq<Bytes>)
    ensures forall x :: x in Items(s, listing) ==> IsItem(s, listing, x)
    ensures forall x :: IsItem(s, listing, x) ==> x in Items(s, listing)
  {
    if listing != [] {
      var n := |listing| - 1;
      ItemsAreVerified(s, listing[..n]);
      assert listing == listing[..n] + [listing[n]];
    }
  }

  lemma NewerIsPreorder()
    ensures TotalPreorder(Newer())
  {
  }

  ghost predicate NoDuplicates(listing: seq<Bytes>) {
    forall i, j :: 0 <= i < j < |listing| ==> listing[i] != listing[j]
  }

  lemma {:induction false} ItemsAreDistinct(s: Store, listing: seq<Bytes>)
    requires NoDuplicates(listing)
    ensures forall x :: multiset(Items(s, listing))[x] <= 1
  {
    if listing != [] {
      var n := |listing| - 1;
      ItemsAreDistinct(s, listing[..n]);
      ItemsAreVerified(s, listing[..n]);
      var before := Items(s, listing[..n]);
      if listing[n] in s.releases && listing[n] in s.verified {
        var last := Item(listing[n], s.verified[listing[n]].verifiedAt);
        assert last !in before;
        assert Items(s, listing) == before + [last];
      }
    }
  }

  /** Different places in the pruning order name different releases. */
  lemma SortedNamesDiffer(s: Store, listing: seq<Bytes>, i: nat, j: nat)
    requires NoDuplicates(listing) && i < j < |Sort(Items(s, listing), Newer())|
    ensures Sort(Items(s, listing), Newer())[i].name != Sort(Items(s, listing), Newer())[j].name
  {
    var sorted := Sort(Items(s, listing), Newer());
    ItemsAreDistinct(s, listing);
    ItemsAreVerified(s, listing);
    SortPermutes(Items(s, listing), Newer());
    SortMembers(Items(s, listing), Newer());
    assert sorted[i] in sorted && sorted[j] in sorted;
    hide Sort, Items;
    assert IsItem(s, listing, sorted[i]) && IsItem(s, listing, sorted[j]);
    if sorted[i] == sorted[j] {
      TwiceInside(sorted, i, j);
    }
  }

  /** Every pruned release is no newer than `keep` different verified releases, all of
      which survive. */
  lemma PruneKeepsNewest(s: Store, listing: seq<Bytes>, keep: nat, disk: Disk, name: Bytes, i: nat)
    requires NoDuplicates(listing)
    requires name in s.releases && name !in PruneSpec(s, listing, keep, disk).0.releases && i < keep
    ensures var sorted := Sort(Items(s, listing), Newer());
            && 2 <= keep < |sorted| && name in s.verified && s.current != Some(name)
            && sorted[i].name in PruneSpec(s, listing, keep, disk).0.releases && sorted[i].name in s.verified
            && sorted[i].verifiedAt == s.verified[sorted[i].name].verifiedAt >= s.verified[name].verifiedAt
            && forall k :: 0 <= k < i ==> sorted[k].name != sorted[i].name
  {
    var sorted := Sort(Items(s, listing), Newer());
    PruneRemoves(s, sorted, keep, disk, |sorted|, name);
    var j :| 0 <= j < |sorted| && sorted[j].name == name;
    assert j >= keep;
    forall k | 0 <= k < i
      ensures sorted[k].name != sorted[i].name
    {
      SortedNamesDiffer(s, listing, k, i);
    }
    ItemsAreVerified(s, listing);
    SortMembers(Items(s, listing), Newer());
    NewerIsPreorder();
    SortSorts(Items(s, listing), Newer());
    assert sorted[i] in sorted && sorted[j] in sorted;
    assert Newer()(sorted[i], sorted[j]);
    PruneRemoves(s, sorted, keep, disk, |sorted|, sorted[i].name);
    assert IsProtected(s, sorted, keep, sorted[i].name);
  }

  function NamesOf(items: seq<Item>): seq<Bytes> {
    seq(|items|, i requires 0 <= i < |items| => items[i].name)
  }

  lemma {:induction false} ItemsOfNames(s: Store, items: seq<Item>)
    requires forall x :: x in items ==>
               x.name in s.releases && x.name in s.verified && x.verifiedAt == s.verified[x.name].verifiedAt
    ensures Items(s, NamesOf(items)) == items
  {
    if items != [] {
      var n := |items| - 1;
      ItemsOfNames(s, items[..n]);
      assert NamesOf(items)[..n] == NamesOf(items[..n]);
      assert items[n] in items;
    }
  }

  /** Releases verified at the same instant may come in any order: whatever order a sort
      leaves them in, some order of the listing gives it, and the listing is arbitrary. */
  lemma EveryTieOrderIsCovered(s: Store, listing: seq<Bytes>, sorted: seq<Item>)
    requires multiset(sorted) == multiset(Items(s, listing)) && SortedBy(sorted, Newer())
    ensures Sort(Items(s, NamesOf(sorted)), Newer()) == sorted
  {
    ItemsAreVerified(s, listing);
    forall x | x in sorted
      ensures x in Items(s, listing)
    {
      assert x in multiset(sorted);
    }
    ItemsOfNames(s, sorted);
    SortedIsFixed(sorted, Newer());
  }


  datatype Op =
    | Install(version: Bytes, m: Manifest, consent: Consent, now: nat, luck: Luck)
    | Rollback(version: Bytes, consent: Consent, luck: Luck)
    | Prune(listing: seq<Bytes>, keep: nat, disk: Disk)

  function Step(s: Store, op: Op): Store {
    match op
    case Install(version, m, consent, now, luck) => InstallSpec(s, version, m, consent, now, luck).0
    case Rollback(version, consent, luck) => RollbackSpec(s, version, consent, luck).0
    case Prune(listing, keep, disk) => PruneSpec(s, listing, keep, disk).0
  }

  function Run(s: Store, ops: seq<Op>): Store
    decreases |ops|
  {
    if ops == [] then s else Run(Step(s, ops[0]), ops[1..])
  }

  predicate RestoresSucceed(op: Op) {
    op.Install? ==> op.luck.restored
  }

  lemma {:induction false} RunKeepsHealthy(s: Store, ops: seq<Op>)
    requires Healthy(s) && forall k :: 0 <= k < |ops| ==> RestoresSucceed(ops[k])
    ensures Healthy(Run(s, ops))
    decreases |ops|
  {
    hide Healthy, InstallSpec, RollbackSpec, PruneSpec;
    if ops != [] {
      assert RestoresSucceed(ops[0]);
      match ops[0] {
        case Install(version, m, consent, now, luck) => InstallHealthyIff(s, version, m, consent, now, luck);
        case Rollback(version, consent, luck) => RollbackKeepsFormat(s, version, consent, luck);
        case Prune(listing, keep, disk) => PruneKeepsHealthy(s, listing, keep, disk);
      }
      RunKeepsHealthy(Step(s, ops[0]), ops[1..]);
    }
  }

  /** From an empty root, while an install's pointer restores succeed: the pointer is
      always sound and every rollback stays within one state format. */
  lemma EveryRunIsHealthy(ops: seq<Op>, version: Bytes, consent: Consent, luck: Luck)
    requires forall k :: 0 <= k < |ops| ==> RestoresSucceed(ops[k])
    ensures Healthy(Run(EMPTY, ops))
    ensures var s := Run(EMPTY, ops); var s' := RollbackSpec(s, version, consent, luck).0;
            s.current.Some? ==> s'.current.Some? && s.current.value in s.verified && s'.current.value in s.verified
                                && s.verified[s'.current.value].stateFormat == s.verified[s.current.value].stateFormat
  {
    RunKeepsHealthy(EMPTY, ops);
    RollbackKeepsFormat(Run(EMPTY, ops), version, consent, luck);
  }
}
