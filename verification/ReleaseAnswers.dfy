/** Exactly when an install, a rollback or a prune succeeds, and what it leaves. */
module ReleaseAnswers {
  import opened Common
  import opened Ordering
  import opened Releases

  /** The operator's consent covers the release: a revoked one needs force and a reason, a
      deprecated one its own flag. */
  predicate Consented(status: Status, consent: Consent) {
    && (status == Revoked ==> consent.forceRevoked && consent.reasoned)
    && (status == Deprecated ==> consent.allowDeprecated)
  }

  /** What is checked before anything is touched: the version asked for, consent, and the
      state format of the release in use. */
  predicate Admitted(s: Store, version: Bytes, m: Manifest, consent: Consent, luck: Luck) {
    && luck.prepared && m.version == version && Consented(m.status, consent)
    && (s.current.Some? && s.current.value in s.verified ==> s.verified[s.current.value].stateFormat == m.stateFormat)
  }

  /** A version already there is activated exactly when it was verified under this very
      manifest, is intact, and is healthy if it can be asked; only the pointer moves. */
  lemma ActivationSucceedsIff(s: Store, version: Bytes, m: Manifest, consent: Consent, now: nat, luck: Luck)
    requires version in s.releases
    ensures var (s', ok) := InstallSpec(s, version, m, consent, now, luck);
            && (ok <==> && Admitted(s, version, m, consent, luck)
                        && version in s.verified && s.verified[version].digest == m.digest
                        && luck.filesIntact && luck.switched && (m.checked ==> luck.healthy))
            && (ok ==> s' == s.(current := Some(version)))
            && (!ok && luck.restored && (s.current.Some? ==> s.current.value in s.releases) ==> s' == s)
  {
  }

  /** A new version is installed exactly when every step works; it is then in place, current
      and verified, and nothing else has changed. */
  lemma InstallSucceedsIff(s: Store, version: Bytes, m: Manifest, consent: Consent, now: nat, luck: Luck)
    requires version !in s.releases
    ensures var (s', ok) := InstallSpec(s, version, m, consent, now, luck);
            && (ok <==> && Admitted(s, version, m, consent, luck)
                        && luck.staged && luck.switched && luck.launchers && (m.checked ==> luck.healthy)
                        && luck.recorded)
            && (ok ==> s' == Store(s.releases[version := m], Some(version),
                                   s.verified[version := Record(m.digest, m.stateFormat, now)]))
            && (!ok && luck.restored && luck.removed && (s.current.Some? ==> s.current.value in s.releases) ==> s' == s)
            && (!ok ==> s'.verified == s.verified)
  {
    var s' := InstallSpec(s, version, m, consent, now, luck).0;
    if version !in s'.releases {
      assert s.releases[version := m] - {version} == s.releases;
    }
  }

  /** A rollback succeeds exactly for an installed, verified and intact release, revoked only
      by force and with a reason, that is healthy if it can be asked; only the pointer moves. */
  lemma RollbackSucceedsIff(s: Store, version: Bytes, consent: Consent, luck: Luck)
    ensures var (s', ok) := RollbackSpec(s, version, consent, luck);
            && (ok <==> && version in s.releases && version in s.verified
                        && (s.releases[version].status == Revoked ==> consent.forceRevoked && consent.reasoned)
                        && luck.filesIntact && luck.switched && luck.platform
                        && (s.releases[version].checked ==> luck.healthy))
            && (ok ==> s' == s.(current := Some(version)))
            && (!ok && luck.restored && luck.platform && (s.current.Some? ==> s.current.value in s.releases) ==>
                  s' == s)
  {
  }

  lemma {:induction false} PrunedUpToRemoves(s: Store, sorted: seq<Item>, keep: nat, disk: Disk, n: nat, j: nat)
    requires j < n <= |sorted| && forall name :: disk.removable(name)
    requires !IsProtected(s, sorted, keep, sorted[j].name) && !disk.inUse(sorted[j].name)
    ensures var (s', ok) := PrunedUpTo(s, sorted, keep, disk, n);
            && ok && sorted[j].name !in s'.releases
            && (disk.recordRemovable(sorted[j].name) ==> sorted[j].name !in s'.verified)
    decreases n
  {
    hide IsProtected;
    PruneGoesOn(s, sorted, keep, disk, n - 1);
    if j < n - 1 {
      PrunedUpToRemoves(s, sorted, keep, disk, n - 1, j);
    }
  }

  lemma {:induction false} PruneGoesOn(s: Store, sorted: seq<Item>, keep: nat, disk: Disk, n: nat)
    requires n <= |sorted| && forall name :: disk.removable(name)
    ensures PrunedUpTo(s, sorted, keep, disk, n).1
  {
    hide IsProtected;
    if n > 0 {
      PruneGoesOn(s, sorted, keep, disk, n - 1);
    }
  }

  /** With directories that can be removed, a prune takes every listed verified release but
      the `keep` newest, the current one and those in use; it never keeps fewer than two. */
  lemma PruneTakesTheRest(s: Store, listing: seq<Bytes>, keep: nat, disk: Disk, j: nat)
    requires NoDuplicates(listing) && forall name :: disk.removable(name)
    ensures var sorted := Sort(Items(s, listing), Newer()); var (s', ok) := PruneSpec(s, listing, keep, disk);
            && (ok <==> keep >= 2) && (!ok ==> s' == s)
            && (keep >= 2 && keep <= j < |sorted| && s.current != Some(sorted[j].name)
                && !disk.inUse(sorted[j].name) ==>
                  && sorted[j].name !in s'.releases
                  && (disk.recordRemovable(sorted[j].name) ==> sorted[j].name !in s'.verified))
  {
    var sorted := Sort(Items(s, listing), Newer());
    if keep >= 2 {
      PruneGoesOn(s, sorted, keep, disk, |sorted|);
    }
    if keep >= 2 && keep <= j < |sorted| && s.current != Some(sorted[j].name) && !disk.inUse(sorted[j].name) {
      forall i | 0 <= i < keep
        ensures sorted[i].name != sorted[j].name
      {
        SortedNamesDiffer(s, listing, i, j);
      }
      PrunedUpToRemoves(s, sorted, keep, disk, |sorted|, j);
    }
  }
}
