/** Exactly when each desktop call succeeds and what it then does, said of the queue's jobs
    one by one, without the functions that compute it. */
module DesktopAnswers {
  import opened Common
  import opened Desktop
  import opened DesktopRuns
  import opened DesktopTheorems

  // ------------------------------------------------------------- starting an action

  /** Job `i` holds the desktop, has time left, and these are its credentials. */
  predicate LiveUnder(m: Image, i: nat, desktop: Option<Credentials>, now: nat) {
    && i < |m.jobs| && m.jobs[i].state.Active? && m.jobs[i].expiresAt > now
    && desktop == Some(Credentials(Some(m.jobs[i].token), Some(m.jobs[i].owner)))
  }

  predicate NobodyHolds(m: Image) {
    forall i :: 0 <= i < |m.jobs| ==> !m.jobs[i].state.Active? && !m.jobs[i].state.Draining?
  }

  /** An action starts under the live session whose credentials it presents, or, on a desktop
      nobody holds or pauses, if it is no computer-use call and presents none; and only when
      nothing is blocked or in flight and the save succeeds. */
  lemma BeginStartsIff(s: Store, computerUseCall: bool, desktop: Option<Credentials>, now: nat, ok: bool)
    requires OneHolder(s.mem.jobs)
    ensures BeginSpec(s, computerUseCall, desktop, now, ok).1.Ok? <==>
            && ok && !s.mem.blocked && !s.mem.inFlight
            && ((exists i: nat :: LiveUnder(s.mem, i, desktop, now))
                || (NobodyHolds(s.mem) && s.mem.maintenanceOwner.None? && !computerUseCall && desktop.None?))
  {
    if i: nat :| LiveUnder(s.mem, i, desktop, now) {
      HolderIs(s.mem, i);
    }
    if Holder(s.mem).Some? && BeginSpec(s, computerUseCall, desktop, now, ok).1.Ok? {
      assert LiveUnder(s.mem, Holder(s.mem).value, desktop, now);
    }
  }

  /** A started action is in flight, in memory and on disk; a refused one leaves no trace. */
  lemma BeginEffect(s: Store, computerUseCall: bool, desktop: Option<Credentials>, now: nat, ok: bool)
    ensures var (s', r) := BeginSpec(s, computerUseCall, desktop, now, ok);
            && (r.Ok? ==> s'.mem == s.mem.(inFlight := true) && s'.disk == s'.mem)
            && (r.Err? && r.error != StateFailed ==> s' == s)
            && (s'.disk != s.disk ==> ok)
  {
  }

  /** Over every run, failed saves, crashes and restarts included: a computer-use call is
      dispatched only under a held, unexpired session, whose epoch the log then shows. */
  lemma ComputerUseNeedsSession(events: seq<Event>, desktop: Option<Credentials>, now: nat, ok: bool)
    requires Run(INITIAL, events).mem.Some?
    requires var s := Run(INITIAL, events);
             BeginSpec(Store(s.mem.value, s.disk), true, desktop, now, ok).1.Ok?
    ensures var s := Run(INITIAL, events);
            exists i: nat :: LiveUnder(s.mem.value, i, desktop, now)
                        && Step(s, Begin(true, desktop, now, ok)).log
                           == s.log + [Dispatch(i, s.mem.value.jobs[i].epoch)]
  {
    EveryRunIsSound(events);
    var s := Run(INITIAL, events);
    hide Run;
    BeginStartsIff(Store(s.mem.value, s.disk), true, desktop, now, ok);
    var i: nat :| LiveUnder(s.mem.value, i, desktop, now);
    HolderIs(s.mem.value, i);
    assert Step(s, Begin(true, desktop, now, ok)).log == s.log + [Dispatch(i, s.mem.value.jobs[i].epoch)];
  }

  /** An action whose outcome is uncertain locks the desktop, even if that cannot be saved. */
  lemma UncertainEndLocks(events: seq<Event>, ok: bool)
    requires Run(INITIAL, events).dispatched && Run(INITIAL, events).mem.Some?
    ensures var s' := Step(Run(INITIAL, events), End(true, ok));
            s'.mem.Some? && s'.mem.value.blocked && !s'.dispatched && NeedsReset(s'.disk)
  {
    EveryRunIsSound(events);
  }

  /** A certain outcome clears the gate and blocks nothing. */
  lemma CertainEndFrees(s: Store, ok: bool)
    ensures EndSpec(s, false, ok).0.mem == s.mem.(inFlight := false)
    ensures EndSpec(s, false, ok).1.Ok? <==> ok
    ensures ok ==> EndSpec(s, false, ok).0.disk == s.mem.(inFlight := false)
  {
  }

  // ---------------------------------------------------------------------- granting

  /** If the desktop is free, nobody is waiting for it. */
  predicate NobodyWaits(m: Image) {
    m.maintenanceOwner.None? && !m.blocked && !m.inFlight && NobodyHolds(m) ==>
      forall i :: 0 <= i < |m.jobs| ==> !m.jobs[i].state.Queued?
  }

  predicate IsNext(m: Image, i: nat) {
    i < |m.jobs| && m.jobs[i].state.Queued? && forall k :: 0 <= k < i ==> !m.jobs[k].state.Queued?
  }

  predicate IsFree(m: Image) {
    m.maintenanceOwner.None? && !m.blocked && !m.inFlight && NobodyHolds(m)
  }

  /** Promoting a free desktop gives it to the first job waiting, under the next epoch, until
      its time to live from now; nothing else changes, and it is saved if it can be. */
  lemma PromoteGrantsNext(s: Store, now: nat, ok: bool, i: nat)
    requires IsFree(s.mem) && IsNext(s.mem, i)
    ensures var (s', r) := Promoted(s, now, ok); var job := s.mem.jobs[i];
            && s'.mem == s.mem.(epoch := s.mem.epoch + 1,
                                jobs := s.mem.jobs[i := job.(state := Active, epoch := s.mem.epoch + 1,
                                                             expiresAt := SaturatingAdd(now, job.ttl))])
            && s'.disk == (if ok then s'.mem else s.disk) && (r.Ok? <==> ok)
  {
    assert Holder(s.mem).None? && FirstQueued(s.mem) == Some(i);
  }

  lemma PromoteOtherwiseNothing(s: Store, now: nat, ok: bool)
    requires !IsFree(s.mem) || forall i :: 0 <= i < |s.mem.jobs| ==> !IsNext(s.mem, i)
    ensures Promoted(s, now, ok) == (s, Ok(()))
  {
    if CanPromote(s.mem) {
      assert IsNext(s.mem, FirstQueued(s.mem).value);
    }
  }

  lemma PromoteLeavesNobodyWaiting(s: Store, now: nat, ok: bool)
    ensures NobodyWaits(Promoted(s, now, ok).0.mem)
  {
    var m := Promoted(s, now, ok).0.mem;
    if CanPromote(s.mem) {
      assert m.jobs[FirstQueued(s.mem).value].state.Active?;
    } else if IsFree(m) {
      assert FirstQueued(m).None?;
    }
  }

  /** After every call that can free the desktop or add to the queue and that answers Ok,
      nobody waits for a free desktop. */
  lemma NobodyWaitsInVain(s: Store, c: Command, now: nat, io: Saves)
    requires CommandSpec(s, c, now, io).1.Ok?
    requires c.SetMaintenance? || c.Recover? || (c.Submit? && |CommandSpec(s, c, now, io).0.mem.jobs| > |s.mem.jobs|)
    ensures NobodyWaits(CommandSpec(s, c, now, io).0.mem)
  {
    hide NobodyWaits;
    forall t: Store
      ensures NobodyWaits(Promoted(t, now, io.second).0.mem)
    {
      PromoteLeavesNobodyWaiting(t, now, io.second);
    }
    hide Promoted;
  }

  lemma CleanupLeavesNobodyWaiting(s: Store, success: bool, now: nat, io: Saves)
    requires CleanupDoneSpec(s, success, now, io).1.Ok?
    ensures NobodyWaits(CleanupDoneSpec(s, success, now, io).0.mem)
  {
    hide NobodyWaits;
    forall t: Store
      ensures NobodyWaits(Promoted(t, now, io.second).0.mem)
    {
      PromoteLeavesNobodyWaiting(t, now, io.second);
    }
    hide Promoted;
  }

  /** A granted session may act exactly until its time to live from the grant is over. */
  lemma GrantLasts(s: Store, now: nat, ok: bool, i: nat, computerUseCall: bool, later: nat)
    requires OneHolder(s.mem.jobs) && IsFree(s.mem) && IsNext(s.mem, i)
    ensures var job := s.mem.jobs[i];
            BeginSpec(Promoted(s, now, ok).0, computerUseCall, Some(Credentials(Some(job.token), Some(job.owner))),
                      later, true).1.Ok?
            <==> later < SaturatingAdd(now, job.ttl)
  {
    PromoteGrantsNext(s, now, ok, i);
    var m := Promoted(s, now, ok).0.mem;
    hide Promoted;
    HolderIs(m, i);
  }

  // --------------------------------------------------------------------- cleaning up

  /** Cleanup is due exactly when the holder is draining or out of time and nothing is
      blocked or in flight; then it is draining, and nothing else changes. */
  lemma NeedsCleanupIff(m: Image, now: nat)
    requires OneHolder(m.jobs)
    ensures NeedsCleanupSpec(m, now).1 <==>
            && !m.blocked && !m.inFlight
            && exists i :: 0 <= i < |m.jobs| && CleanupIsDue(m.jobs[i], now)
    ensures forall i :: 0 <= i < |m.jobs| && CleanupIsDue(m.jobs[i], now) && !m.blocked && !m.inFlight ==>
              NeedsCleanupSpec(m, now).0 == m.(jobs := m.jobs[i := m.jobs[i].(state := Draining)])
    ensures !NeedsCleanupSpec(m, now).1 ==> NeedsCleanupSpec(m, now).0 == m
  {
    forall i | 0 <= i < |m.jobs| && CleanupIsDue(m.jobs[i], now)
      ensures Holder(m) == Some(i)
    {
      HolderIs(m, i);
    }
    if NeedsCleanupSpec(m, now).1 {
      assert CleanupIsDue(m.jobs[Holder(m).value], now);
    }
  }

  predicate CleanupIsDue(job: Job, now: nat) {
    job.state.Draining? || (job.state.Active? && job.expiresAt <= now)
  }

  /** A successful cleanup ends the holder, as expired if its time was over and as completed
      otherwise; no other job ends or loses its place. */
  lemma CleanupEnds(s: Store, now: nat, io: Saves, i: nat)
    requires OneHolder(s.mem.jobs) && i < |s.mem.jobs| && Held(s.mem.jobs[i].state)
    ensures var m := CleanupDoneSpec(s, true, now, io).0.mem;
            && |m.jobs| == |s.mem.jobs|
            && m.jobs[i] == s.mem.jobs[i].(state := if s.mem.jobs[i].expiresAt <= now then Expired else Completed)
            && (forall k :: 0 <= k < |m.jobs| && k != i && m.jobs[k] != s.mem.jobs[k] ==>
                  s.mem.jobs[k].state.Queued? && m.jobs[k].state.Active?)
  {
    HolderIs(s.mem, i);
  }

  /** A failed cleanup blocks the desktop and neither ends nor grants a session. */
  lemma FailedCleanupBlocks(s: Store, now: nat, io: Saves)
    ensures CleanupDoneSpec(s, false, now, io).0.mem == s.mem.(blocked := true)
    ensures CleanupDoneSpec(s, false, now, io).0.disk == if io.first then s.mem.(blocked := true) else s.disk
  {
  }

  // ------------------------------------------------------------------------ sessions

  /** Job `i` is the one these credentials name. */
  predicate Named(m: Image, i: nat, token: Option<string>, owner: Option<string>) {
    && token.Some? && owner.Some? && i < |m.jobs|
    && m.jobs[i].token == token.value && m.jobs[i].owner == owner.value
    && forall k :: 0 <= k < i ==> !(m.jobs[k].token == token.value && m.jobs[k].owner == owner.value)
  }

  /** What a session call makes of its job. */
  predicate SessionBecomes(verb: Verb, before: Job, after: Job, now: nat) {
    && (verb.Get? ==> after == before)
    && (verb.Renew? ==> after == before.(expiresAt := SaturatingAdd(now, before.ttl)))
    && (verb.Finish? || verb.Cancel? ==>
          && after == before.(state := after.state)
          && (before.state.Queued? ==> after.state.Cancelled?)
          && (before.state.Active? ==> after.state.Draining?)
          && (!before.state.Queued? && !before.state.Active? ==> after.state == before.state))
  }

  /** A session call succeeds for the job its credentials name, a renewal only while that job
      is active, in time and unblocked, and when the save does; it changes that job alone. */
  lemma SessionAnswersIff(s: Store, verb: Verb, token: Option<string>, owner: Option<string>, now: nat, io: Saves,
                          i: nat)
    requires ValidField(token) && ValidField(owner) && Named(s.mem, i, token, owner)
    ensures var (s', r) := SessionSpec(s, verb, token, owner, now, io);
            var allowed := verb.Renew? ==>
                  s.mem.jobs[i].state.Active? && now < s.mem.jobs[i].expiresAt && !s.mem.blocked;
            && (r.Ok? <==> io.first && allowed)
            && (!allowed ==> s' == s)
            && (allowed ==> s'.mem == s.mem.(jobs := s.mem.jobs[i := s'.mem.jobs[i]])
                            && SessionBecomes(verb, s.mem.jobs[i], s'.mem.jobs[i], now)
                            && s'.disk == if io.first then s'.mem else s.disk)
            && (r.Ok? ==> r.value == JobReply(s'.mem.jobs[i]))
  {
    assert Position(s.mem.jobs, (j: Job) => j.token == token.value && j.owner == owner.value) == Some(i);
  }

  lemma UnknownSession(s: Store, verb: Verb, token: Option<string>, owner: Option<string>, now: nat, io: Saves)
    requires forall i :: 0 <= i < |s.mem.jobs| ==> !Named(s.mem, i, token, owner)
    ensures SessionSpec(s, verb, token, owner, now, io).0 == s && SessionSpec(s, verb, token, owner, now, io).1.Err?
  {
    if ValidField(token) && ValidField(owner) {
      var found := Position(s.mem.jobs, (j: Job) => j.token == token.value && j.owner == owner.value);
      if found.Some? {
        assert Named(s.mem, found.value, token, owner);
      }
    }
  }

  /** A renewed session may act exactly until its time to live from the renewal is over. */
  lemma RenewalLasts(s: Store, token: Option<string>, owner: Option<string>, now: nat, i: nat, computerUseCall: bool,
                     later: nat)
    requires OneHolder(s.mem.jobs) && ValidField(token) && ValidField(owner) && Named(s.mem, i, token, owner)
    requires s.mem.jobs[i].state.Active? && now < s.mem.jobs[i].expiresAt && !s.mem.blocked && !s.mem.inFlight
    ensures var s' := SessionSpec(s, Renew, token, owner, now, Saves(true, true)).0;
            BeginSpec(s', computerUseCall, Some(Credentials(token, owner)), later, true).1.Ok?
            <==> later < SaturatingAdd(now, s.mem.jobs[i].ttl)
  {
    SessionAnswersIff(s, Renew, token, owner, now, Saves(true, true), i);
    var s' := SessionSpec(s, Renew, token, owner, now, Saves(true, true)).0;
    hide SessionSpec;
    HolderIs(s'.mem, i);
  }

  /** A session cancelled while it waited is never granted: in any later run without a crash,
      and in any later run at all if the cancellation was saved. */
  lemma CancelledNeverGranted(s: System, verb: Verb, token: Option<string>, owner: Option<string>, now: nat, io: Saves,
                              i: nat, events: seq<Event>)
    requires Sound(s) && s.mem.Some? && (verb.Finish? || verb.Cancel?) && ValidField(token) && ValidField(owner)
    requires Named(s.mem.value, i, token, owner) && s.mem.value.jobs[i].state.Queued?
    requires NoCrash(events) || io.first
    ensures var s' := Run(Step(s, Call(Session(verb, token, owner), now, io)), events);
            s'.mem.Some? ==> i < |s'.mem.value.jobs| && s'.mem.value.jobs[i].state.Cancelled?
                             && s'.mem.value.jobs[i].epoch == 0
  {
    var e := Call(Session(verb, token, owner), now, io);
    var s1 := Step(s, e);
    SessionAnswersIff(Store(s.mem.value, s.disk), verb, token, owner, now, io, i);
    assert s1.mem.value.jobs[i].state.Cancelled? && (io.first ==> s1.disk == s1.mem.value);
    StepKeepsSound(s, e);
    RunKeepsSound(s1, events);
    hide Step, SessionSpec;
    if io.first {
      FinishedForever(s1, events, i);
    } else {
      MemoryEvolves(s1, events);
    }
    var s' := Run(s1, events);
    hide Run;
    if s'.mem.Some? {
      assert s'.mem.value.jobs[i].state.Cancelled?;
    }
  }

  // ---------------------------------------------------------------- other commands

  predicate Asks(job: Job, owner: Option<string>, key: Option<string>) {
    owner == Some(job.owner) && key == Some(job.requestKey)
  }

  /** A new request joins the end of the queue exactly when its fields are valid, there is
      room, and its time to live is within bounds; otherwise nothing changes. */
  lemma SubmitQueuesIff(s: Store, owner: Option<string>, key: Option<string>, ttlMs: Option<nat>, id: string,
                        secret: string, now: nat, io: Saves)
    requires forall i :: 0 <= i < |s.mem.jobs| ==> !Asks(s.mem.jobs[i], owner, key)
    ensures var (s', r) := SubmitSpec(s, owner, key, ttlMs, id, secret, now, io);
            var ttl := if ttlMs.Some? then ttlMs.value else 900000;
            var accepted := && ValidField(owner) && ValidField(key) && |s.mem.jobs| < 10000 && 1000 <= ttl
                            && ttl <= 3600000;
            && (!accepted ==> s' == s && r.Err?)
            && (accepted ==>
                  && |s'.mem.jobs| == |s.mem.jobs| + 1 && (!io.first ==> s'.disk == s.disk && r.Err?)
                  && var job := s'.mem.jobs[|s.mem.jobs|];
                     && job.id == id && Asks(job, owner, key) && job.token == secret && job.ttl == ttl
                     && job.submittedAt == now && (r.Ok? ==> r.value == JobReply(job)))
  {
    if ValidField(owner) && ValidField(key) {
      var p := (j: Job) => j.owner == owner.value && j.requestKey == key.value;
      var found := Position(s.mem.jobs, p);
      if found.Some? {
        assert Asks(s.mem.jobs[found.value], owner, key);
      }
    }
  }

  /** Maintenance is set or lifted by a valid operator that no other one excludes. */
  lemma MaintenanceAnswersIff(s: Store, operator: Option<string>, enabled: Option<bool>, now: nat, io: Saves)
    ensures var (s', r) := MaintenanceSpec(s, operator, enabled, now, io);
            var allowed := && ValidField(operator) && enabled.Some?
                           && (s.mem.maintenanceOwner.None? || s.mem.maintenanceOwner == operator);
            && (!allowed ==> s' == s && r.Err?)
            && (allowed ==> s'.mem.maintenanceOwner == if enabled == Some(true) then operator else None)
            && (allowed && enabled == Some(true) ==>
                  s'.mem == s.mem.(maintenanceOwner := operator) && (r.Ok? <==> io.first))
  {
  }

  /** A reset is accepted exactly for a blocked desktop with nothing in flight, when confirmed;
      it unblocks it and interrupts whoever held it. */
  lemma RecoverAnswersIff(s: Store, confirmed: bool, now: nat, io: Saves)
    requires OneHolder(s.mem.jobs)
    ensures var (s', r) := RecoverSpec(s, confirmed, now, io);
            var allowed := s.mem.blocked && !s.mem.inFlight && confirmed;
            && (!allowed ==> s' == s && r.Err?)
            && (allowed ==>
                  && !s'.mem.blocked && |s'.mem.jobs| == |s.mem.jobs|
                  && forall i :: 0 <= i < |s.mem.jobs| && Held(s.mem.jobs[i].state) ==>
                       s'.mem.jobs[i].state.Interrupted?)
  {
    forall i | 0 <= i < |s.mem.jobs| && Held(s.mem.jobs[i].state)
      ensures Holder(s.mem) == Some(i)
    {
      HolderIs(s.mem, i);
    }
  }

  /** A listing shows every job as it is, but no token, and a safe point exactly when the
      desktop is paused with nothing blocked, in flight or held. */
  lemma ListingHidesTokens(s: Store, now: nat, io: Saves)
    ensures var (s', r) := CommandSpec(s, List, now, io);
            && s' == s && r.Ok? && r.value.ListReply? && |r.value.image.jobs| == |s.mem.jobs|
            && (forall i :: 0 <= i < |s.mem.jobs| ==> r.value.image.jobs[i] == s.mem.jobs[i].(token := ""))
            && (r.value.safePoint <==> s.mem.maintenanceOwner.Some? && !s.mem.blocked && !s.mem.inFlight
                                       && NobodyHolds(s.mem))
  {
  }
}
