/** What the desktop queue guarantees over every run. */
module DesktopTheorems {
  import opened Common
  import opened Desktop
  import opened DesktopRuns

  // -------------------------------------------------------------- mutual exclusion

  lemma {:induction false} RunKeepsSound(s: System, events: seq<Event>)
    requires Sound(s)
    ensures Sound(Run(s, events)) && Evolves(s.disk, Run(s, events).disk)
    decreases |events|
  {
    if events == [] {
      ChangeKeepsFifo(s.disk, Same, s.disk);
    } else {
      StepKeepsSound(s, events[0]);
      RunKeepsSound(Step(s, events[0]), events[1..]);
      EvolvesTrans(s.disk, Step(s, events[0]).disk, Run(s, events).disk);
    }
  }

  lemma InitialIsSound()
    ensures Sound(INITIAL)
  {
    assert Select(EMPTY.jobs, WasGranted()) == [];
  }

  /** In every reachable state, memory and disk are both first-come-first-served
      queues with a single holder and epochs 1..n in queue order. */
  lemma EveryRunIsSound(events: seq<Event>)
    ensures Sound(Run(INITIAL, events))
  {
    hide Sound, Run;
    InitialIsSound();
    RunKeepsSound(INITIAL, events);
  }

  /** The mutex a running process shows, and the one its saved image holds. */
  datatype Durable = Durable(live: Option<Mutex>, saved: Mutex)

  ghost function AbstractSystem(s: System): Durable {
    Durable(if s.mem.Some? then Some(Abstract(s.mem.value)) else None, Abstract(s.disk))
  }

  /** A durable mutex: at most two moves at a time, saved at any of the states passed
      through; a crash drops the live copy and a restart resumes the saved one. */
  ghost predicate DurableStep(a: Durable, b: Durable) {
    if a.live.None? then
      b.saved == a.saved && (b.live.None? || b.live.value == a.saved)
    else if b.live.None? then b.saved == a.saved
    else
      exists first, mid, second ::
        && MutexStep(a.live.value, first, mid)
        && MutexStep(mid, second, b.live.value)
        && (b.saved == a.saved || b.saved == mid || b.saved == b.live.value)
  }

  lemma StepRefinesMutex(s: System, e: Event)
    requires Sound(s)
    ensures DurableStep(AbstractSystem(s), AbstractSystem(Step(s, e)))
  {
    var s' := Step(s, e);
    if s.mem.None? {
      ReopenKeepsFifo(s.disk);
    } else if !e.Crash? {
      var p := StepFollows(s, e);
      ChangeKeepsFifo(s.mem.value, p.first, p.mid);
      ChangeKeepsFifo(p.mid, p.second, s'.mem.value);
      assert MutexStep(Abstract(s.mem.value), MoveOf(s.mem.value, p.first), Abstract(p.mid));
      assert MutexStep(Abstract(p.mid), MoveOf(p.mid, p.second), Abstract(s'.mem.value));
    }
  }

  lemma {:induction false} RunExtends(s: System, events: seq<Event>, e: Event)
    ensures Run(s, events + [e]) == Step(Run(s, events), e)
    decreases |events|
  {
    if events == [] {
      assert (events + [e])[1..] == [];
      assert Run(Step(s, e), []) == Step(s, e);
    } else {
      assert (events + [e])[1..] == events[1..] + [e];
      RunExtends(Step(s, events[0]), events[1..], e);
    }
  }

  /** Refinement: every step of every run is a step of the durable mutex. */
  lemma EveryRunRefinesMutex(events: seq<Event>, k: nat)
    requires k < |events|
    ensures DurableStep(AbstractSystem(Run(INITIAL, events[..k])), AbstractSystem(Run(INITIAL, events[..k + 1])))
  {
    hide Step, Sound, DurableStep, AbstractSystem;
    EveryRunIsSound(events[..k]);
    StepRefinesMutex(Run(INITIAL, events[..k]), events[k]);
    assert events[..k + 1] == events[..k] + [events[k]];
    RunExtends(INITIAL, events[..k], events[k]);
  }

  lemma EpochNamesJob(m: Image, i: nat)
    requires Numbered(m.jobs, m.epoch) && i < |m.jobs| && m.jobs[i].epoch != 0
    ensures m.jobs[i].epoch <= m.epoch && GrantOrder(m)[m.jobs[i].epoch - 1] == i
  {
    SelectIsOrdered(m.jobs, WasGranted());
    assert WasGranted()(m.jobs[i]);
    var k :| 0 <= k < |GrantOrder(m)| && GrantOrder(m)[k] == i;
    assert m.jobs[GrantOrder(m)[k]].epoch == k + 1;
  }

  /** Fencing: across crashes, restarts and failed saves an epoch names one job for
      ever, and once a later session has acted no earlier one acts again. */
  lemma DispatchesAreFenced(events: seq<Event>, k: nat, l: nat)
    requires k <= l < |Run(INITIAL, events).log|
    ensures var log := Run(INITIAL, events).log;
            log[k].epoch <= log[l].epoch && (log[k].epoch == log[l].epoch <==> log[k].job == log[l].job)
  {
    EveryRunIsSound(events);
    var s := Run(INITIAL, events);
    EpochNamesJob(s.disk, s.log[k].job);
    EpochNamesJob(s.disk, s.log[l].job);
  }

  lemma {:induction false} SelectBounded(jobs: seq<Job>, p: Job -> bool)
    ensures |Select(jobs, p)| <= |jobs|
  {
    if jobs != [] {
      SelectBounded(jobs[..|jobs| - 1], p);
    }
  }

  /** Epochs count grants, one per job at most, so the 64-bit counter never overflows. */
  lemma EpochNeverOverflows(events: seq<Event>)
    ensures var s := Run(INITIAL, events);
            s.disk.epoch <= CAPACITY && (s.mem.Some? ==> s.mem.value.epoch <= |s.mem.value.jobs| <= CAPACITY)
  {
    EveryRunIsSound(events);
    var s := Run(INITIAL, events);
    SelectBounded(s.disk.jobs, WasGranted());
    if s.mem.Some? {
      SelectBounded(s.mem.value.jobs, WasGranted());
    }
  }

  /** While somebody holds the desktop, an action starts only for a caller presenting the
      credentials of that live session, and a computer-use call carries its id and epoch. */
  lemma OnlyHolderActs(s: Store, computerUseCall: bool, desktop: Option<Credentials>, now: nat, ok: bool, i: nat)
    requires OneHolder(s.mem.jobs) && i < |s.mem.jobs| && Held(s.mem.jobs[i].state)
    requires BeginSpec(s, computerUseCall, desktop, now, ok).1.Ok?
    ensures computerUseCall ==>
              BeginSpec(s, computerUseCall, desktop, now, ok).1.value
              == Some(SessionId(s.mem.jobs[i].id, s.mem.jobs[i].epoch))
    ensures s.mem.jobs[i].state == Active && s.mem.jobs[i].expiresAt > now
    ensures desktop == Some(Credentials(Some(s.mem.jobs[i].token), Some(s.mem.jobs[i].owner)))
  {
    HolderIs(s.mem, i);
  }

  /** Asking again under the same owner and key changes nothing and names the same job. */
  lemma ResubmitReturnsSameJob(s: Store, c: Command, again: Command, now: nat, later: nat, io: Saves, io': Saves)
    requires c.Submit? && again.Submit? && again.owner == c.owner && again.key == c.key
    requires CommandSpec(s, c, now, io).1.Ok?
    ensures var (s1, r1) := CommandSpec(s, c, now, io);
            var (s2, r2) := CommandSpec(s1, again, later, io');
            s2 == s1 && r2.Ok? && r1.value.JobReply? && r2.value == r1.value
  {
    var p := (j: Job) => j.owner == c.owner.value && j.requestKey == c.key.value;
    var (s1, r1) := CommandSpec(s, c, now, io);
    if Position(s.mem.jobs, p).Some? {
    } else {
      assert |s1.mem.jobs| == |s.mem.jobs| + 1;
      assert forall k :: 0 <= k < |s.mem.jobs| ==> !p(s1.mem.jobs[k]);
      assert p(s1.mem.jobs[|s.mem.jobs|]);
    }
  }

  function AskedBy(owner: string, key: string): Job -> bool {
    (j: Job) => j.owner == owner && j.requestKey == key
  }

  predicate SameSession(a: Job, b: Job) {
    a.id == b.id && a.owner == b.owner && a.requestKey == b.requestKey && a.token == b.token
  }

  /** The request had reached the disk. */
  predicate OnDisk(s: System, owner: string, key: string) {
    Position(s.disk.jobs, AskedBy(owner, key)).Some?
  }

  predicate NoCrash(events: seq<Event>) {
    forall k :: 0 <= k < |events| ==> !events[k].Crash?
  }

  /** A request keeps its place in the queue, and its session, as the queue evolves. */
  lemma PlaceKept(a: Image, b: Image, owner: string, key: string)
    requires Evolves(a, b) && Position(a.jobs, AskedBy(owner, key)).Some?
    ensures Position(b.jobs, AskedBy(owner, key)) == Position(a.jobs, AskedBy(owner, key))
    ensures var i := Position(a.jobs, AskedBy(owner, key)).value; SameSession(a.jobs[i], b.jobs[i])
  {
    var i := Position(a.jobs, AskedBy(owner, key)).value;
    var p := AskedBy(owner, key);
    assert forall k :: 0 <= k <= i ==> JobEvolves(a.jobs[k], b.jobs[k]) && p(b.jobs[k]) == p(a.jobs[k]);
  }

  lemma {:induction false} MemoryEvolves(s: System, events: seq<Event>)
    requires Sound(s) && s.mem.Some? && NoCrash(events)
    ensures Run(s, events).mem.Some? && Evolves(s.mem.value, Run(s, events).mem.value)
    decreases |events|
  {
    if events == [] {
      EvolvesSelf(s.mem.value);
    } else {
      assert !events[0].Crash?;
      var s1 := Step(s, events[0]);
      var p := StepFollows(s, events[0]);
      PathIsSound(Store(s.mem.value, s.disk), p, Store(s1.mem.value, s1.disk));
      StepKeepsSound(s, events[0]);
      hide Sound, Evolves, Step, Follows;
      MemoryEvolves(s1, events[1..]);
      EvolvesTrans(s.mem.value, s1.mem.value, Run(s, events).mem.value);
    }
  }

  /** Once a request is in the queue it is answered with its session in every later state,
      through any run without a crash; and if it is on disk, through any run at all. */
  lemma RequestKeepsSession(s: System, events: seq<Event>, owner: string, key: string)
    requires Sound(s) && s.mem.Some? && Position(s.mem.value.jobs, AskedBy(owner, key)).Some?
    requires NoCrash(events) || OnDisk(s, owner, key)
    ensures var s' := Run(s, events); var i := Position(s.mem.value.jobs, AskedBy(owner, key)).value;
            s'.mem.Some? ==> Position(s'.mem.value.jobs, AskedBy(owner, key)) == Some(i)
                             && SameSession(s.mem.value.jobs[i], s'.mem.value.jobs[i])
  {
    RunKeepsSound(s, events);
    var s' := Run(s, events);
    if NoCrash(events) {
      MemoryEvolves(s, events);
      PlaceKept(s.mem.value, s'.mem.value, owner, key);
    } else if s'.mem.Some? {
      PlaceKept(s.disk, s.mem.value, owner, key);
      PlaceKept(s.disk, s'.disk, owner, key);
      PlaceKept(s'.disk, s'.mem.value, owner, key);
    }
  }

  lemma SubmitFinds(s: System, c: Command, now: nat, io: Saves)
    requires s.mem.Some? && c.Submit? && CommandSpec(Store(s.mem.value, s.disk), c, now, io).1.Ok?
    ensures var s' := Step(s, Call(c, now, io)); var r := CommandSpec(Store(s.mem.value, s.disk), c, now, io).1.value;
            var p := AskedBy(c.owner.value, c.key.value);
            && ValidField(c.owner) && ValidField(c.key) && r.JobReply?
            && s'.mem.Some? && Position(s'.mem.value.jobs, p).Some?
            && s'.mem.value.jobs[Position(s'.mem.value.jobs, p).value] == r.job
            && (Position(s.mem.value.jobs, p).None? ==> Position(s'.disk.jobs, p).Some?)
  {
    var p := AskedBy(c.owner.value, c.key.value);
    var s' := Step(s, Call(c, now, io));
    if Position(s.mem.value.jobs, p).None? {
      assert |s'.mem.value.jobs| == |s.mem.value.jobs| + 1;
      assert forall k :: 0 <= k < |s.mem.value.jobs| ==> !p(s'.mem.value.jobs[k]);
      assert p(s'.mem.value.jobs[|s.mem.value.jobs|]);
      assert p(s'.disk.jobs[|s.mem.value.jobs|]);
    }
  }

  /** A submit answered Ok is answered with the same session ever after and changes nothing:
      in any later run without a crash, and in any later run at all if the request had
      reached the disk, as it has when this very submit queued it. */
  lemma ResubmitAlwaysReturnsSameJob(s: System, c: Command, now: nat, io: Saves, events: seq<Event>, again: Command,
                                     later: nat, io': Saves)
    requires Sound(s) && s.mem.Some? && c.Submit? && again.Submit? && again.owner == c.owner && again.key == c.key
    requires CommandSpec(Store(s.mem.value, s.disk), c, now, io).1.Ok?
    ensures var r := CommandSpec(Store(s.mem.value, s.disk), c, now, io).1.value;
            var s1 := Step(s, Call(c, now, io));
            var s' := Run(s1, events);
            && c.owner.Some? && c.key.Some? && r.JobReply?
            && (Position(s.mem.value.jobs, AskedBy(c.owner.value, c.key.value)).None? ==>
                  OnDisk(s1, c.owner.value, c.key.value))
            && (s'.mem.Some? && (NoCrash(events) || OnDisk(s1, c.owner.value, c.key.value)) ==>
                  AnswersWith(s', again, later, io', r.job))
  {
    SubmitFinds(s, c, now, io);
    StepKeepsSound(s, Call(c, now, io));
    hide Step, Sound;
    var s1 := Step(s, Call(c, now, io));
    var s' := Run(s1, events);
    if s'.mem.Some? && (NoCrash(events) || OnDisk(s1, c.owner.value, c.key.value)) {
      RequestKeepsSession(s1, events, c.owner.value, c.key.value);
      hide CommandSpec, Run, OnDisk;
      AnsweredFromPlace(s', again, later, io', CommandSpec(Store(s.mem.value, s.disk), c, now, io).1.value.job);
    }
  }

  lemma AnsweredFromPlace(s: System, c: Command, now: nat, io: Saves, job: Job)
    requires s.mem.Some? && c.Submit? && ValidField(c.owner) && ValidField(c.key)
    requires var place := Position(s.mem.value.jobs, AskedBy(c.owner.value, c.key.value));
             place.Some? && SameSession(s.mem.value.jobs[place.value], job)
    ensures AnswersWith(s, c, now, io, job)
  {
    var p := (j: Job) => j.owner == c.owner.value && j.requestKey == c.key.value;
    assert Position(s.mem.value.jobs, p) == Position(s.mem.value.jobs, AskedBy(c.owner.value, c.key.value));
  }

  /** The submit is answered Ok with this session and changes nothing. */
  predicate AnswersWith(s: System, c: Command, now: nat, io: Saves, job: Job)
    requires s.mem.Some?
  {
    var store := Store(s.mem.value, s.disk);
    var (after, r) := CommandSpec(store, c, now, io);
    after == store && r.Ok? && r.value.JobReply? && SameSession(r.value.job, job)
  }

  /** A request survives a crash exactly when it had reached the disk, and it need not have
      when an earlier submit of it failed to save: asked again, it is answered Ok. */
  lemma RequestSurvivesCrashIff(s: System, owner: string, key: string)
    requires Sound(s) && s.mem.Some? && Position(s.mem.value.jobs, AskedBy(owner, key)).Some?
    ensures var back := Step(Step(s, Crash), Open(true)).mem.value;
            Position(back.jobs, AskedBy(owner, key)).Some? <==> OnDisk(s, owner, key)
  {
  }

  // ------------------------------------------------------------ undisturbed sessions

  /** Job `i` holds the desktop, is not being cleaned up, and nothing is blocked. */
  predicate InSession(s: System, i: nat, job: Job) {
    && s.mem.Some? && i < |s.mem.value.jobs| && s.mem.value.jobs[i] == job && job.state.Active?
    && !s.mem.value.blocked && s.cleaning.None?
  }

  /** The holder's own session commands, its expiry, an uncertain outcome and a crash
      are all that can end a session. */
  predicate Disturbs(e: Event, job: Job) {
    match e
    case Call(c, _, _) => c.Session? && c.token == Some(job.token) && c.claimant == Some(job.owner)
    case NeedsCleanup(now) => job.expiresAt <= now
    case End(uncertain, _) => uncertain
    case Crash => true
    case _ => false
  }

  lemma CallKeepsSession(s: System, e: Event, i: nat, job: Job)
    requires InSession(s, i, job) && Holder(s.mem.value) == Some(i) && !Disturbs(e, job) && e.Call?
    ensures InSession(Step(s, e), i, job)
  {
  }

  lemma StepKeepsSession(s: System, e: Event, i: nat, job: Job)
    requires InSession(s, i, job) && OneHolder(s.mem.value.jobs) && !Disturbs(e, job)
    ensures InSession(Step(s, e), i, job)
  {
    HolderIs(s.mem.value, i);
    if e.Call? {
      CallKeepsSession(s, e, i, job);
    } else {
      hide CommandSpec, OneHolder;
    }
  }

  /** Nobody else can take the desktop away: through any run of other owners' commands,
      maintenance, failed saves and promotions, the session stays as it is, and an action
      with its credentials starts exactly when none is in flight, it has not expired and
      the save succeeds. */
  lemma {:induction false} SessionIsUndisturbed(s: System, events: seq<Event>, i: nat, job: Job, call: bool, now: nat,
                                                ok: bool)
    requires Sound(s) && InSession(s, i, job) && forall k :: 0 <= k < |events| ==> !Disturbs(events[k], job)
    ensures var s' := Run(s, events);
            && InSession(s', i, job)
            && (BeginSpec(Store(s'.mem.value, s'.disk), call, Some(Credentials(Some(job.token), Some(job.owner))),
                          now, ok).1.Ok?
                <==> !s'.mem.value.inFlight && now < job.expiresAt && ok)
    decreases |events|
  {
    if events == [] {
      HolderIs(s.mem.value, i);
    } else {
      assert !Disturbs(events[0], job);
      StepKeepsSession(s, events[0], i, job);
      StepKeepsSound(s, events[0]);
      hide Step, Sound, InSession, Disturbs, BeginSpec;
      SessionIsUndisturbed(Step(s, events[0]), events[1..], i, job, call, now, ok);
    }
  }

  // --------------------------------------------------------------- finished sessions

  /** A session whose end was saved never changes again, whatever happens. */
  lemma FinishedForever(s: System, events: seq<Event>, i: nat)
    requires Sound(s) && i < |s.disk.jobs| && Finished(s.disk.jobs[i].state)
    ensures var s' := Run(s, events);
            && i < |s'.disk.jobs| && s'.disk.jobs[i] == s.disk.jobs[i]
            && (s'.mem.Some? ==> i < |s'.mem.value.jobs| && s'.mem.value.jobs[i] == s.disk.jobs[i])
  {
    RunKeepsSound(s, events);
    var s' := Run(s, events);
    assert JobEvolves(s.disk.jobs[i], s'.disk.jobs[i]);
    if s'.mem.Some? {
      assert JobEvolves(s'.disk.jobs[i], s'.mem.value.jobs[i]);
    }
  }

  /** A finished session survives a crash exactly when its end had been saved. */
  lemma FinishSurvivesCrashIff(s: System, i: nat)
    requires Sound(s) && s.mem.Some? && i < |s.mem.value.jobs| && Finished(s.mem.value.jobs[i].state)
    ensures var m := Step(Step(s, Crash), Open(true)).mem.value;
            (i < |m.jobs| && m.jobs[i] == s.mem.value.jobs[i]) <==>
                  (i < |s.disk.jobs| && Finished(s.disk.jobs[i].state))
  {
    if i < |s.disk.jobs| {
      assert JobEvolves(s.disk.jobs[i], s.mem.value.jobs[i]);
    }
  }

  // ------------------------------------------------------------------- fail closed

  predicate NeedsReset(disk: Image) {
    disk.inFlight || disk.blocked || Holder(disk).Some?
  }

  /** Stopped until an operator confirms a reset. */
  predicate Locked(s: System) {
    && NeedsReset(s.disk) && !s.dispatched && s.cleaning.None?
    && (s.mem.Some? ==> s.mem.value.blocked && s.mem.value.epoch == s.disk.epoch)
  }

  predicate ConfirmsReset(e: Event) {
    e.Call? && e.c.Recover? && e.c.confirmed
  }

  /** A restart is blocked exactly when the saved image shows an action in flight,
      a session that held the desktop, or an earlier block. */
  lemma RestartBlockedIff(s: System)
    requires s.mem.None? && !s.dispatched && s.cleaning.None?
    ensures NeedsReset(s.disk) <==> Step(s, Open(true)).mem.value.blocked
    ensures NeedsReset(s.disk) <==> Locked(s)
  {
  }

  /** While an action is under way the saved image says so, whichever saves failed;
      so a crash then, or after an `end` whose save failed, leaves the system locked. */
  lemma CrashDuringActionLocks(events: seq<Event>, uncertain: bool)
    requires Run(INITIAL, events).dispatched
    ensures Run(INITIAL, events).disk.inFlight
    ensures Locked(Step(Run(INITIAL, events), Crash))
    ensures Locked(Step(Step(Run(INITIAL, events), End(uncertain, false)), Crash))
  {
    EveryRunIsSound(events);
  }

  lemma SessionKeepsLocked(s: System, e: Event)
    requires Locked(s) && e.Call? && e.c.Session?
    ensures Locked(Step(s, e)) && Step(s, e).log == s.log && Step(s, e).disk.epoch == s.disk.epoch
  {
  }

  lemma CallKeepsLocked(s: System, e: Event)
    requires Locked(s) && e.Call? && !ConfirmsReset(e)
    ensures Locked(Step(s, e)) && Step(s, e).log == s.log && Step(s, e).disk.epoch == s.disk.epoch
  {
    if e.c.Session? {
      SessionKeepsLocked(s, e);
    } else {
      hide SessionSpec;
    }
  }

  lemma StepKeepsLocked(s: System, e: Event)
    requires Locked(s) && !ConfirmsReset(e)
    ensures Locked(Step(s, e)) && Step(s, e).log == s.log && Step(s, e).disk.epoch == s.disk.epoch
  {
    if e.Call? {
      CallKeepsLocked(s, e);
    } else {
      hide CommandSpec;
    }
  }

  /** Without a confirmed reset no run, however often it crashes and restarts,
      grants the desktop or starts an action. */
  lemma {:induction false} LockedUntilReset(s: System, events: seq<Event>)
    requires Locked(s) && forall k :: 0 <= k < |events| ==> !ConfirmsReset(events[k])
    ensures var s' := Run(s, events);
            Locked(s') && s'.log == s.log && s'.disk.epoch == s.disk.epoch
    decreases |events|
  {
    if events != [] {
      assert !ConfirmsReset(events[0]);
      StepKeepsLocked(s, events[0]);
      LockedUntilReset(Step(s, events[0]), events[1..]);
    }
  }

  // ------------------------------------------------------------------ cleanup window

  /** Once `needs_cleanup` has said yes, any number of other calls leave the same job
      draining, nothing in flight and nothing blocked, until `cleanup_done`. */
  lemma {:induction false} CleanupWindowHolds(s: System, events: seq<Event>)
    requires Sound(s) && s.cleaning.Some?
    requires forall k :: 0 <= k < |events| ==> !events[k].CleanupDone? && !events[k].Crash?
    ensures var s' := Run(s, events);
            && s'.cleaning == s.cleaning && s'.mem.Some? && Cleaning(s'.mem.value, s.cleaning.value)
            && !s'.dispatched && s'.log == s.log
    decreases |events|
  {
    if events != [] {
      assert !events[0].CleanupDone? && !events[0].Crash?;
      CleaningPersists(s, events[0]);
      StepKeepsSound(s, events[0]);
      CleanupWindowHolds(Step(s, events[0]), events[1..]);
    }
  }

  // -------------------------------------------------------------- maintenance pause

  predicate EndsMaintenance(e: Event, owner: string) {
    e.Call? && e.c.SetMaintenance? && e.c.operator == Some(owner) && e.c.enabled == Some(false)
  }

  /** This step starts no action and grants nobody. */
  predicate QuietStep(s: System, e: Event) {
    var s' := Step(s, e);
    !s'.dispatched && (s.mem.Some? && s'.mem.Some? ==> s'.mem.value.epoch == s.mem.value.epoch)
  }

  predicate Quiet(s: System, events: seq<Event>)
    decreases |events|
  {
    events == [] || (QuietStep(s, events[0]) && Quiet(Step(s, events[0]), events[1..]))
  }

  predicate PausedBy(s: System, owner: string) {
    && s.disk.maintenanceOwner == Some(owner) && !s.dispatched && s.cleaning.None?
    && (s.mem.Some? ==> s.mem.value.maintenanceOwner == Some(owner)
                        && (s.mem.value.blocked || Holder(s.mem.value).None?))
  }

  lemma RecoveredHolder(m: Image)
    requires OneHolder(m.jobs) && Holder(m).Some?
    ensures Holder(WithState(m, Holder(m).value, Interrupted)).None?
  {
  }

  lemma RecoverKeepsPause(s: System, e: Event, owner: string)
    requires PausedBy(s, owner) && e.Call? && e.c.Recover?
    requires s.mem.Some? ==> OneHolder(s.mem.value.jobs)
    ensures PausedBy(Step(s, e), owner) && QuietStep(s, e) && Step(s, e).log == s.log
  {
    if s.mem.Some? && Holder(s.mem.value).Some? {
      RecoveredHolder(s.mem.value);
    }
  }

  lemma MaintenanceKeepsPause(s: System, e: Event, owner: string)
    requires PausedBy(s, owner) && !EndsMaintenance(e, owner) && e.Call? && e.c.SetMaintenance?
    ensures PausedBy(Step(s, e), owner) && QuietStep(s, e) && Step(s, e).log == s.log
  {
  }

  lemma SessionKeepsPause(s: System, e: Event, owner: string)
    requires PausedBy(s, owner) && e.Call? && e.c.Session?
    ensures PausedBy(Step(s, e), owner) && QuietStep(s, e) && Step(s, e).log == s.log
  {
  }

  lemma CallKeepsPause(s: System, e: Event, owner: string)
    requires PausedBy(s, owner) && !EndsMaintenance(e, owner) && e.Call?
    requires s.mem.Some? ==> OneHolder(s.mem.value.jobs)
    ensures PausedBy(Step(s, e), owner) && QuietStep(s, e) && Step(s, e).log == s.log
  {
    if e.c.Recover? {
      RecoverKeepsPause(s, e, owner);
    } else if e.c.SetMaintenance? {
      MaintenanceKeepsPause(s, e, owner);
    } else if e.c.Session? {
      SessionKeepsPause(s, e, owner);
    } else {
      hide RecoverSpec, MaintenanceSpec, SessionSpec, OneHolder;
    }
  }

  lemma StepKeepsPause(s: System, e: Event, owner: string)
    requires PausedBy(s, owner) && !EndsMaintenance(e, owner)
    requires s.mem.Some? ==> OneHolder(s.mem.value.jobs)
    ensures PausedBy(Step(s, e), owner) && QuietStep(s, e) && Step(s, e).log == s.log
  {
    if e.Call? {
      CallKeepsPause(s, e, owner);
    } else {
      hide CommandSpec, OneHolder;
    }
  }

  /** A pause that was saved holds, through restarts too, until its owner ends it. */
  lemma {:induction false} PauseHolds(s: System, events: seq<Event>, owner: string)
    requires Sound(s) && PausedBy(s, owner)
    requires forall k :: 0 <= k < |events| ==> !EndsMaintenance(events[k], owner)
    ensures Quiet(s, events) && PausedBy(Run(s, events), owner) && Run(s, events).log == s.log
    decreases |events|
  {
    if events != [] {
      assert !EndsMaintenance(events[0], owner);
      StepKeepsPause(s, events[0], owner);
      StepKeepsSound(s, events[0]);
      PauseHolds(Step(s, events[0]), events[1..], owner);
    }
  }

  function OtherThan(owner: string): (r: string)
    ensures r != owner && |r| == 1
  {
    if owner == "a" then "b" else "a"
  }

  /** Restart, confirm a reset, lift whatever pause the image holds, start an action. */
  ghost function Reawaken(disk: Image, owner: string): seq<Event> {
    var who := if disk.maintenanceOwner.Some? then disk.maintenanceOwner.value else OtherThan(owner);
    [Crash, Open(true), Call(Recover(true), 0, Saves(true, true)),
     Call(SetMaintenance(Some(who), Some(false)), 0, Saves(true, true)), Begin(false, None, 0, true)]
  }

  lemma QuietParts(s: System, a: Event, b: Event, c: Event, d: Event, e: Event)
    requires Quiet(s, [a, b, c, d, e])
    ensures var s1 := Step(s, a); var s2 := Step(s1, b); var s3 := Step(s2, c); var s4 := Step(s3, d);
            QuietStep(s, a) && QuietStep(s1, b) && QuietStep(s2, c) && QuietStep(s3, d) && QuietStep(s4, e)
  {
    var s1 := Step(s, a);
    var s2 := Step(s1, b);
    var s3 := Step(s2, c);
    var s4 := Step(s3, d);
    assert [a, b, c, d, e][1..] == [b, c, d, e];
    assert [b, c, d, e][1..] == [c, d, e];
    assert [c, d, e][1..] == [d, e];
    assert [d, e][1..] == [e];
    assert Quiet(s1, [b, c, d, e]) && Quiet(s2, [c, d, e]) && Quiet(s3, [d, e]) && Quiet(s4, [e]);
  }

  /** After a restart and a confirmed reset the desktop is free. */
  lemma ResetFreesDesktop(s: System)
    requires Sound(s) && s.mem.Some?
    ensures var s3 := Step(Step(Step(s, Crash), Open(true)), Call(Recover(true), 0, Saves(true, true)));
            && Step(Step(s, Crash), Open(true)).mem == Some(Reopened(s.disk)) && Reopened(s.disk).epoch == s.disk.epoch
            && s3.mem.Some? && !s3.mem.value.blocked && !s3.mem.value.inFlight
            && (s3.mem.value.epoch == s.disk.epoch ==> Holder(s3.mem.value).None?)
            && s3.mem.value.maintenanceOwner == s.disk.maintenanceOwner
  {
    var m := Reopened(s.disk);
    assert m.jobs == s.disk.jobs && m.epoch == s.disk.epoch;
    assert Holder(m) == Holder(s.disk);
    if Holder(m).Some? {
      RecoveredHolder(m);
    }
  }

  /** Lifting the pause on a free desktop grants somebody or lets an action start. */
  lemma FreedDesktopActs(s: System, operator: Option<string>)
    requires s.mem.Some? && !s.mem.value.blocked && !s.mem.value.inFlight && Holder(s.mem.value).None?
    requires ValidField(operator) && (s.mem.value.maintenanceOwner.Some? ==> s.mem.value.maintenanceOwner == operator)
    ensures var lift := Call(SetMaintenance(operator, Some(false)), 0, Saves(true, true));
            !(QuietStep(s, lift) && QuietStep(Step(s, lift), Begin(false, None, 0, true)))
  {
  }

  lemma LifterIsValid(s: System, owner: string)
    requires Sound(s)
    ensures var who := Reawaken(s.disk, owner)[3].c.operator;
            ValidField(who) && (s.disk.maintenanceOwner.Some? ==> s.disk.maintenanceOwner == who)
  {
  }

  lemma {:induction false} LockedIsQuiet(s: System, events: seq<Event>)
    requires Locked(s) && forall k :: 0 <= k < |events| ==> !ConfirmsReset(events[k])
    ensures Quiet(s, events)
    decreases |events|
  {
    if events != [] {
      assert !ConfirmsReset(events[0]);
      StepKeepsLocked(s, events[0]);
      LockedIsQuiet(Step(s, events[0]), events[1..]);
    }
  }

  /** After a restart nothing is granted or started before a confirmed reset, whatever is
      called, if and only if the saved image asks for one. */
  lemma RestartWaitsIff(s: System)
    requires Sound(s) && s.mem.None?
    ensures var up := Step(s, Open(true));
            NeedsReset(s.disk) <==>
            forall events :: (forall k :: 0 <= k < |events| ==> !ConfirmsReset(events[k])) ==> Quiet(up, events)
  {
    var up := Step(s, Open(true));
    if NeedsReset(s.disk) {
      forall events | forall k :: 0 <= k < |events| ==> !ConfirmsReset(events[k])
        ensures Quiet(up, events)
      {
        LockedIsQuiet(up, events);
      }
    } else {
      var owner := s.disk.maintenanceOwner;
      var operator := if owner.Some? then owner else Some("op");
      FreedDesktopActs(up, operator);
      var lift := Call(SetMaintenance(operator, Some(false)), 0, Saves(true, true));
      var start := Begin(false, None, 0, true);
      TwoQuiet(up, lift, start);
      assert !Quiet(up, [lift, start]);
      assert forall k :: 0 <= k < 2 ==> !ConfirmsReset([lift, start][k]);
    }
  }

  lemma TwoQuiet(s: System, a: Event, b: Event)
    ensures Quiet(s, [a, b]) ==> QuietStep(s, a) && QuietStep(Step(s, a), b)
  {
    assert [a, b][1..] == [b] && [b][1..] == [];
    assert Quiet(s, [a, b]) ==> QuietStep(s, a) && Quiet(Step(s, a), [b]);
    assert Quiet(Step(s, a), [b]) ==> QuietStep(Step(s, a), b);
  }

  lemma UnsavedPauseFails(s: System, owner: string)
    requires Sound(s) && s.mem.Some? && s.disk.maintenanceOwner != Some(owner)
    ensures !Quiet(s, Reawaken(s.disk, owner))
  {
    if Quiet(s, Reawaken(s.disk, owner)) {
      var es := Reawaken(s.disk, owner);
      QuietParts(s, es[0], es[1], es[2], es[3], es[4]);
      ResetFreesDesktop(s);
      LifterIsValid(s, owner);
      hide CommandSpec, Quiet, Sound, Reopened, Holder, ValidField, BeginSpec;
      var s2 := Step(Step(s, Crash), Open(true));
      FreedDesktopActs(Step(s2, es[2]), es[3].c.operator);
      assert false;
    }
  }

  /** Exactly when a reported safe point outlives a restart: nothing is granted and
      no action starts before its owner ends maintenance if and only if the pause
      had reached the disk. */
  lemma SafePointHoldsIff(s: System, owner: string)
    requires Sound(s) && s.mem.Some? && SafePoint(s.mem.value) && s.mem.value.maintenanceOwner == Some(owner)
    ensures (forall events :: (forall k :: 0 <= k < |events| ==> !EndsMaintenance(events[k], owner)) ==>
               Quiet(s, events))
            <==> s.disk.maintenanceOwner == Some(owner)
  {
    if s.disk.maintenanceOwner == Some(owner) {
      if s.cleaning.Some? {
        HolderIs(s.mem.value, s.cleaning.value);
        assert false;
      }
      forall events | forall k :: 0 <= k < |events| ==> !EndsMaintenance(events[k], owner)
        ensures Quiet(s, events)
      {
        PauseHolds(s, events, owner);
      }
    } else {
      UnsavedPauseFails(s, owner);
      var events := Reawaken(s.disk, owner);
      assert forall k :: 0 <= k < |events| ==> !EndsMaintenance(events[k], owner);
    }
  }

  /** A `desktop.maintenance` call that succeeds has saved the pause. */
  lemma AnsweredPauseIsSaved(s: Store, operator: Option<string>, now: nat, io: Saves)
    requires MaintenanceSpec(s, operator, Some(true), now, io).1.Ok?
    ensures MaintenanceSpec(s, operator, Some(true), now, io).0.disk.maintenanceOwner == operator
    ensures MaintenanceSpec(s, operator, Some(true), now, io).0.mem.maintenanceOwner == operator
  {
  }

  /** When the save after a cleanup fails, memory shows session `i` ended, but a crash
      brings it back as the blocked holder. */
  ghost predicate FinishIsLost(s: System, i: nat, now: nat, second: bool) {
    var ended := Step(s, CleanupDone(true, now, Saves(false, second)));
    var back := Step(Step(ended, Crash), Open(true));
    && ended.mem.Some? && i < |ended.mem.value.jobs| && Finished(ended.mem.value.jobs[i].state)
    && back.mem.Some? && i < |back.mem.value.jobs| && i < |s.disk.jobs|
    && back.mem.value.jobs[i] == s.disk.jobs[i] && back.mem.value.blocked && Holder(back.mem.value) == Some(i)
  }

  lemma UnsavedFinishIsLost(s: System, now: nat, second: bool)
    requires Sound(s) && s.cleaning.Some? && s.cleaning.value < |s.disk.jobs|
    requires Held(s.disk.jobs[s.cleaning.value].state)
    ensures FinishIsLost(s, s.cleaning.value, now, second)
  {
    var i := s.cleaning.value;
    HolderIs(s.mem.value, i);
    HolderIs(s.disk, i);
    HolderIs(Reopened(s.disk), i);
  }

  // ------------------------------------------------------- runs in which it happens

  lemma RunOne(s: System, e: Event, rest: seq<Event>)
    ensures Run(s, [e] + rest) == Run(Step(s, e), rest)
  {
    assert ([e] + rest)[1..] == rest;
  }

  function UnsavedPause(): Event {
    Call(SetMaintenance(Some("op"), Some(true)), 0, Saves(false, true))
  }

  lemma UnsavedPauseStep()
    ensures Step(Step(INITIAL, Open(true)), UnsavedPause())
            == INITIAL.(mem := Some(EMPTY.(maintenanceOwner := Some("op"))))
  {
    assert Holder(EMPTY).None?;
  }

  /** A pause whose save fails is reported as a safe point all the same, and does not last. */
  lemma UnsavedSafePointIsReached()
    ensures var s := Run(INITIAL, [Open(true), UnsavedPause()]);
            && s.mem.Some? && SafePoint(s.mem.value) && s.mem.value.maintenanceOwner == Some("op")
            && s.disk.maintenanceOwner.None? && !Quiet(s, Reawaken(s.disk, "op"))
  {
    UnsavedPauseStep();
    assert [Open(true)] + [UnsavedPause()] == [Open(true), UnsavedPause()];
    RunOne(INITIAL, Open(true), [UnsavedPause()]);
    assert [UnsavedPause()] + [] == [UnsavedPause()];
    RunOne(Step(INITIAL, Open(true)), UnsavedPause(), []);
    var s := Step(Step(INITIAL, Open(true)), UnsavedPause());
    assert SafePoint(s.mem.value);
    EveryRunIsSound([Open(true), UnsavedPause()]);
    hide Step, Sound, UnsavedPause, SafePoint, Quiet;
    UnsavedPauseFails(s, "op");
  }

  /** One session, submitted and granted, finished by its owner, its cleanup under way. */
  function FinishedSession(): seq<Event> {
    [Open(true), Call(Submit(Some("me"), Some("k"), None, "id", "secret"), 0, Saves(true, true)),
     Call(Session(Finish, Some("secret"), Some("me")), 1, Saves(true, true)), NeedsCleanup(2)]
  }

  lemma CleanupIsReached()
    ensures var s := Run(INITIAL, FinishedSession());
            && s.cleaning == Some(0) && |s.disk.jobs| == 1 && Held(s.disk.jobs[0].state)
  {
    var es := FinishedSession();
    var s1 := Step(INITIAL, es[0]);
    assert s1.mem == Some(EMPTY);
    var job := Job("id", "me", "k", "secret", Active, 1, 900000, 0, 900000);
    var s2 := Step(s1, es[1]);
    SubmitGrants(s1, es[1]);
    assert s2.mem.value.jobs == [job];
    var s3 := Step(s2, es[2]);
    assert s3.mem.value.jobs == [job.(state := Draining)] && s3.disk == s3.mem.value;
    var s4 := Step(s3, es[3]);
    assert Holder(s3.mem.value) == Some(0);
    FourSteps(INITIAL, es[0], es[1], es[2], es[3]);
  }

  lemma SubmitGrants(s: System, e: Event)
    requires s.mem == Some(EMPTY) && s.disk == EMPTY
    requires e == Call(Submit(Some("me"), Some("k"), None, "id", "secret"), 0, Saves(true, true))
    ensures var job := Job("id", "me", "k", "secret", Active, 1, 900000, 0, 900000);
            Step(s, e) == s.(mem := Some(Image(1, [job], false, false, None)),
                             disk := Image(1, [job], false, false, None))
  {
    var queued := Job("id", "me", "k", "secret", Queued, 0, 900000, 0, 0);
    var m := EMPTY.(jobs := [queued]);
    assert EMPTY.jobs + [queued] == [queued];
    assert Holder(m).None? && FirstQueued(m) == Some(0);
    assert Granted(m, 0).jobs == [Job("id", "me", "k", "secret", Active, 1, 900000, 0, 900000)];
  }

  lemma FourSteps(s: System, a: Event, b: Event, c: Event, d: Event)
    ensures Run(s, [a, b, c, d]) == Step(Step(Step(Step(s, a), b), c), d)
  {
    assert [a] + [b, c, d] == [a, b, c, d] && [b] + [c, d] == [b, c, d] && [c] + [d] == [c, d] && [d] + [] == [d];
    RunOne(s, a, [b, c, d]);
    RunOne(Step(s, a), b, [c, d]);
    RunOne(Step(Step(s, a), b), c, [d]);
    RunOne(Step(Step(Step(s, a), b), c), d, []);
  }

  /** From the start: the end of that session, unsaved, is undone by a crash. */
  lemma UnsavedFinishHappens()
    ensures FinishIsLost(Run(INITIAL, FinishedSession()), 0, 3, false)
  {
    hide Run, Sound, FinishIsLost;
    CleanupIsReached();
    EveryRunIsSound(FinishedSession());
    UnsavedFinishIsLost(Run(INITIAL, FinishedSession()), 3, false);
  }

  function SubmitCall(io: Saves): Event {
    Call(Submit(Some("me"), Some("k"), None, "id", "secret"), 0, io)
  }

  lemma FailedSubmitStep()
    ensures var queued := Job("id", "me", "k", "secret", Queued, 0, 900000, 0, 0);
            Step(Step(INITIAL, Open(true)), SubmitCall(Saves(false, true)))
            == INITIAL.(mem := Some(EMPTY.(jobs := [queued])))
  {
    var queued := Job("id", "me", "k", "secret", Queued, 0, 900000, 0, 0);
    assert EMPTY.jobs + [queued] == [queued];
    assert Holder(EMPTY).None?;
  }

  /** A submit whose save fails is answered with an error; the same submit is then answered
      Ok from memory, and a crash forgets it. */
  lemma UnsavedRequestIsAnswered()
    ensures var s := Run(INITIAL, [Open(true), SubmitCall(Saves(false, true))]);
            && s.mem.Some? && !OnDisk(s, "me", "k")
            && CommandSpec(Store(s.mem.value, s.disk), SubmitCall(Saves(true, true)).c, 1, Saves(true, true)).1.Ok?
            && Position(Step(Step(s, Crash), Open(true)).mem.value.jobs, AskedBy("me", "k")).None?
  {
    var failed := SubmitCall(Saves(false, true));
    var s1 := Step(INITIAL, Open(true));
    FailedSubmitStep();
    assert [Open(true)] + [failed] == [Open(true), failed];
    RunOne(INITIAL, Open(true), [failed]);
    assert [failed] + [] == [failed];
    RunOne(s1, failed, []);
  }
}
