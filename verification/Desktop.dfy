/** The Executor's durable desktop queue: its state, and what each call does to
    memory and to the saved image.

    A call takes the clock reading `now` and the outcome of each save it may
    make; a save that fails leaves the previous image on disk. */
module Desktop {
  import opened Common

  datatype JobState = Queued | Active | Draining | Completed | Expired | Cancelled | Interrupted

  predicate Held(state: JobState) {
    state.Active? || state.Draining?
  }

  predicate Finished(state: JobState) {
    state.Completed? || state.Expired? || state.Cancelled? || state.Interrupted?
  }

  datatype Job = Job(id: string, owner: string, requestKey: string, token: string,
                     state: JobState, epoch: nat, ttl: nat, submittedAt: nat, expiresAt: nat)

  /** Everything that is serialized; an absent file reads as `EMPTY`. */
  datatype Image = Image(epoch: nat, jobs: seq<Job>, inFlight: bool, blocked: bool,
                         maintenanceOwner: Option<string>)

  const EMPTY := Image(0, [], false, false, None)

  const CAPACITY: nat := 10000

  datatype ErrorCode =
    | InvalidParams | MaintenanceOwned | QueueFull | SessionInvalid | SessionInactive
    | RecoveryRequired | Busy | DrainingSession | Maintenance | SessionRequired
    | StateFailed | UnknownAction

  datatype Verb = Get | Renew | Finish | Cancel

  datatype Command =
    | SetMaintenance(operator: Option<string>, enabled: Option<bool>)
    | Submit(owner: Option<string>, key: Option<string>, ttlMs: Option<nat>, id: string, secret: string)
    | List
    | Session(verb: Verb, token: Option<string>, claimant: Option<string>)
    | Recover(confirmed: bool)
    | Other

  datatype Reply =
    | JobReply(job: Job)
    | ListReply(image: Image, safePoint: bool)
    | Recovered

  /** Outcomes of the at most two saves of one call, in order. */
  datatype Saves = Saves(first: bool, second: bool)

  datatype Store = Store(mem: Image, disk: Image)

  /** A parameter that must be a string of 1..256 bytes. */
  predicate ValidField(value: Option<string>) {
    value.Some? && 1 <= |value.value| <= 256
  }

  /** `iter().position(..)`. */
  function Position(jobs: seq<Job>, p: Job -> bool): (r: Option<nat>)
    ensures r.Some? ==> r.value < |jobs| && p(jobs[r.value])
    ensures r.Some? ==> forall i :: 0 <= i < r.value ==> !p(jobs[i])
    ensures r.None? ==> forall i :: 0 <= i < |jobs| ==> !p(jobs[i])
  {
    PositionFrom(jobs, p, 0)
  }

  function PositionFrom(jobs: seq<Job>, p: Job -> bool, from: nat): (r: Option<nat>)
    requires from <= |jobs|
    ensures r.Some? ==> from <= r.value < |jobs| && p(jobs[r.value])
    ensures r.Some? ==> forall i :: from <= i < r.value ==> !p(jobs[i])
    ensures r.None? ==> forall i :: from <= i < |jobs| ==> !p(jobs[i])
    decreases |jobs| - from
  {
    if from == |jobs| then None
    else if p(jobs[from]) then Some(from)
    else PositionFrom(jobs, p, from + 1)
  }

  /** The active or draining job. */
  function Holder(m: Image): (r: Option<nat>)
    ensures r.Some? ==> r.value < |m.jobs| && Held(m.jobs[r.value].state)
    ensures r.None? ==> forall i :: 0 <= i < |m.jobs| ==> !Held(m.jobs[i].state)
  {
    Position(m.jobs, (j: Job) => Held(j.state))
  }

  function FirstQueued(m: Image): (r: Option<nat>)
    ensures r.Some? ==> r.value < |m.jobs| && m.jobs[r.value].state.Queued?
    ensures r.Some? ==> forall i :: 0 <= i < r.value ==> !m.jobs[i].state.Queued?
    ensures r.None? ==> forall i :: 0 <= i < |m.jobs| ==> !m.jobs[i].state.Queued?
  {
    Position(m.jobs, (j: Job) => j.state.Queued?)
  }

  function WithState(m: Image, i: nat, state: JobState): Image
    requires i < |m.jobs|
  {
    m.(jobs := m.jobs[i := m.jobs[i].(state := state)])
  }

  predicate SafePoint(m: Image) {
    m.maintenanceOwner.Some? && !m.blocked && !m.inFlight && Holder(m).None?
  }

  function Saved(s: Store, ok: bool): Store {
    if ok then s.(disk := s.mem) else s
  }

  /** What `open` makes of a saved image: an interrupted action or a surviving
      holder leaves the queue blocked. */
  function Reopened(disk: Image): Image {
    if disk.inFlight || Holder(disk).Some? then disk.(blocked := true, inFlight := false) else disk
  }

  predicate CanPromote(m: Image) {
    m.maintenanceOwner.None? && !m.blocked && !m.inFlight && Holder(m).None? && FirstQueued(m).Some?
  }

  function Granted(m: Image, now: nat): Image
    requires FirstQueued(m).Some?
  {
    var i := FirstQueued(m).value;
    var job := m.jobs[i];
    m.(epoch := m.epoch + 1,
       jobs := m.jobs[i := job.(epoch := m.epoch + 1, state := Active,
                                expiresAt := SaturatingAdd(now, job.ttl))])
  }

  function Promoted(s: Store, now: nat, ok: bool): (r: (Store, Result<(), ErrorCode>))
    ensures |r.0.mem.jobs| == |s.mem.jobs|
  {
    if CanPromote(s.mem) then
      (Saved(s.(mem := Granted(s.mem, now)), ok), if ok then Ok(()) else Err(StateFailed))
    else (s, Ok(()))
  }

  /** `self.save()?; self.promote()`. */
  function SavedThenPromoted(s: Store, now: nat, io: Saves): (r: (Store, Result<(), ErrorCode>))
    ensures |r.0.mem.jobs| == |s.mem.jobs|
  {
    if io.first then Promoted(Saved(s, true), now, io.second) else (s, Err(StateFailed))
  }

  function Listing(m: Image): Reply {
    ListReply(m.(jobs := seq(|m.jobs|, i requires 0 <= i < |m.jobs| => m.jobs[i].(token := ""))), SafePoint(m))
  }

  function MaintenanceSpec(s: Store, operator: Option<string>, enabled: Option<bool>, now: nat, io: Saves)
    : (Store, Result<Reply, ErrorCode>)
  {
    if !ValidField(operator) || enabled.None? then (s, Err(InvalidParams))
    else if s.mem.maintenanceOwner.Some? && s.mem.maintenanceOwner != operator then (s, Err(MaintenanceOwned))
    else
      var m := s.mem.(maintenanceOwner := if enabled.value then operator else None);
      var (s', r) := SavedThenPromoted(s.(mem := m), now, io);
      (s', if r.Ok? then Ok(Listing(s'.mem)) else Err(r.error))
  }

  function SubmitSpec(s: Store, owner: Option<string>, key: Option<string>, ttlMs: Option<nat>,
                      id: string, secret: string, now: nat, io: Saves)
    : (Store, Result<Reply, ErrorCode>)
  {
    if !ValidField(owner) || !ValidField(key) then (s, Err(InvalidParams))
    else
      var found := Position(s.mem.jobs, (j: Job) => j.owner == owner.value && j.requestKey == key.value);
      if found.Some? then (s, Ok(JobReply(s.mem.jobs[found.value])))
      else if |s.mem.jobs| >= CAPACITY then (s, Err(QueueFull))
      else
        var ttl := if ttlMs.Some? then ttlMs.value else 900000;
        if !(1000 <= ttl <= 3600000) then (s, Err(InvalidParams))
        else
          var job := Job(id, owner.value, key.value, secret, Queued, 0, ttl, now, 0);
          var m := s.mem.(jobs := s.mem.jobs + [job]);
          var (s', r) := SavedThenPromoted(s.(mem := m), now, io);
          (s', if r.Ok? then Ok(JobReply(s'.mem.jobs[|s'.mem.jobs| - 1])) else Err(r.error))
  }

  function SessionSpec(s: Store, verb: Verb, token: Option<string>, owner: Option<string>, now: nat, io: Saves)
    : (Store, Result<Reply, ErrorCode>)
  {
    if !ValidField(token) || !ValidField(owner) then (s, Err(InvalidParams))
    else
      var found := Position(s.mem.jobs, (j: Job) => j.token == token.value && j.owner == owner.value);
      if found.None? then (s, Err(SessionInvalid))
      else
        var i := found.value;
        var job := s.mem.jobs[i];
        if verb.Renew? && (!job.state.Active? || job.expiresAt <= now || s.mem.blocked) then (s, Err(SessionInactive))
        else
          var m :=
            if verb.Renew? then s.mem.(jobs := s.mem.jobs[i := job.(expiresAt := SaturatingAdd(now, job.ttl))])
            else if verb.Get? then s.mem
            else if job.state.Queued? then WithState(s.mem, i, Cancelled)
            else if job.state.Active? then WithState(s.mem, i, Draining)
            else s.mem;
          (Saved(s.(mem := m), io.first), if io.first then Ok(JobReply(m.jobs[i])) else Err(StateFailed))
  }

  function RecoverSpec(s: Store, confirmed: bool, now: nat, io: Saves): (Store, Result<Reply, ErrorCode>) {
    if !s.mem.blocked || s.mem.inFlight || !confirmed then (s, Err(RecoveryRequired))
    else
      var h := Holder(s.mem);
      var m := (if h.Some? then WithState(s.mem, h.value, Interrupted) else s.mem).(blocked := false);
      var (s', r) := SavedThenPromoted(s.(mem := m), now, io);
      (s', if r.Ok? then Ok(Recovered) else Err(r.error))
  }

  function CommandSpec(s: Store, c: Command, now: nat, io: Saves): (Store, Result<Reply, ErrorCode>) {
    match c
    case SetMaintenance(operator, enabled) => MaintenanceSpec(s, operator, enabled, now, io)
    case Submit(owner, key, ttlMs, id, secret) => SubmitSpec(s, owner, key, ttlMs, id, secret, now, io)
    case List => (s, Ok(Listing(s.mem)))
    case Session(verb, token, claimant) => SessionSpec(s, verb, token, claimant, now, io)
    case Recover(confirmed) => RecoverSpec(s, confirmed, now, io)
    case Other => (s, Err(UnknownAction))
  }

  /** The `_desktop` parameter of an action, when present. */
  datatype Credentials = Credentials(token: Option<string>, owner: Option<string>)

  /** Why an action may not start now, if it may not. */
  function BeginRefusal(m: Image, computerUseCall: bool, desktop: Option<Credentials>, now: nat): Option<ErrorCode> {
    if m.blocked then Some(RecoveryRequired)
    else if m.inFlight then Some(Busy)
    else
      var h := Holder(m);
      if h.Some? then
        var job := m.jobs[h.value];
        if !job.state.Active? || job.expiresAt <= now then Some(DrainingSession)
        else if desktop != Some(Credentials(Some(job.token), Some(job.owner))) then Some(Busy)
        else None
      else if m.maintenanceOwner.Some? then Some(Maintenance)
      else if computerUseCall || desktop.Some? then Some(SessionRequired)
      else None
  }

  /** The `sessionId` a computer-use call is given: the holder's job and epoch. */
  datatype SessionId = SessionId(job: string, epoch: nat)

  function SessionOf(m: Image, computerUseCall: bool): Option<SessionId> {
    if computerUseCall && Holder(m).Some? then
      var job := m.jobs[Holder(m).value];
      Some(SessionId(job.id, job.epoch))
    else None
  }

  function BeginSpec(s: Store, computerUseCall: bool, desktop: Option<Credentials>, now: nat, ok: bool)
    : (Store, Result<Option<SessionId>, ErrorCode>)
  {
    var refusal := BeginRefusal(s.mem, computerUseCall, desktop, now);
    if refusal.Some? then (s, Err(refusal.value))
    else (Saved(s.(mem := s.mem.(inFlight := true)), ok),
          if ok then Ok(SessionOf(s.mem, computerUseCall)) else Err(StateFailed))
  }

  function EndSpec(s: Store, uncertain: bool, ok: bool): (Store, Result<(), ErrorCode>) {
    var m := s.mem.(inFlight := false, blocked := s.mem.blocked || uncertain);
    (Saved(s.(mem := m), ok), if ok then Ok(()) else Err(StateFailed))
  }

  function NeedsCleanupSpec(m: Image, now: nat): (Image, bool) {
    if m.blocked || m.inFlight || Holder(m).None? then (m, false)
    else
      var i := Holder(m).value;
      if m.jobs[i].expiresAt <= now then (WithState(m, i, Draining), true)
      else (m, m.jobs[i].state.Draining?)
  }

  function CleanupDoneSpec(s: Store, success: bool, now: nat, io: Saves): (Store, Result<(), ErrorCode>) {
    var h := Holder(s.mem);
    var m :=
      if !success then s.mem.(blocked := true)
      else if h.Some? then
        WithState(s.mem, h.value, if s.mem.jobs[h.value].expiresAt <= now then Expired else Completed)
      else s.mem;
    SavedThenPromoted(s.(mem := m), now, io)
  }

  /** The queue object itself: its methods update the fields in place and save
      the whole state, and each is proved to do what its specification says. */
  class DesktopQueue {
    var epoch: nat
    var jobs: seq<Job>
    var inFlight: bool
    var blocked: bool
    var maintenanceOwner: Option<string>
    var disk: Image

    ghost function View(): Store
      reads this
    {
      Store(Image(epoch, jobs, inFlight, blocked, maintenanceOwner), disk)
    }

    /** The saved state as a restart loads it, not saved yet. */
    constructor (saved: Image)
      ensures View() == Store(Reopened(saved), saved)
    {
      epoch, jobs, maintenanceOwner := saved.epoch, saved.jobs, saved.maintenanceOwner;
      inFlight, blocked := saved.inFlight, saved.blocked;
      disk := saved;
      new;
      var h := Position(jobs, (j: Job) => Held(j.state));
      if inFlight || h.Some? {
        blocked := true;
        inFlight := false;
      }
    }

    /** `open`: nothing is returned when the save of the reopened state fails. */
    static method OpenQueue(saved: Image, ok: bool) returns (r: Result<DesktopQueue, ErrorCode>)
      ensures ok ==> r.Ok? && fresh(r.value) && r.value.View() == Store(Reopened(saved), Reopened(saved))
      ensures !ok ==> r == Err(StateFailed)
    {
      var queue := new DesktopQueue(saved);
      var written := queue.Save(ok);
      r := if written.Ok? then Ok(queue) else Err(written.error);
    }

    method Save(ok: bool) returns (r: Result<(), ErrorCode>)
      modifies this`disk
      ensures View() == Saved(old(View()), ok)
      ensures r == if ok then Ok(()) else Err(StateFailed)
    {
      if ok {
        disk := Image(epoch, jobs, inFlight, blocked, maintenanceOwner);
        r := Ok(());
      } else {
        r := Err(StateFailed);
      }
    }

    method Promote(now: nat, ok: bool) returns (r: Result<(), ErrorCode>)
      modifies this
      ensures (View(), r) == Promoted(old(View()), now, ok)
    {
      var h := Position(jobs, (j: Job) => Held(j.state));
      var q := Position(jobs, (j: Job) => j.state.Queued?);
      if maintenanceOwner.None? && !blocked && !inFlight && h.None? && q.Some? {
        epoch := epoch + 1;
        var job := jobs[q.value];
        jobs := jobs[q.value := job.(epoch := epoch, state := Active, expiresAt := SaturatingAdd(now, job.ttl))];
        r := Save(ok);
      } else {
        r := Ok(());
      }
    }

    method NeedsCleanup(now: nat) returns (needed: bool)
      modifies this`jobs
      ensures (View().mem, needed) == NeedsCleanupSpec(old(View().mem), now)
      ensures disk == old(disk)
    {
      if blocked || inFlight {
        return false;
      }
      var h := Position(jobs, (j: Job) => Held(j.state));
      if h.None? {
        return false;
      }
      if jobs[h.value].expiresAt <= now {
        jobs := jobs[h.value := jobs[h.value].(state := Draining)];
      }
      needed := jobs[h.value].state.Draining?;
    }

    method CleanupDone(success: bool, now: nat, io: Saves) returns (r: Result<(), ErrorCode>)
      modifies this
      ensures (View(), r) == CleanupDoneSpec(old(View()), success, now, io)
    {
      if success {
        var h := Position(jobs, (j: Job) => Held(j.state));
        if h.Some? {
          var job := jobs[h.value];
          jobs := jobs[h.value := job.(state := if job.expiresAt <= now then Expired else Completed)];
        }
      } else {
        blocked := true;
      }
      r := Save(io.first);
      if r.Ok? {
        r := Promote(now, io.second);
      }
    }

    method Run(c: Command, now: nat, io: Saves) returns (r: Result<Reply, ErrorCode>)
      modifies this
      ensures (View(), r) == CommandSpec(old(View()), c, now, io)
    {
      match c {
        case SetMaintenance(operator, enabled) => r := SetMaintenanceMode(operator, enabled, now, io);
        case Submit(owner, key, ttlMs, id, secret) => r := SubmitJob(owner, key, ttlMs, id, secret, now, io);
        case List => r := Ok(Listing(Image(epoch, jobs, inFlight, blocked, maintenanceOwner)));
        case Session(verb, token, claimant) => r := UseSession(verb, token, claimant, now, io);
        case Recover(confirmed) => r := RecoverDesktop(confirmed, now, io);
        case Other => r := Err(UnknownAction);
      }
    }

    method SetMaintenanceMode(operator: Option<string>, enabled: Option<bool>, now: nat, io: Saves)
      returns (r: Result<Reply, ErrorCode>)
      modifies this
      ensures (View(), r) == MaintenanceSpec(old(View()), operator, enabled, now, io)
    {
      if !ValidField(operator) || enabled.None? {
        return Err(InvalidParams);
      }
      if maintenanceOwner.Some? && maintenanceOwner != operator {
        return Err(MaintenanceOwned);
      }
      maintenanceOwner := if enabled.value then operator else None;
      var done := Save(io.first);
      if done.Ok? {
        done := Promote(now, io.second);
      }
      r := if done.Ok? then Ok(Listing(Image(epoch, jobs, inFlight, blocked, maintenanceOwner))) else Err(done.error);
    }

    method SubmitJob(owner: Option<string>, key: Option<string>, ttlMs: Option<nat>, id: string, secret: string,
                     now: nat, io: Saves) returns (r: Result<Reply, ErrorCode>)
      modifies this
      ensures (View(), r) == SubmitSpec(old(View()), owner, key, ttlMs, id, secret, now, io)
    {
      if !ValidField(owner) || !ValidField(key) {
        return Err(InvalidParams);
      }
      var found := Position(jobs, (j: Job) => j.owner == owner.value && j.requestKey == key.value);
      if found.Some? {
        return Ok(JobReply(jobs[found.value]));
      }
      if |jobs| >= CAPACITY {
        return Err(QueueFull);
      }
      var ttl := if ttlMs.Some? then ttlMs.value else 900000;
      if !(1000 <= ttl <= 3600000) {
        return Err(InvalidParams);
      }
      jobs := jobs + [Job(id, owner.value, key.value, secret, Queued, 0, ttl, now, 0)];
      var done := Save(io.first);
      if done.Ok? {
        done := Promote(now, io.second);
      }
      r := if done.Ok? then Ok(JobReply(jobs[|jobs| - 1])) else Err(done.error);
    }

    method UseSession(verb: Verb, token: Option<string>, owner: Option<string>, now: nat, io: Saves)
      returns (r: Result<Reply, ErrorCode>)
      modifies this
      ensures (View(), r) == SessionSpec(old(View()), verb, token, owner, now, io)
    {
      if !ValidField(token) || !ValidField(owner) {
        return Err(InvalidParams);
      }
      var found := Position(jobs, (j: Job) => j.token == token.value && j.owner == owner.value);
      if found.None? {
        return Err(SessionInvalid);
      }
      var i := found.value;
      var job := jobs[i];
      match verb {
        case Renew =>
          if !job.state.Active? || job.expiresAt <= now || blocked {
            return Err(SessionInactive);
          }
          jobs := jobs[i := job.(expiresAt := SaturatingAdd(now, job.ttl))];
        case Finish | Cancel =>
          if job.state.Queued? {
            jobs := jobs[i := job.(state := Cancelled)];
          } else if job.state.Active? {
            jobs := jobs[i := job.(state := Draining)];
          }
        case Get =>
      }
      var done := Save(io.first);
      r := if done.Ok? then Ok(JobReply(jobs[i])) else Err(done.error);
    }

    method RecoverDesktop(confirmed: bool, now: nat, io: Saves) returns (r: Result<Reply, ErrorCode>)
      modifies this
      ensures (View(), r) == RecoverSpec(old(View()), confirmed, now, io)
    {
      if !blocked || inFlight || !confirmed {
        return Err(RecoveryRequired);
      }
      var h := Position(jobs, (j: Job) => Held(j.state));
      if h.Some? {
        jobs := jobs[h.value := jobs[h.value].(state := Interrupted)];
      }
      blocked := false;
      var done := Save(io.first);
      if done.Ok? {
        done := Promote(now, io.second);
      }
      r := if done.Ok? then Ok(Recovered) else Err(done.error);
    }

    method Begin(computerUseCall: bool, desktop: Option<Credentials>, now: nat, ok: bool)
      returns (r: Result<Option<SessionId>, ErrorCode>)
      modifies this
      ensures (View(), r) == BeginSpec(old(View()), computerUseCall, desktop, now, ok)
    {
      if blocked {
        return Err(RecoveryRequired);
      }
      if inFlight {
        return Err(Busy);
      }
      var h := Position(jobs, (j: Job) => Held(j.state));
      var session := None;
      if h.Some? {
        var job := jobs[h.value];
        if !job.state.Active? || job.expiresAt <= now {
          return Err(DrainingSession);
        }
        if desktop != Some(Credentials(Some(job.token), Some(job.owner))) {
          return Err(Busy);
        }
        if computerUseCall {
          session := Some(SessionId(job.id, job.epoch));
        }
      } else if maintenanceOwner.Some? {
        return Err(Maintenance);
      } else if computerUseCall || desktop.Some? {
        return Err(SessionRequired);
      }
      inFlight := true;
      var written := Save(ok);
      r := if written.Ok? then Ok(session) else Err(written.error);
    }

    method End(uncertain: bool, ok: bool) returns (r: Result<(), ErrorCode>)
      modifies this
      ensures (View(), r) == EndSpec(old(View()), uncertain, ok)
    {
      inFlight := false;
      blocked := blocked || uncertain;
      r := Save(ok);
    }
  }
}
