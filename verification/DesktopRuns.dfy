/** Every run of the desktop queue: calls in any order, saves that fail, crashes
    at any point, and reopening from the last saved image. */
module DesktopRuns {
  import opened Common
  import opened Desktop

  // ---------------------------------------------------------------- the system

  /** One dispatched action: the session (job index and epoch) it ran under. */
  datatype Dispatch = Dispatch(job: nat, epoch: nat)

  /** `mem` is absent while the process is down. `dispatched` spans a `begin` that
      returned Ok up to its `end`; `cleaning` spans a `needs_cleanup` that returned
      true up to its `cleanup_done`; `log` records every session action ever started. */
  datatype System = System(mem: Option<Image>, disk: Image, dispatched: bool,
                           cleaning: Option<nat>, log: seq<Dispatch>)

  datatype Event =
    | Call(c: Command, now: nat, io: Saves)
    | Begin(computerUseCall: bool, desktop: Option<Credentials>, now: nat, ok: bool)
    | End(uncertain: bool, ok: bool)
    | NeedsCleanup(now: nat)
    | CleanupDone(success: bool, now: nat, io: Saves)
    | Promote(now: nat, ok: bool)
    | Crash
    | Open(ok: bool)

  const INITIAL := System(None, EMPTY, false, None, [])

  function Put(s: System, store: Store): System {
    s.(mem := Some(store.mem), disk := store.disk)
  }

  /** Events that cannot happen now (an `end` with nothing dispatched, a call to a
      process that is down) leave the system as it is. */
  function Step(s: System, e: Event): System {
    if s.mem.None? then
      if e.Open? && e.ok then s.(mem := Some(Reopened(s.disk)), disk := Reopened(s.disk)) else s
    else
      var store := Store(s.mem.value, s.disk);
      match e
      case Call(c, now, io) => Put(s, CommandSpec(store, c, now, io).0)
      case Begin(computerUseCall, desktop, now, ok) =>
        var (store', r) := BeginSpec(store, computerUseCall, desktop, now, ok);
        var h := Holder(store.mem);
        var s' := Put(s, store');
        if r.Err? then s'
        else s'.(dispatched := true,
                 log := if h.Some? then s.log + [Dispatch(h.value, store.mem.jobs[h.value].epoch)] else s.log)
      case End(uncertain, ok) =>
        if s.dispatched then Put(s, EndSpec(store, uncertain, ok).0).(dispatched := false) else s
      case NeedsCleanup(now) =>
        var (m, needed) := NeedsCleanupSpec(store.mem, now);
        s.(mem := Some(m), cleaning := if needed then Holder(store.mem) else s.cleaning)
      case CleanupDone(success, now, io) =>
        if s.cleaning.Some? then Put(s, CleanupDoneSpec(store, success, now, io).0).(cleaning := None) else s
      case Promote(now, ok) => Put(s, Promoted(store, now, ok).0)
      case Crash => s.(mem := None, dispatched := false, cleaning := None)
      case Open(_) => s
  }

  function Run(s: System, events: seq<Event>): System
    decreases |events|
  {
    if events == [] then s else Run(Step(s, events[0]), events[1..])
  }

  // ------------------------------------------------------- what every image keeps

  /** Indices of the jobs satisfying `p`, in queue order. */
  ghost function Select(jobs: seq<Job>, p: Job -> bool): seq<nat> {
    if jobs == [] then []
    else
      var n := |jobs| - 1;
      Select(jobs[..n], p) + if p(jobs[n]) then [n] else []
  }

  /** A selection is exactly the matching indices, in increasing order. */
  lemma {:induction false} SelectIsOrdered(jobs: seq<Job>, p: Job -> bool)
    ensures forall k :: 0 <= k < |Select(jobs, p)| ==> Select(jobs, p)[k] < |jobs| && p(jobs[Select(jobs, p)[k]])
    ensures forall k, l :: 0 <= k < l < |Select(jobs, p)| ==> Select(jobs, p)[k] < Select(jobs, p)[l]
    ensures forall i :: 0 <= i < |jobs| && p(jobs[i]) ==> i in Select(jobs, p)
  {
    if jobs != [] {
      var n := |jobs| - 1;
      SelectIsOrdered(jobs[..n], p);
      assert forall i :: 0 <= i < n ==> jobs[..n][i] == jobs[i];
    }
  }

  ghost function WasGranted(): Job -> bool {
    (j: Job) => j.epoch != 0
  }

  ghost function IsQueued(): Job -> bool {
    (j: Job) => j.state.Queued?
  }

  ghost function GrantOrder(m: Image): seq<nat> {
    Select(m.jobs, WasGranted())
  }

  ghost predicate OneHolder(jobs: seq<Job>) {
    forall i, j :: 0 <= i < j < |jobs| && Held(jobs[i].state) ==> !Held(jobs[j].state)
  }

  /** Exactly the jobs that never held the desktop have no epoch. */
  ghost predicate EpochsMatch(jobs: seq<Job>) {
    forall i :: 0 <= i < |jobs| ==> (jobs[i].epoch == 0 <==> jobs[i].state.Queued? || jobs[i].state.Cancelled?)
  }

  /** Nobody was granted the desktop past a job that is still waiting. */
  ghost predicate NoOvertaking(jobs: seq<Job>) {
    forall i, j :: 0 <= i < j < |jobs| && jobs[i].state.Queued? ==> jobs[j].epoch == 0
  }

  /** The nonzero epochs, read in queue order, are 1, 2, .., epoch. */
  ghost predicate Numbered(jobs: seq<Job>, epoch: nat) {
    var order := Select(jobs, WasGranted());
    && |order| == epoch
    && forall k :: 0 <= k < epoch ==> order[k] < |jobs| && jobs[order[k]].epoch == k + 1
  }

  ghost predicate HolderIsNewest(jobs: seq<Job>, epoch: nat) {
    forall i :: 0 <= i < |jobs| && Held(jobs[i].state) ==> jobs[i].epoch == epoch
  }

  /** A queue in which grants were made first come first served to one holder at a time. */
  ghost predicate Fifo(m: Image) {
    && |m.jobs| <= CAPACITY
    && OneHolder(m.jobs) && EpochsMatch(m.jobs) && NoOvertaking(m.jobs)
    && Numbered(m.jobs, m.epoch) && HolderIsNewest(m.jobs, m.epoch)
  }

  /** The lifecycle of one job. */
  predicate Reaches(a: JobState, b: JobState) {
    match a
    case Queued => true
    case Active => !b.Queued? && !b.Cancelled?
    case Draining => !b.Queued? && !b.Cancelled? && !b.Active?
    case _ => b == a
  }

  predicate JobEvolves(a: Job, b: Job) {
    && b.id == a.id && b.owner == a.owner && b.requestKey == a.requestKey && b.token == a.token
    && b.ttl == a.ttl && b.submittedAt == a.submittedAt
    && Reaches(a.state, b.state)
    && (a.epoch != 0 ==> b.epoch == a.epoch)
    && (Finished(a.state) ==> b == a)
  }

  /** `b` is a later state of the queue `a`: nothing forgotten, nothing regranted. */
  ghost predicate Evolves(a: Image, b: Image) {
    && a.epoch <= b.epoch
    && |a.jobs| <= |b.jobs|
    && forall i :: 0 <= i < |a.jobs| ==> JobEvolves(a.jobs[i], b.jobs[i])
  }

  // --------------------------------------------------------- the abstract mutex

  /** A first-come-first-served mutex over submission numbers. */
  datatype Mutex = Mutex(waiting: seq<nat>, holder: Option<nat>, granted: seq<nat>)

  datatype Move = Stay | Enqueue(n: nat) | Withdraw(n: nat) | Grant | Release

  ghost function Without(s: seq<nat>, x: nat): seq<nat> {
    if s == [] then [] else (if s[0] == x then [] else [s[0]]) + Without(s[1..], x)
  }

  /** The mutex only ever grants to the head of the line, and only when free. */
  ghost predicate MutexStep(a: Mutex, move: Move, b: Mutex) {
    match move
    case Stay => b == a
    case Enqueue(n) => b == a.(waiting := a.waiting + [n])
    case Withdraw(n) => n in a.waiting && b == a.(waiting := Without(a.waiting, n))
    case Grant => a.holder.None? && a.waiting != [] &&
                  b == Mutex(a.waiting[1..], Some(a.waiting[0]), a.granted + [a.waiting[0]])
    case Release => a.holder.Some? && b == a.(holder := None)
  }

  ghost function Abstract(m: Image): Mutex {
    Mutex(Select(m.jobs, IsQueued()), Holder(m), GrantOrder(m))
  }

  // ------------------------------------------------------- one image change at a time

  /** The only ways a call changes `jobs` and `epoch`; the flags are free. */
  datatype Change = Same | Push(job: Job) | Edit(i: nat, job: Job) | Award(now: nat)

  ghost predicate Changes(a: Image, change: Change, b: Image) {
    match change
    case Same => b.jobs == a.jobs && b.epoch == a.epoch
    case Push(job) =>
      && |a.jobs| < CAPACITY && job.state.Queued? && job.epoch == 0
      && b.jobs == a.jobs + [job] && b.epoch == a.epoch
    case Edit(i, job) =>
      && i < |a.jobs| && b.jobs == a.jobs[i := job] && b.epoch == a.epoch
      && JobEvolves(a.jobs[i], job) && job.epoch == a.jobs[i].epoch
      && (a.jobs[i].state.Queued? ==> job.state.Queued? || job.state.Cancelled?)
    case Award(now) => CanPromote(a) && b == Granted(a, now)
  }

  lemma {:induction false} SelectAgrees(a: seq<Job>, b: seq<Job>, p: Job -> bool)
    requires |a| == |b| && forall i :: 0 <= i < |a| ==> p(a[i]) == p(b[i])
    ensures Select(a, p) == Select(b, p)
  {
    if a != [] {
      SelectAgrees(a[..|a| - 1], b[..|b| - 1], p);
    }
  }

  lemma {:induction false} WithoutAppend(s: seq<nat>, t: seq<nat>, x: nat)
    ensures Without(s + t, x) == Without(s, x) + Without(t, x)
  {
    if s == [] {
      assert s + t == t;
    } else {
      assert (s + t)[1..] == s[1..] + t;
      WithoutAppend(s[1..], t, x);
    }
  }

  lemma {:induction false} WithoutAbsent(s: seq<nat>, x: nat)
    requires x !in s
    ensures Without(s, x) == s
  {
    if s != [] {
      WithoutAbsent(s[1..], x);
    }
  }

  lemma SelectDropsLast(a: seq<Job>, b: seq<Job>, p: Job -> bool)
    requires |a| == |b| > 0 && p(a[|a| - 1]) && !p(b[|a| - 1])
    requires forall k :: 0 <= k < |a| - 1 ==> p(a[k]) == p(b[k])
    ensures Select(b, p) == Without(Select(a, p), |a| - 1)
  {
    var n := |a| - 1;
    var before := Select(a[..n], p);
    SelectAgrees(a[..n], b[..n], p);
    SelectIsOrdered(a[..n], p);
    assert n !in before;
    WithoutAbsent(before, n);
    WithoutAppend(before, [n], n);
    assert Without([n], n) == [];
  }

  lemma {:induction false} SelectDrops(a: seq<Job>, b: seq<Job>, p: Job -> bool, i: nat)
    requires |a| == |b| && i < |a| && p(a[i]) && !p(b[i])
    requires forall k :: 0 <= k < |a| && k != i ==> p(a[k]) == p(b[k])
    ensures Select(b, p) == Without(Select(a, p), i)
  {
    var n := |a| - 1;
    if i == n {
      SelectDropsLast(a, b, p);
    } else {
      SelectDrops(a[..n], b[..n], p, i);
      var tail: seq<nat> := if p(a[n]) then [n] else [];
      assert Select(a, p) == Select(a[..n], p) + tail;
      assert Select(b, p) == Select(b[..n], p) + tail;
      WithoutAbsent(tail, i);
      hide *;
      WithoutAppend(Select(a[..n], p), tail, i);
    }
  }

  lemma {:induction false} SelectGains(a: seq<Job>, b: seq<Job>, p: Job -> bool, i: nat)
    requires |a| == |b| && i < |a| && !p(a[i]) && p(b[i])
    requires forall k :: 0 <= k < i ==> p(a[k]) == p(b[k])
    requires forall k :: i < k < |a| ==> !p(a[k]) && !p(b[k])
    ensures Select(b, p) == Select(a, p) + [i]
  {
    var n := |a| - 1;
    if i == n {
      SelectAgrees(a[..n], b[..n], p);
    } else {
      SelectGains(a[..n], b[..n], p, i);
    }
  }

  /** The first job satisfying `p` heads the selection; dropping it leaves the tail. */
  lemma SelectHead(jobs: seq<Job>, p: Job -> bool, i: nat)
    requires i < |jobs| && p(jobs[i]) && forall k :: 0 <= k < i ==> !p(jobs[k])
    ensures Select(jobs, p) != [] && Select(jobs, p)[0] == i
    ensures Without(Select(jobs, p), i) == Select(jobs, p)[1..]
  {
    SelectIsOrdered(jobs, p);
    var s := Select(jobs, p);
    assert i in s && s[0] >= i;
    assert s[0] == i;
    WithoutAbsent(s[1..], i);
  }

  lemma HolderIs(m: Image, i: nat)
    requires OneHolder(m.jobs) && i < |m.jobs| && Held(m.jobs[i].state)
    ensures Holder(m) == Some(i)
  {
  }

  lemma AwardNumbers(a: Image, now: nat)
    requires EpochsMatch(a.jobs) && NoOvertaking(a.jobs) && Numbered(a.jobs, a.epoch) && CanPromote(a)
    ensures Numbered(Granted(a, now).jobs, a.epoch + 1)
    ensures GrantOrder(Granted(a, now)) == GrantOrder(a) + [FirstQueued(a).value]
  {
    var i := FirstQueued(a).value;
    var b := Granted(a, now);
    SelectGains(a.jobs, b.jobs, WasGranted(), i);
    forall k | 0 <= k < a.epoch
      ensures GrantOrder(b)[k] == GrantOrder(a)[k] != i
    {
      assert a.jobs[GrantOrder(a)[k]].epoch == k + 1;
    }
  }

  lemma AwardKeepsFifo(a: Image, now: nat)
    requires Fifo(a) && CanPromote(a)
    ensures Fifo(Granted(a, now)) && Evolves(a, Granted(a, now))
  {
    AwardNumbers(a, now);
  }

  lemma AwardIsGrant(a: Image, now: nat)
    requires Fifo(a) && CanPromote(a)
    ensures MutexStep(Abstract(a), Grant, Abstract(Granted(a, now)))
  {
    var i := FirstQueued(a).value;
    var b := Granted(a, now);
    AwardNumbers(a, now);
    SelectDrops(a.jobs, b.jobs, IsQueued(), i);
    SelectHead(a.jobs, IsQueued(), i);
    AwardKeepsFifo(a, now);
    HolderIs(b, i);
  }

  lemma PushKeepsFifo(a: Image, job: Job, b: Image)
    requires Fifo(a) && Changes(a, Push(job), b)
    ensures Fifo(b) && Evolves(a, b)
  {
    assert b.jobs[..|a.jobs|] == a.jobs;
    assert Select(b.jobs, WasGranted()) == Select(a.jobs, WasGranted());
  }

  lemma PushEnqueues(a: Image, job: Job, b: Image)
    requires Fifo(a) && Changes(a, Push(job), b)
    ensures MutexStep(Abstract(a), Enqueue(|a.jobs|), Abstract(b))
  {
    PushKeepsFifo(a, job, b);
    assert b.jobs[..|a.jobs|] == a.jobs;
    if Holder(a).Some? {
      HolderIs(b, Holder(a).value);
    }
  }

  ghost function EditMove(a: Image, i: nat, job: Job): Move
    requires i < |a.jobs|
  {
    if a.jobs[i].state.Queued? && !job.state.Queued? then Withdraw(i)
    else if Held(a.jobs[i].state) && !Held(job.state) then Release
    else Stay
  }

  lemma EditKeepsOrder(a: Image, i: nat, job: Job, b: Image)
    requires Numbered(a.jobs, a.epoch) && Changes(a, Edit(i, job), b)
    ensures Numbered(b.jobs, b.epoch) && GrantOrder(a) == GrantOrder(b)
  {
    SelectAgrees(a.jobs, b.jobs, WasGranted());
  }

  lemma EditKeepsFifo(a: Image, i: nat, job: Job, b: Image)
    requires Fifo(a) && Changes(a, Edit(i, job), b)
    ensures Fifo(b) && Evolves(a, b) && GrantOrder(a) == GrantOrder(b)
  {
    EditKeepsOrder(a, i, job, b);
    hide Numbered, GrantOrder;
  }

  lemma EditHolder(a: Image, i: nat, job: Job, b: Image)
    requires Fifo(a) && Changes(a, Edit(i, job), b)
    ensures Holder(b) == if EditMove(a, i, job).Release? then None else Holder(a)
    ensures EditMove(a, i, job).Release? ==> Holder(a).Some?
  {
    EditKeepsFifo(a, i, job, b);
    if Held(job.state) {
      HolderIs(b, i);
      HolderIs(a, i);
    } else if Holder(a).Some? && Holder(a).value != i {
      HolderIs(b, Holder(a).value);
    }
  }

  lemma EditIsMove(a: Image, i: nat, job: Job, b: Image)
    requires Fifo(a) && Changes(a, Edit(i, job), b)
    ensures MutexStep(Abstract(a), EditMove(a, i, job), Abstract(b))
  {
    EditKeepsFifo(a, i, job, b);
    EditHolder(a, i, job, b);
    if EditMove(a, i, job).Withdraw? {
      SelectIsOrdered(a.jobs, IsQueued());
      SelectDrops(a.jobs, b.jobs, IsQueued(), i);
    } else {
      SelectAgrees(a.jobs, b.jobs, IsQueued());
    }
  }

  ghost function MoveOf(a: Image, change: Change): Move
    requires change.Edit? ==> change.i < |a.jobs|
  {
    match change
    case Same => Stay
    case Push(_) => Enqueue(|a.jobs|)
    case Edit(i, job) => EditMove(a, i, job)
    case Award(_) => Grant
  }

  lemma ChangeKeepsFifo(a: Image, change: Change, b: Image)
    requires Fifo(a) && Changes(a, change, b)
    ensures Fifo(b) && Evolves(a, b) && MutexStep(Abstract(a), MoveOf(a, change), Abstract(b))
  {
    match change
    case Same =>
    case Push(job) => PushKeepsFifo(a, job, b); PushEnqueues(a, job, b);
    case Edit(i, job) => EditKeepsFifo(a, i, job, b); EditIsMove(a, i, job, b);
    case Award(now) => AwardKeepsFifo(a, now); AwardIsGrant(a, now);
  }

  lemma EvolvesSelf(a: Image)
    ensures Evolves(a, a)
  {
  }

  lemma EvolvesTrans(a: Image, b: Image, c: Image)
    requires Evolves(a, b) && Evolves(b, c)
    ensures Evolves(a, c)
  {
    forall i | 0 <= i < |a.jobs|
      ensures JobEvolves(a.jobs[i], c.jobs[i])
    {
      assert JobEvolves(a.jobs[i], b.jobs[i]) && JobEvolves(b.jobs[i], c.jobs[i]);
    }
  }

  // ------------------------------------------------ every call is at most two changes

  /** What a call did: one change, possibly saved, then possibly a grant, possibly saved. */
  datatype Path = Path(first: Change, mid: Image, second: Change)

  ghost predicate Follows(s: Store, p: Path, s': Store) {
    && Changes(s.mem, p.first, p.mid)
    && Changes(p.mid, p.second, s'.mem)
    && (s'.disk == s.disk || s'.disk == p.mid || s'.disk == s'.mem)
  }

  ghost function AwardOrSame(m: Image, now: nat): Change {
    if CanPromote(m) then Award(now) else Same
  }

  lemma SubmitFollows(s: Store, c: Command, now: nat, io: Saves) returns (p: Path)
    requires c.Submit?
    ensures Follows(s, p, CommandSpec(s, c, now, io).0)
  {
    p := Path(Same, s.mem, Same);
    if CommandSpec(s, c, now, io).0 != s {
      var ttl := if c.ttlMs.Some? then c.ttlMs.value else 900000;
      var job := Job(c.id, c.owner.value, c.key.value, c.secret, Queued, 0, ttl, now, 0);
      var m := s.mem.(jobs := s.mem.jobs + [job]);
      p := Path(Push(job), m, if io.first then AwardOrSame(m, now) else Same);
    }
  }

  lemma SessionFollows(s: Store, c: Command, now: nat, io: Saves) returns (p: Path)
    requires c.Session?
    ensures Follows(s, p, CommandSpec(s, c, now, io).0)
  {
    p := Path(Same, s.mem, Same);
    var s' := CommandSpec(s, c, now, io).0;
    if s' != s {
      var found := Position(s.mem.jobs, (j: Job) => j.token == c.token.value && j.owner == c.claimant.value);
      p := Path(Edit(found.value, s'.mem.jobs[found.value]), s'.mem, Same);
    }
  }

  lemma RecoverFollows(s: Store, c: Command, now: nat, io: Saves) returns (p: Path)
    requires c.Recover?
    ensures Follows(s, p, CommandSpec(s, c, now, io).0)
  {
    p := Path(Same, s.mem, Same);
    if CommandSpec(s, c, now, io).0 != s {
      var h := Holder(s.mem);
      var m := (if h.Some? then WithState(s.mem, h.value, Interrupted) else s.mem).(blocked := false);
      p := Path(if h.Some? then Edit(h.value, m.jobs[h.value]) else Same, m,
                if io.first then AwardOrSame(m, now) else Same);
    }
  }

  lemma MaintenanceFollows(s: Store, c: Command, now: nat, io: Saves) returns (p: Path)
    requires c.SetMaintenance?
    ensures Follows(s, p, CommandSpec(s, c, now, io).0)
  {
    p := Path(Same, s.mem, Same);
    if CommandSpec(s, c, now, io).0 != s {
      var m := s.mem.(maintenanceOwner := if c.enabled.value then c.operator else None);
      p := Path(Same, m, if io.first then AwardOrSame(m, now) else Same);
    }
  }

  lemma CommandFollows(s: Store, c: Command, now: nat, io: Saves) returns (p: Path)
    ensures Follows(s, p, CommandSpec(s, c, now, io).0)
  {
    hide SubmitSpec, SessionSpec, RecoverSpec, MaintenanceSpec;
    match c {
      case SetMaintenance(_, _) => p := MaintenanceFollows(s, c, now, io);
      case Submit(_, _, _, _, _) => p := SubmitFollows(s, c, now, io);
      case Session(_, _, _) => p := SessionFollows(s, c, now, io);
      case Recover(_) => p := RecoverFollows(s, c, now, io);
      case _ => p := Path(Same, s.mem, Same);
    }
  }

  lemma CleanupDoneFollows(s: Store, success: bool, now: nat, io: Saves) returns (p: Path)
    ensures Follows(s, p, CleanupDoneSpec(s, success, now, io).0)
  {
    var h := Holder(s.mem);
    var m :=
      if !success then s.mem.(blocked := true)
      else if h.Some? then
        WithState(s.mem, h.value, if s.mem.jobs[h.value].expiresAt <= now then Expired else Completed)
      else s.mem;
    p := Path(if success && h.Some? then Edit(h.value, m.jobs[h.value]) else Same, m,
              if io.first then AwardOrSame(m, now) else Same);
  }

  lemma StepFollows(s: System, e: Event) returns (p: Path)
    requires s.mem.Some? && !e.Crash?
    ensures Step(s, e).mem.Some?
    ensures Follows(Store(s.mem.value, s.disk), p, Store(Step(s, e).mem.value, Step(s, e).disk))
  {
    var store := Store(s.mem.value, s.disk);
    p := Path(Same, store.mem, Same);
    match e {
      case Call(c, now, io) => p := CommandFollows(store, c, now, io);
      case CleanupDone(success, now, io) =>
        if s.cleaning.Some? {
          p := CleanupDoneFollows(store, success, now, io);
        }
      case NeedsCleanup(now) =>
        if Step(s, e).mem != s.mem {
          var h := Holder(store.mem);
          p := Path(Edit(h.value, Step(s, e).mem.value.jobs[h.value]), Step(s, e).mem.value, Same);
        }
      case Promote(now, ok) => p := Path(Same, store.mem, AwardOrSame(store.mem, now));
      case _ =>
    }
  }

  // ------------------------------------------------------------ what every run keeps

  ghost predicate LogSound(disk: Image, log: seq<Dispatch>) {
    && (forall k :: 0 <= k < |log| ==>
          log[k].epoch != 0 && log[k].job < |disk.jobs| && disk.jobs[log[k].job].epoch == log[k].epoch <= disk.epoch)
    && (forall k, l :: 0 <= k < l < |log| ==> log[k].epoch <= log[l].epoch)
  }

  predicate OwnerValid(m: Image) {
    m.maintenanceOwner.Some? ==> ValidField(m.maintenanceOwner)
  }

  /** The invariant of the whole system. */
  ghost predicate Sound(s: System) {
    && Fifo(s.disk) && OwnerValid(s.disk)
    && (s.mem.Some? ==> OwnerValid(s.mem.value))
    && (s.mem.Some? ==> Fifo(s.mem.value) && Evolves(s.disk, s.mem.value))
    && WindowsSound(s)
    && LogSound(s.disk, s.log)
  }

  /** The cleanup window: job `i` is draining, nothing is in flight, nothing is blocked. */
  predicate Cleaning(m: Image, i: nat) {
    i < |m.jobs| && m.jobs[i].state.Draining? && !m.inFlight && !m.blocked
  }

  lemma PathIsSound(s: Store, p: Path, s': Store)
    requires Fifo(s.mem) && Fifo(s.disk) && Evolves(s.disk, s.mem) && Follows(s, p, s')
    ensures Fifo(s'.mem) && Fifo(s'.disk) && Evolves(s'.disk, s'.mem) && Evolves(s.disk, s'.disk)
    ensures Evolves(s.mem, s'.mem)
  {
    hide Fifo, Evolves, Changes, MutexStep;
    ChangeKeepsFifo(s.mem, p.first, p.mid);
    ChangeKeepsFifo(p.mid, p.second, s'.mem);
    EvolvesTrans(s.mem, p.mid, s'.mem);
    EvolvesTrans(s.disk, s.mem, p.mid);
    EvolvesTrans(s.disk, s.mem, s'.mem);
    EvolvesSelf(s'.disk);
    EvolvesSelf(s.disk);
  }

  lemma LogStaysSound(a: Image, b: Image, log: seq<Dispatch>)
    requires LogSound(a, log) && Evolves(a, b)
    ensures LogSound(b, log)
  {
    forall k | 0 <= k < |log|
      ensures log[k].job < |b.jobs| && b.jobs[log[k].job].epoch == log[k].epoch
    {
      assert JobEvolves(a.jobs[log[k].job], b.jobs[log[k].job]);
    }
  }

  ghost predicate WindowsSound(s: System) {
    && (s.dispatched ==> s.mem.Some? && s.mem.value.inFlight && s.disk.inFlight)
    && (s.cleaning.Some? ==> s.mem.Some? && Cleaning(s.mem.value, s.cleaning.value))
  }

  /** In the cleanup window every call leaves the job draining. */
  lemma CleaningPersists(s: System, e: Event)
    requires WindowsSound(s) && s.cleaning.Some? && OneHolder(s.mem.value.jobs)
    requires !e.CleanupDone? && !e.Crash?
    ensures Step(s, e).cleaning == s.cleaning
    ensures Step(s, e).mem.Some? && Cleaning(Step(s, e).mem.value, s.cleaning.value)
    ensures Step(s, e).dispatched == s.dispatched == false && Step(s, e).log == s.log
  {
    HolderIs(s.mem.value, s.cleaning.value);
  }

  lemma WindowsStaySound(s: System, e: Event)
    requires WindowsSound(s) && (s.mem.Some? ==> OneHolder(s.mem.value.jobs))
    ensures WindowsSound(Step(s, e))
  {
    if s.cleaning.Some? && !e.CleanupDone? && !e.Crash? {
      CleaningPersists(s, e);
    }
  }

  lemma ReopenKeepsFifo(disk: Image)
    requires Fifo(disk)
    ensures Fifo(Reopened(disk)) && Evolves(disk, Reopened(disk)) && Abstract(Reopened(disk)) == Abstract(disk)
  {
    assert Reopened(disk).jobs == disk.jobs;
    ChangeKeepsFifo(disk, Same, Reopened(disk));
  }

  lemma LogAppend(disk: Image, log: seq<Dispatch>, d: Dispatch)
    requires LogSound(disk, log)
    requires d.job < |disk.jobs| && disk.jobs[d.job].epoch == d.epoch == disk.epoch != 0
    ensures LogSound(disk, log + [d])
  {
  }

  lemma LogStep(s: System, e: Event)
    requires LogSound(s.disk, s.log) && Evolves(s.disk, Step(s, e).disk)
    requires s.mem.Some? ==> EpochsMatch(s.mem.value.jobs) && HolderIsNewest(s.mem.value.jobs, s.mem.value.epoch)
    ensures LogSound(Step(s, e).disk, Step(s, e).log)
  {
    var s' := Step(s, e);
    LogStaysSound(s.disk, s'.disk, s.log);
    if s'.log != s.log {
      var h := Holder(s.mem.value).value;
      LogAppend(s'.disk, s.log, Dispatch(h, s.mem.value.jobs[h].epoch));
    }
  }

  lemma CommandOwner(s: Store, c: Command, now: nat, io: Saves)
    ensures var s' := CommandSpec(s, c, now, io).0;
            && (s'.disk.maintenanceOwner == s.disk.maintenanceOwner
                || s'.disk.maintenanceOwner == s'.mem.maintenanceOwner)
            && (s'.mem.maintenanceOwner == s.mem.maintenanceOwner || s'.mem.maintenanceOwner.None?
                || (c.SetMaintenance? && s'.mem.maintenanceOwner == c.operator && ValidField(c.operator)))
  {
  }

  lemma OwnerStep(s: System, e: Event)
    requires s.mem.Some? && !e.Call? && !e.Crash?
    ensures var s' := Step(s, e);
            && s'.mem.Some? && s'.mem.value.maintenanceOwner == s.mem.value.maintenanceOwner
            && (s'.disk.maintenanceOwner == s.disk.maintenanceOwner
                || s'.disk.maintenanceOwner == s.mem.value.maintenanceOwner)
  {
    match e
    case CleanupDone(_, _, _) => hide BeginSpec, NeedsCleanupSpec, EndSpec;
    case Begin(_, _, _, _) => hide CleanupDoneSpec, NeedsCleanupSpec, EndSpec, Promoted;
    case _ => hide BeginSpec, CleanupDoneSpec;
  }

  lemma OwnersStayValid(s: System, e: Event)
    requires OwnerValid(s.disk) && (s.mem.Some? ==> OwnerValid(s.mem.value))
    ensures OwnerValid(Step(s, e).disk) && (Step(s, e).mem.Some? ==> OwnerValid(Step(s, e).mem.value))
  {
    if s.mem.Some? && e.Call? {
      CommandOwner(Store(s.mem.value, s.disk), e.c, e.now, e.io);
    } else if s.mem.Some? && !e.Crash? {
      OwnerStep(s, e);
    }
  }

  /** Every step keeps the invariant, and the saved image only ever moves forward. */
  lemma StepKeepsSound(s: System, e: Event)
    requires Sound(s)
    ensures Sound(Step(s, e)) && Evolves(s.disk, Step(s, e).disk)
  {
    var s' := Step(s, e);
    if s.mem.None? || e.Crash? {
      ReopenKeepsFifo(s.disk);
      ChangeKeepsFifo(s.disk, Same, s.disk);
      ChangeKeepsFifo(s'.disk, Same, s'.disk);
    } else {
      var p := StepFollows(s, e);
      PathIsSound(Store(s.mem.value, s.disk), p, Store(s'.mem.value, s'.disk));
    }
    LogStep(s, e);
    WindowsStaySound(s, e);
    OwnersStayValid(s, e);
  }
}
