/** The task table: lifecycle with an event log, submission made idempotent by an
    index, restart recovery, and retention. */
module Tasks {
  import opened Common
  import opened Ordering

  datatype TaskState = Queued | Running | CancelRequested | Cancelling
                     | Succeeded | Failed | Cancelled | FailedToCancel | TimedOut | OutcomeUnknown

  predicate Terminal(s: TaskState) {
    s.Succeeded? || s.Failed? || s.Cancelled? || s.FailedToCancel? || s.TimedOut? || s.OutcomeUnknown?
  }

  predicate Retryable(s: TaskState) {
    s.Failed? || s.TimedOut? || s.OutcomeUnknown? || s.FailedToCancel?
  }

  predicate Allowed(from: TaskState, to: TaskState) {
    || (from.Queued? && (to.Running? || to.Cancelled?))
    || (from.Running?
        && (to.CancelRequested? || to.Succeeded? || to.Failed? || to.Cancelled? || to.TimedOut? || to.OutcomeUnknown?))
    || (from.CancelRequested? && to.Cancelling?)
    || (from.Cancelling? && (to.Cancelled? || to.FailedToCancel?))
  }

  /** `task.<state>` or `task.retried`. */
  datatype EventKind = Entered(state: TaskState) | Retried

  datatype TaskEvent = TaskEvent(sequence: nat, timestamp: nat, kind: EventKind)

  datatype Task = Task(id: Bytes, session: string, executor: string, capability: string, key: string,
                       input: string, output: Option<string>, error: Option<string>, state: TaskState, attempt: nat,
                       createdAt: nat, updatedAt: nat, events: seq<TaskEvent>)

  datatype Table = Table(tasks: map<Bytes, Task>, index: map<string, Bytes>)

  const EMPTY := Table(map[], map[])

  datatype TaskError = NotFound | InvalidTransition(from: TaskState, to: TaskState)

  const NUL: char := '\0'
  const RESTARTED := "CONTROLLER_RESTARTED"

  function ScopedKey(session: string, executor: string, capability: string, key: string): string {
    session + [NUL] + executor + [NUL] + capability + [NUL] + key
  }

  function KeyOf(t: Task): string {
    ScopedKey(t.session, t.executor, t.capability, t.key)
  }

  function Pushed(t: Task, kind: EventKind, now: nat): Task {
    t.(events := t.events + [TaskEvent(|t.events| + 1, now, kind)])
  }

  function NewTask(id: Bytes, session: string, executor: string, capability: string, key: string, input: string,
                   now: nat): Task {
    Pushed(Task(id, session, executor, capability, key, input, None, None, Queued, 0, now, now, []), Entered(Queued),
           now)
  }

  /** `submit_traced`: the task and whether it was already there. */
  function Submitted(t: Table, id: Bytes, session: string, executor: string, capability: string, key: string,
                     input: string, now: nat)
    : (Table, Option<Task>, bool)
  {
    var scoped := ScopedKey(session, executor, capability, key);
    if scoped in t.index then
      (t, if t.index[scoped] in t.tasks then Some(t.tasks[t.index[scoped]]) else None, true)
    else
      var task := NewTask(id, session, executor, capability, key, input, now);
      (Table(t.tasks[id := task], t.index[scoped := id]), Some(task), false)
  }

  function TransitionedTask(task: Task, to: TaskState, output: Option<string>, error: Option<string>, now: nat): Task {
    Pushed(task.(attempt := task.attempt + if to.Running? then 1 else 0, state := to, output := output, error := error,
                 updatedAt := now), Entered(to), now)
  }

  function Transitioned(t: Table, id: Bytes, to: TaskState, output: Option<string>, error: Option<string>, now: nat)
    : (Table, Result<Task, TaskError>)
  {
    if id !in t.tasks then (t, Err(NotFound))
    else if !Allowed(t.tasks[id].state, to) then (t, Err(InvalidTransition(t.tasks[id].state, to)))
    else
      var task := TransitionedTask(t.tasks[id], to, output, error, now);
      (t.(tasks := t.tasks[id := task]), Ok(task))
  }

  function RetriedTask(t: Table, id: Bytes, now: nat): (Table, Result<Task, TaskError>) {
    if id !in t.tasks then (t, Err(NotFound))
    else if !Retryable(t.tasks[id].state) then (t, Err(InvalidTransition(t.tasks[id].state, Queued)))
    else
      var task := Pushed(t.tasks[id].(state := Queued, output := None, error := None, updatedAt := now), Retried, now);
      (t.(tasks := t.tasks[id := task]), Ok(task))
  }

  function RecoveredTask(task: Task, now: nat): Task {
    if task.state.Queued? || task.state.Running? then
      Pushed(task.(state := OutcomeUnknown, error := Some(RESTARTED), updatedAt := now), Entered(OutcomeUnknown), now)
    else task
  }

  function Recovered(t: Table, now: nat): Table {
    t.(tasks := map id | id in t.tasks :: RecoveredTask(t.tasks[id], now))
  }

  // ------------------------------------------------------------------- retention

  /** `order` lists every task id once; the map iterates in some such order. */
  ghost predicate Lists(order: seq<Bytes>, t: Table) {
    && (forall i :: 0 <= i < |order| ==> order[i] in t.tasks)
    && (forall id :: id in t.tasks ==> id in order)
    && (forall i, j :: 0 <= i < j < |order| ==> order[i] != order[j])
  }

  predicate IsExpired(task: Task, cutoff: nat) {
    Terminal(task.state) && task.updatedAt < cutoff
  }

  function Expired(t: Table, cutoff: nat): set<Bytes> {
    set id | id in t.tasks && IsExpired(t.tasks[id], cutoff)
  }

  /** Tasks go with their index entries. */
  function Without(t: Table, ids: set<Bytes>): Table {
    Table(t.tasks - ids, t.index - (set id | id in ids && id in t.tasks :: KeyOf(t.tasks[id])))
  }

  function Select(t: Table, order: seq<Bytes>, p: Task -> bool): seq<Task>
    requires forall i :: 0 <= i < |order| ==> order[i] in t.tasks
  {
    if order == [] then []
    else
      var n := |order| - 1;
      Select(t, order[..n], p) + if p(t.tasks[order[n]]) then [t.tasks[order[n]]] else []
  }

  function Kept(cutoff: nat): Task -> bool {
    (task: Task) => !IsExpired(task, cutoff)
  }

  function Evictable(cutoff: nat): Task -> bool {
    (task: Task) => Terminal(task.state) && !IsExpired(task, cutoff)
  }

  function Older(): (Task, Task) -> bool {
    (a: Task, b: Task) => a.updatedAt < b.updatedAt || (a.updatedAt == b.updatedAt && LexLeq(a.id, b.id))
  }

  function TotalSize(tasks: seq<Task>, size: Task -> nat): nat {
    if tasks == [] then 0 else TotalSize(tasks[..|tasks| - 1], size) + size(tasks[|tasks| - 1])
  }

  /** How many of the candidates the eviction loop takes. */
  function Evicted(candidates: seq<Task>, count: nat, bytes: nat, maxCount: nat, maxBytes: nat, size: Task -> nat)
    : (k: nat)
    ensures k <= |candidates|
  {
    if candidates == [] || (count <= maxCount && bytes <= maxBytes) then 0
    else 1 + Evicted(candidates[1..], SaturatingSub(count, 1), SaturatingSub(bytes, size(candidates[0])), maxCount,
                     maxBytes, size)
  }

  function IdsOf(tasks: seq<Task>): set<Bytes> {
    set i | 0 <= i < |tasks| :: tasks[i].id
  }

  lemma IdsGrow(tasks: seq<Task>, i: nat)
    requires i < |tasks|
    ensures IdsOf(tasks[..i + 1]) == IdsOf(tasks[..i]) + {tasks[i].id}
  {
    assert tasks[..i + 1] == tasks[..i] + [tasks[i]];
    forall id | id in IdsOf(tasks[..i]) + {tasks[i].id}
      ensures id in IdsOf(tasks[..i + 1])
    {
      if id != tasks[i].id {
        var k :| 0 <= k < i && tasks[..i][k].id == id;
        assert tasks[..i + 1][k].id == id;
      } else {
        assert tasks[..i + 1][i].id == id;
      }
    }
  }

  function Candidates(t: Table, order: seq<Bytes>, cutoff: nat): seq<Task>
    requires forall i :: 0 <= i < |order| ==> order[i] in t.tasks
  {
    Sort(Select(t, order, Evictable(cutoff)), Older())
  }

  function RetainedCount(t: Table, cutoff: nat): nat {
    SaturatingSub(|t.tasks|, |Expired(t, cutoff)|)
  }

  function RetainedBytes(t: Table, order: seq<Bytes>, cutoff: nat, size: Task -> nat): nat
    requires forall i :: 0 <= i < |order| ==> order[i] in t.tasks
  {
    TotalSize(Select(t, order, Kept(cutoff)), size)
  }

  function EvictedCount(t: Table, order: seq<Bytes>, cutoff: nat, maxCount: nat, maxBytes: nat, size: Task -> nat)
    : (k: nat)
    requires forall i :: 0 <= i < |order| ==> order[i] in t.tasks
    ensures k <= |Candidates(t, order, cutoff)|
  {
    Evicted(Candidates(t, order, cutoff), RetainedCount(t, cutoff), RetainedBytes(t, order, cutoff, size), maxCount,
            maxBytes, size)
  }

  /** The ids `prune_retention` removes. */
  function Pruned(t: Table, order: seq<Bytes>, now: nat, retention: nat, maxCount: nat, maxBytes: nat,
                  size: Task -> nat): set<Bytes>
    requires forall i :: 0 <= i < |order| ==> order[i] in t.tasks
  {
    var cutoff := SaturatingSub(now, retention);
    Expired(t, cutoff) + IdsOf(Candidates(t, order, cutoff)[..EvictedCount(t, order, cutoff, maxCount, maxBytes, size)])
  }

  // ------------------------------------------------------------------ persistence

  /** What `persistence_snapshot` keeps of a task: everything but redacted payloads. */
  function Redacted(task: Task, redact: string -> string): Task {
    task.(input := redact(task.input),
          output := if task.output.Some? then Some(redact(task.output.value)) else None,
          error := if task.error.Some? then Some(redact(task.error.value)) else None)
  }

  function Snapshot(t: Table, order: seq<Bytes>, redact: string -> string): (r: seq<Task>)
    requires forall i :: 0 <= i < |order| ==> order[i] in t.tasks
    ensures |r| == |order|
  {
    seq(|order|, i requires 0 <= i < |order| => Redacted(t.tasks[order[i]], redact))
  }

  /** `from_tasks`. */
  function Restored(tasks: seq<Task>): Table {
    if tasks == [] then EMPTY
    else
      var t := Restored(tasks[..|tasks| - 1]);
      var task := tasks[|tasks| - 1];
      Table(t.tasks[task.id := task], t.index[KeyOf(task) := task.id])
  }

  class TaskTable {
    var tasks: map<Bytes, Task>
    var index: map<string, Bytes>

    ghost function View(): Table
      reads this
    {
      Table(tasks, index)
    }

    constructor (saved: seq<Task>)
      ensures View() == Restored(saved)
    {
      tasks, index := map[], map[];
      new;
      for i := 0 to |saved|
        invariant View() == Restored(saved[..i])
      {
        index := index[KeyOf(saved[i]) := saved[i].id];
        tasks := tasks[saved[i].id := saved[i]];
        assert saved[..i + 1][..i] == saved[..i];
      }
      assert saved[..|saved|] == saved;
    }

    method Submit(id: Bytes, session: string, executor: string, capability: string, key: string, input: string,
                  now: nat)
      returns (task: Option<Task>, reused: bool)
      modifies this
      ensures (View(), task, reused) == Submitted(old(View()), id, session, executor, capability, key, input, now)
    {
      var scoped := ScopedKey(session, executor, capability, key);
      if scoped in index {
        var found := index[scoped];
        return if found in tasks then Some(tasks[found]) else None, true;
      }
      var fresh' := NewTask(id, session, executor, capability, key, input, now);
      index := index[scoped := id];
      tasks := tasks[id := fresh'];
      task, reused := Some(fresh'), false;
    }

    method Transition(id: Bytes, to: TaskState, output: Option<string>, error: Option<string>, now: nat)
      returns (r: Result<Task, TaskError>)
      modifies this`tasks
      ensures (View(), r) == Transitioned(old(View()), id, to, output, error, now)
    {
      if id !in tasks {
        return Err(NotFound);
      }
      if !Allowed(tasks[id].state, to) {
        return Err(InvalidTransition(tasks[id].state, to));
      }
      tasks := tasks[id := TransitionedTask(tasks[id], to, output, error, now)];
      r := Ok(tasks[id]);
    }

    method Retry(id: Bytes, now: nat) returns (r: Result<Task, TaskError>)
      modifies this`tasks
      ensures (View(), r) == RetriedTask(old(View()), id, now)
    {
      if id !in tasks {
        return Err(NotFound);
      }
      if !Retryable(tasks[id].state) {
        return Err(InvalidTransition(tasks[id].state, Queued));
      }
      tasks := tasks[id :=
                     Pushed(tasks[id].(state := Queued, output := None, error := None, updatedAt := now), Retried,
                            now)];
      r := Ok(tasks[id]);
    }

    method RecoverOrphans(order: seq<Bytes>, now: nat)
      requires Lists(order, View())
      modifies this`tasks
      ensures View() == Recovered(old(View()), now)
    {
      ghost var before := tasks;
      for i := 0 to |order|
        invariant tasks.Keys == before.Keys
        invariant forall k :: 0 <= k < i ==> tasks[order[k]] == RecoveredTask(before[order[k]], now)
        invariant forall k :: i <= k < |order| ==> tasks[order[k]] == before[order[k]]
      {
        tasks := tasks[order[i] := RecoveredTask(tasks[order[i]], now)];
      }
      forall id | id in before
        ensures tasks[id] == RecoveredTask(before[id], now)
      {
        var k :| 0 <= k < |order| && order[k] == id;
      }
    }

    method PruneTerminalBefore(cutoff: nat) returns (removed: set<Bytes>)
      modifies this
      ensures removed == Expired(old(View()), cutoff) && View() == Without(old(View()), removed)
    {
      removed := set id | id in tasks && IsExpired(tasks[id], cutoff);
      Remove(removed);
    }

    method Remove(ids: set<Bytes>)
      modifies this
      ensures View() == Without(old(View()), ids)
    {
      index := index - (set id | id in ids && id in tasks :: KeyOf(tasks[id]));
      tasks := tasks - ids;
    }

    /** One pass over the map for the byte total and the eviction candidates, a sort,
        then the eviction loop over running counters. */
    method PruneRetention(order: seq<Bytes>, now: nat, retention: nat, maxCount: nat, maxBytes: nat, size: Task -> nat)
      returns (removed: set<Bytes>)
      requires Lists(order, View())
      modifies this
      ensures removed == Pruned(old(View()), order, now, retention, maxCount, maxBytes, size)
      ensures View() == Without(old(View()), removed)
    {
      var cutoff := SaturatingSub(now, retention);
      removed := set id | id in tasks && IsExpired(tasks[id], cutoff);
      var retainedCount: nat := SaturatingSub(|tasks|, |removed|);
      var retainedBytes: nat, terminal := Survey(order, cutoff, size);
      var evicted := Evict(Sort(terminal, Older()), retainedCount, retainedBytes, maxCount, maxBytes, size);
      removed := removed + evicted;
      Remove(removed);
    }

    /** Oldest first, until both limits are met. */
    method Evict(candidates: seq<Task>, count: nat, bytes: nat, maxCount: nat, maxBytes: nat, size: Task -> nat)
      returns (ids: set<Bytes>)
      ensures ids == IdsOf(candidates[..Evicted(candidates, count, bytes, maxCount, maxBytes, size)])
    {
      ids := {};
      ghost var k := Evicted(candidates, count, bytes, maxCount, maxBytes, size);
      var retainedCount: nat, retainedBytes: nat := count, bytes;
      var i := 0;
      assert candidates[0..] == candidates;
      while i < |candidates| && !(retainedCount <= maxCount && retainedBytes <= maxBytes)
        invariant 0 <= i <= |candidates|
        invariant i + Evicted(candidates[i..], retainedCount, retainedBytes, maxCount, maxBytes, size) == k
        invariant ids == IdsOf(candidates[..i])
      {
        ids := ids + {candidates[i].id};
        retainedCount := SaturatingSub(retainedCount, 1);
        retainedBytes := SaturatingSub(retainedBytes, size(candidates[i]));
        assert candidates[i..][1..] == candidates[i + 1..];
        IdsGrow(candidates, i);
        i := i + 1;
      }
    }

    method Survey(order: seq<Bytes>, cutoff: nat, size: Task -> nat) returns (bytes: nat, terminal: seq<Task>)
      requires Lists(order, View())
      ensures bytes == RetainedBytes(View(), order, cutoff, size)
      ensures terminal == Select(View(), order, Evictable(cutoff))
    {
      bytes, terminal := 0, [];
      for i := 0 to |order|
        invariant bytes == TotalSize(Select(View(), order[..i], Kept(cutoff)), size)
        invariant terminal == Select(View(), order[..i], Evictable(cutoff))
      {
        var task := tasks[order[i]];
        ghost var kept := Select(View(), order[..i], Kept(cutoff));
        assert (kept + [task])[..|kept|] == kept;
        assert kept + [] == kept;
        if !IsExpired(task, cutoff) {
          bytes := bytes + size(task);
          if Terminal(task.state) {
            terminal := terminal + [task];
          }
        }
        assert order[..i + 1][..i] == order[..i];
      }
      assert order[..|order|] == order;
    }
  }
}
