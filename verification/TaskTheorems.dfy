/** The event log, the idempotency index and retention, over every run of the table. */
module TaskTheorems {
  import opened Common
  import opened Ordering
  import opened Tasks

  // --------------------------------------------------------------------- event log

  function StateAfter(kind: EventKind): TaskState {
    if kind.Retried? then Queued else kind.state
  }

  /** The lifecycle graph with retry and restart recovery. */
  predicate Edge(from: TaskState, kind: EventKind) {
    match kind
    case Retried => Retryable(from)
    case Entered(to) => Allowed(from, to) || (to.OutcomeUnknown? && (from.Queued? || from.Running?))
  }

  /** The retained states are exactly those no transition leaves. */
  lemma TerminalIffNoExit(from: TaskState)
    ensures Terminal(from) <==> forall to :: !Allowed(from, to)
  {
    assert Allowed(Queued, Running) && Allowed(Running, Succeeded) && Allowed(CancelRequested, Cancelling)
           && Allowed(Cancelling, Cancelled);
  }

  function CountRunning(events: seq<TaskEvent>): nat {
    if events == [] then 0
    else
      var n := |events| - 1;
      CountRunning(events[..n]) + if events[n].kind == Entered(Running) then 1 else 0
  }

  ghost predicate Numbered(events: seq<TaskEvent>) {
    forall i :: 0 <= i < |events| ==> events[i].sequence == i + 1
  }

  ghost predicate IsPath(events: seq<TaskEvent>) {
    && events != [] && events[0].kind == Entered(Queued)
    && forall i :: 0 < i < |events| ==> Edge(StateAfter(events[i - 1].kind), events[i].kind)
  }

  /** The log numbers its events 1..n, walks the lifecycle, and determines the task's
      state and number of attempts. */
  ghost predicate LogTells(t: Task) {
    && Numbered(t.events) && IsPath(t.events)
    && t.state == StateAfter(t.events[|t.events| - 1].kind)
    && t.attempt == CountRunning(t.events)
  }

  lemma PushKeepsLog(t: Task, changed: Task, kind: EventKind, now: nat)
    requires LogTells(t) && Edge(t.state, kind) && changed.events == t.events
    requires changed.state == StateAfter(kind)
    requires changed.attempt == t.attempt + if kind == Entered(Running) then 1 else 0
    ensures LogTells(Pushed(changed, kind, now))
  {
    var events := Pushed(changed, kind, now).events;
    assert events[..|t.events|] == t.events;
  }

  lemma NewTaskLog(id: Bytes, session: string, executor: string, capability: string, key: string, input: string,
                   now: nat)
    ensures LogTells(NewTask(id, session, executor, capability, key, input, now))
  {
    var events := NewTask(id, session, executor, capability, key, input, now).events;
    assert events == [TaskEvent(1, now, Entered(Queued))];
    assert events[..0] == [];
  }

  // ------------------------------------------------------------------ scoped keys

  predicate NulFree(s: string) {
    NUL !in s
  }

  lemma SplitAtNul(a: string, x: string, b: string, y: string)
    requires NulFree(a) && NulFree(b) && a + [NUL] + x == b + [NUL] + y
    ensures a == b && x == y
  {
    var l := a + [NUL] + x;
    var r := b + [NUL] + y;
    assert forall i :: 0 <= i < |a| ==> l[i] == a[i] && a[i] in a;
    assert forall i :: 0 <= i < |b| ==> r[i] == b[i] && b[i] in b;
    assert l[|a|] == NUL && r[|b|] == NUL;
    assert l[..|a|] == a && r[..|b|] == b;
    assert l[|a| + 1..] == x && r[|b| + 1..] == y;
  }

  /** Joining with NUL loses nothing while the first three parts contain none. */
  lemma KeyInjective(s: string, e: string, c: string, k: string, s': string, e': string, c': string, k': string)
    requires NulFree(s) && NulFree(e) && NulFree(c) && NulFree(s') && NulFree(e') && NulFree(c')
    ensures ScopedKey(s, e, c, k) == ScopedKey(s', e', c', k') <==> s == s' && e == e' && c == c' && k == k'
  {
    if ScopedKey(s, e, c, k) == ScopedKey(s', e', c', k') {
      var r1, r1' := e + [NUL] + c + [NUL] + k, e' + [NUL] + c' + [NUL] + k';
      assert ScopedKey(s, e, c, k) == s + [NUL] + r1 && ScopedKey(s', e', c', k') == s' + [NUL] + r1';
      SplitAtNul(s, r1, s', r1');
      var r2, r2' := c + [NUL] + k, c' + [NUL] + k';
      assert r1 == e + [NUL] + r2 && r1' == e' + [NUL] + r2';
      SplitAtNul(e, r2, e', r2');
      SplitAtNul(c, k, c', k');
    }
  }

  /** With a NUL inside a part two different requests do share a key. */
  lemma NulCollides()
    ensures ScopedKey("a" + [NUL] + "b", "c", "d", "k") == ScopedKey("a", "b" + [NUL] + "c", "d", "k")
  {
    assert ScopedKey("a" + [NUL] + "b", "c", "d", "k") == ['a', NUL, 'b', NUL, 'c', NUL, 'd', NUL, 'k'];
    assert ScopedKey("a", "b" + [NUL] + "c", "d", "k") == ['a', NUL, 'b', NUL, 'c', NUL, 'd', NUL, 'k'];
  }

  // ------------------------------------------------------------------------- runs

  datatype Op =
    | Submit(id: Bytes, session: string, executor: string, capability: string, key: string, input: string, now: nat)
    | Transition(task: Bytes, to: TaskState, output: Option<string>, error: Option<string>, now: nat)
    | Retry(task: Bytes, now: nat)
    | Recover(now: nat)
    | PruneBefore(cutoff: nat)
    | PruneRetention(order: seq<Bytes>, now: nat, retention: nat, maxCount: nat, maxBytes: nat, size: Task -> nat)
    | Restart(order: seq<Bytes>, redact: string -> string)

  /** Fresh ids are fresh: a submission under an id in use does not happen. */
  ghost function Step(t: Table, op: Op): Table {
    match op
    case Submit(id, session, executor, capability, key, input, now) =>
      if id in t.tasks then t else Submitted(t, id, session, executor, capability, key, input, now).0
    case Transition(task, to, output, error, now) => Transitioned(t, task, to, output, error, now).0
    case Retry(task, now) => RetriedTask(t, task, now).0
    case Recover(now) => Recovered(t, now)
    case PruneBefore(cutoff) => Without(t, Expired(t, cutoff))
    case PruneRetention(order, now, retention, maxCount, maxBytes, size) =>
      if Lists(order, t) then Without(t, Pruned(t, order, now, retention, maxCount, maxBytes, size)) else t
    case Restart(order, redact) => if Lists(order, t) then Restored(Snapshot(t, order, redact)) else t
  }

  ghost function Run(t: Table, ops: seq<Op>): Table
    decreases |ops|
  {
    if ops == [] then t else Run(Step(t, ops[0]), ops[1..])
  }

  ghost predicate IdsMatch(t: Table) {
    forall id :: id in t.tasks ==> t.tasks[id].id == id
  }

  /** The index holds exactly the live tasks' keys, each pointing at its task. */
  ghost predicate IndexAgrees(t: Table) {
    && (forall id :: id in t.tasks ==> KeyOf(t.tasks[id]) in t.index && t.index[KeyOf(t.tasks[id])] == id)
    && (forall key :: key in t.index ==> t.index[key] in t.tasks && KeyOf(t.tasks[t.index[key]]) == key)
  }

  ghost predicate LogsTell(t: Table) {
    forall id :: id in t.tasks ==> LogTells(t.tasks[id])
  }

  ghost predicate Sound(t: Table) {
    IdsMatch(t) && IndexAgrees(t) && LogsTell(t)
  }

  /** An edit of tasks that keeps id and key keeps index and ids. */
  lemma EditKeepsIndex(t: Table, tasks: map<Bytes, Task>)
    requires IdsMatch(t) && IndexAgrees(t) && tasks.Keys == t.tasks.Keys
    requires forall id :: id in tasks ==> tasks[id].id == t.tasks[id].id && KeyOf(tasks[id]) == KeyOf(t.tasks[id])
    ensures IdsMatch(t.(tasks := tasks)) && IndexAgrees(t.(tasks := tasks))
  {
    forall key | key in t.index
      ensures t.index[key] in tasks && KeyOf(tasks[t.index[key]]) == key
    {
      assert t.index[key] in t.tasks.Keys;
    }
  }

  lemma RemovalKeepsSound(t: Table, ids: set<Bytes>)
    requires Sound(t)
    ensures Sound(Without(t, ids))
  {
    hide ScopedKey;
    var t' := Without(t, ids);
    forall key | key in t'.index
      ensures t'.index[key] in t'.tasks
    {
      var id := t.index[key];
      assert KeyOf(t.tasks[id]) == key;
    }
  }

  lemma SubmitKeepsSound(t: Table, id: Bytes, session: string, executor: string, capability: string, key: string,
                         input: string, now: nat)
    requires Sound(t) && id !in t.tasks
    ensures Sound(Submitted(t, id, session, executor, capability, key, input, now).0)
  {
    hide ScopedKey, LogTells;
    NewTaskLog(id, session, executor, capability, key, input, now);
  }

  lemma TransitionKeepsLog(task: Task, to: TaskState, output: Option<string>, error: Option<string>, now: nat)
    requires LogTells(task) && Allowed(task.state, to)
    ensures LogTells(TransitionedTask(task, to, output, error, now))
  {
    PushKeepsLog(task, task.(attempt := task.attempt + if to.Running? then 1 else 0, state := to, output := output,
                             error := error, updatedAt := now), Entered(to), now);
  }

  lemma TransitionKeepsSound(t: Table, id: Bytes, to: TaskState, output: Option<string>, error: Option<string>,
                             now: nat)
    requires Sound(t)
    ensures Sound(Transitioned(t, id, to, output, error, now).0)
  {
    hide ScopedKey, LogTells, Allowed;
    if id in t.tasks && Allowed(t.tasks[id].state, to) {
      TransitionKeepsLog(t.tasks[id], to, output, error, now);
      EditKeepsIndex(t, t.tasks[id := TransitionedTask(t.tasks[id], to, output, error, now)]);
    }
  }

  lemma RetryKeepsSound(t: Table, id: Bytes, now: nat)
    requires Sound(t)
    ensures Sound(RetriedTask(t, id, now).0)
  {
    hide ScopedKey, LogTells;
    if id in t.tasks && Retryable(t.tasks[id].state) {
      var task := t.tasks[id].(state := Queued, output := None, error := None, updatedAt := now);
      PushKeepsLog(t.tasks[id], task, Retried, now);
      EditKeepsIndex(t, t.tasks[id := Pushed(task, Retried, now)]);
    }
  }

  lemma RecoverKeepsSound(t: Table, now: nat)
    requires Sound(t)
    ensures Sound(Recovered(t, now))
  {
    hide ScopedKey, LogTells;
    EditKeepsIndex(t, Recovered(t, now).tasks);
    forall id | id in t.tasks
      ensures LogTells(RecoveredTask(t.tasks[id], now))
    {
      var task := t.tasks[id];
      if task.state.Queued? || task.state.Running? {
        PushKeepsLog(task, task.(state := OutcomeUnknown, error := Some(RESTARTED), updatedAt := now),
                     Entered(OutcomeUnknown), now);
      }
    }
  }

  lemma TasksStep(t: Table, before: map<Bytes, Task>, order: seq<Bytes>, n: nat, redact: string -> string)
    requires 0 < n <= |order| && order[n - 1] in t.tasks
    requires forall id :: id in before <==> id in order[..n - 1]
    requires forall id :: id in before ==> id in t.tasks && before[id] == Redacted(t.tasks[id], redact)
    ensures var after := before[order[n - 1] := Redacted(t.tasks[order[n - 1]], redact)];
            && (forall id :: id in after <==> id in order[..n])
            && (forall id :: id in after ==> id in t.tasks && after[id] == Redacted(t.tasks[id], redact))
  {
    hide Redacted;
    assert order[..n] == order[..n - 1] + [order[n - 1]];
  }

  lemma IndexStep(index: map<string, Bytes>, before: map<string, Bytes>, order: seq<Bytes>, n: nat, key: string)
    requires 0 < n <= |order| && key in index && index[key] == order[n - 1]
    requires forall k :: k in index && index[k] == order[n - 1] ==> k == key
    requires forall k :: k in before <==> k in index && index[k] in order[..n - 1]
    requires forall k :: k in before ==> before[k] == index[k]
    ensures var after := before[key := order[n - 1]];
            && (forall k :: k in after <==> k in index && index[k] in order[..n])
            && (forall k :: k in after ==> after[k] == index[k])
  {
    assert order[..n] == order[..n - 1] + [order[n - 1]];
  }

  /** Restoring a prefix of the snapshot gives the redacted tasks of that prefix ... */
  lemma {:induction false} RestoredTasks(t: Table, order: seq<Bytes>, redact: string -> string, n: nat)
    requires IdsMatch(t) && IndexAgrees(t) && Lists(order, t) && n <= |order|
    ensures var r := Restored(Snapshot(t, order, redact)[..n]);
            && (forall id :: id in r.tasks <==> id in order[..n])
            && (forall id :: id in r.tasks ==> id in t.tasks && r.tasks[id] == Redacted(t.tasks[id], redact))
  {
    if n > 0 {
      var saved := Snapshot(t, order, redact);
      SnapshotAt(t, order, redact, n - 1);
      RestoredTasks(t, order, redact, n - 1);
      RestoredStep(saved, n);
      hide *;
      TasksStep(t, Restored(saved[..n - 1]).tasks, order, n, redact);
    }
  }

  /** ... and exactly their keys. */
  lemma {:induction false} RestoredIndex(t: Table, order: seq<Bytes>, redact: string -> string, n: nat)
    requires IdsMatch(t) && IndexAgrees(t) && Lists(order, t) && n <= |order|
    ensures var r := Restored(Snapshot(t, order, redact)[..n]);
            && (forall key :: key in r.index <==> key in t.index && t.index[key] in order[..n])
            && (forall key :: key in r.index ==> r.index[key] == t.index[key])
  {
    if n > 0 {
      var saved := Snapshot(t, order, redact);
      SnapshotAt(t, order, redact, n - 1);
      RestoredIndex(t, order, redact, n - 1);
      RestoredStep(saved, n);
      hide *;
      IndexStep(t.index, Restored(saved[..n - 1]).index, order, n, KeyOf(saved[n - 1]));
    }
  }

  lemma RestoredStep(saved: seq<Task>, n: nat)
    requires 0 < n <= |saved|
    ensures var t := Restored(saved[..n - 1]);
            Restored(saved[..n])
                == Table(t.tasks[saved[n - 1].id := saved[n - 1]], t.index[KeyOf(saved[n - 1]) := saved[n - 1].id])
  {
    assert saved[..n][..n - 1] == saved[..n - 1];
  }

  lemma SnapshotAt(t: Table, order: seq<Bytes>, redact: string -> string, i: nat)
    requires IdsMatch(t) && IndexAgrees(t) && Lists(order, t) && i < |order|
    ensures order[i] in t.tasks && Snapshot(t, order, redact)[i] == Redacted(t.tasks[order[i]], redact)
    ensures Snapshot(t, order, redact)[i].id == order[i]
    ensures KeyOf(Snapshot(t, order, redact)[i]) in t.index && t.index[KeyOf(Snapshot(t, order, redact)[i])] == order[i]
    ensures forall key :: key in t.index && t.index[key] == order[i] ==> key == KeyOf(Snapshot(t, order, redact)[i])
  {
    hide ScopedKey;
  }

  lemma ListsAll(order: seq<Bytes>, t: Table)
    requires Lists(order, t)
    ensures forall id :: id in t.tasks <==> id in order
  {
  }

  lemma IndexValues(t: Table)
    requires IndexAgrees(t)
    ensures forall key :: key in t.index ==> t.index[key] in t.tasks
  {
    hide KeyOf;
  }

  /** A restart rebuilds the same index over the redacted tasks. */
  lemma RestartIsRedaction(t: Table, order: seq<Bytes>, redact: string -> string)
    requires IdsMatch(t) && IndexAgrees(t) && Lists(order, t)
    ensures var r := Restored(Snapshot(t, order, redact));
            r.index == t.index && r.tasks == map id | id in t.tasks :: Redacted(t.tasks[id], redact)
  {
    RestoredTasks(t, order, redact, |order|);
    RestoredIndex(t, order, redact, |order|);
    assert Snapshot(t, order, redact)[..|order|] == Snapshot(t, order, redact);
    assert order[..|order|] == order;
    var r := Restored(Snapshot(t, order, redact));
    hide *;
    ListsAll(order, t);
    IndexValues(t);
    SameIndex(t, r, order);
    SameTasks(t, r, redact);
  }

  lemma SameIndex(t: Table, r: Table, order: seq<Bytes>)
    requires forall id :: id in t.tasks <==> id in order
    requires forall key :: key in t.index ==> t.index[key] in t.tasks
    requires forall key :: key in r.index <==> key in t.index && t.index[key] in order
    requires forall key :: key in r.index ==> r.index[key] == t.index[key]
    ensures r.index == t.index
  {
    assert r.index.Keys == t.index.Keys;
  }

  lemma SameTasks(t: Table, r: Table, redact: string -> string)
    requires forall id :: id in r.tasks <==> id in t.tasks
    requires forall id :: id in r.tasks ==> id in t.tasks && r.tasks[id] == Redacted(t.tasks[id], redact)
    ensures r.tasks == map id | id in t.tasks :: Redacted(t.tasks[id], redact)
  {
    hide Redacted;
    assert r.tasks.Keys == t.tasks.Keys;
  }

  lemma RestartKeepsSound(t: Table, order: seq<Bytes>, redact: string -> string)
    requires Sound(t) && Lists(order, t)
    ensures Sound(Restored(Snapshot(t, order, redact)))
  {
    hide ScopedKey, Restored, Snapshot;
    RestartIsRedaction(t, order, redact);
    var tasks := map id | id in t.tasks :: Redacted(t.tasks[id], redact);
    EditKeepsIndex(t, tasks);
    forall id | id in tasks
      ensures LogTells(tasks[id])
    {
      assert LogTells(t.tasks[id]);
    }
  }

  lemma StepKeepsSound(t: Table, op: Op)
    requires Sound(t)
    ensures Sound(Step(t, op))
  {
    hide Sound, Submitted, Transitioned, RetriedTask, Recovered, Without, Pruned, Restored;
    match op
    case Submit(id, session, executor, capability, key, input, now) =>
      if id !in t.tasks {
        SubmitKeepsSound(t, id, session, executor, capability, key, input, now);
      }
    case Transition(task, to, output, error, now) => TransitionKeepsSound(t, task, to, output, error, now);
    case Retry(task, now) => RetryKeepsSound(t, task, now);
    case Recover(now) => RecoverKeepsSound(t, now);
    case PruneBefore(cutoff) => RemovalKeepsSound(t, Expired(t, cutoff));
    case PruneRetention(order, now, retention, maxCount, maxBytes, size) =>
      if Lists(order, t) {
        RemovalKeepsSound(t, Pruned(t, order, now, retention, maxCount, maxBytes, size));
      }
    case Restart(order, redact) =>
      if Lists(order, t) {
        RestartKeepsSound(t, order, redact);
      }
  }

  lemma {:induction false} RunKeepsSound(t: Table, ops: seq<Op>)
    requires Sound(t)
    ensures Sound(Run(t, ops))
    decreases |ops|
  {
    hide Sound, Step;
    if ops != [] {
      StepKeepsSound(t, ops[0]);
      RunKeepsSound(Step(t, ops[0]), ops[1..]);
    }
  }

  /** In every reachable table each task's log tells its state and attempts, and the
      index is exactly the live tasks. */
  lemma EveryRunIsSound(ops: seq<Op>)
    ensures Sound(Run(EMPTY, ops))
  {
    RunKeepsSound(EMPTY, ops);
  }

  // ----------------------------------------------------------------- idempotency

  predicate Asked(task: Task, session: string, executor: string, capability: string, key: string) {
    task.session == session && task.executor == executor && task.capability == capability && task.key == key
  }

  /** What a scan of the live tasks would find. */
  ghost predicate ScanFinds(t: Table, session: string, executor: string, capability: string, key: string, id: Bytes) {
    id in t.tasks && Asked(t.tasks[id], session, executor, capability, key)
  }

  /** No live task shares the joined key without sharing the four parts. */
  ghost predicate NoCollision(t: Table, session: string, executor: string, capability: string, key: string) {
    forall id :: id in t.tasks && KeyOf(t.tasks[id]) == ScopedKey(session, executor, capability, key)
                 ==> Asked(t.tasks[id], session, executor, capability, key)
  }

  /** A submission is answered from the table exactly as a scan of the live tasks would
      have it, if and only if no live task collides with the request's joined key. */
  lemma IndexMatchesScanIff(t: Table, session: string, executor: string, capability: string, key: string)
    requires Sound(t)
    ensures (forall id :: ScopedKey(session, executor, capability, key) in t.index
                          && t.index[ScopedKey(session, executor, capability, key)] == id
                          <==> ScanFinds(t, session, executor, capability, key, id))
            <==> NoCollision(t, session, executor, capability, key)
  {
    hide ScopedKey, LogTells;
    var joined := ScopedKey(session, executor, capability, key);
    forall id | ScanFinds(t, session, executor, capability, key, id)
      ensures joined in t.index && t.index[joined] == id
    {
      assert KeyOf(t.tasks[id]) == joined;
    }
    if !NoCollision(t, session, executor, capability, key) {
      var id :| id in t.tasks && KeyOf(t.tasks[id]) == joined
          && !Asked(t.tasks[id], session, executor, capability, key);
      assert joined in t.index && t.index[joined] == id;
      assert !ScanFinds(t, session, executor, capability, key, id);
    }
  }

  ghost predicate ScopeNulFree(task: Task) {
    NulFree(task.session) && NulFree(task.executor) && NulFree(task.capability)
  }

  ghost predicate ScopesNulFree(t: Table) {
    forall id :: id in t.tasks ==> ScopeNulFree(t.tasks[id])
  }

  /** NUL-free scopes never collide, whatever the idempotency keys are. */
  lemma NulFreeNeverCollides(t: Table, session: string, executor: string, capability: string, key: string)
    requires NulFree(session) && NulFree(executor) && NulFree(capability) && ScopesNulFree(t)
    ensures NoCollision(t, session, executor, capability, key)
  {
    hide ScopedKey;
    forall id | id in t.tasks && KeyOf(t.tasks[id]) == ScopedKey(session, executor, capability, key)
      ensures Asked(t.tasks[id], session, executor, capability, key)
    {
      var task := t.tasks[id];
      KeyInjective(task.session, task.executor, task.capability, task.key, session, executor, capability, key);
    }
  }

  predicate SubmitsNulFree(op: Op) {
    op.Submit? ==> NulFree(op.session) && NulFree(op.executor) && NulFree(op.capability)
  }

  lemma StepKeepsScopes(t: Table, op: Op)
    requires Sound(t) && ScopesNulFree(t) && SubmitsNulFree(op)
    ensures ScopesNulFree(Step(t, op))
  {
    hide ScopeNulFree, ScopedKey, LogTells;
    match op
    case Submit(id, session, executor, capability, key, input, now) =>
      ScopeOfNewTask(id, session, executor, capability, key, input, now);
    case Restart(order, redact) =>
      if Lists(order, t) {
        RestartIsRedaction(t, order, redact);
        forall id | id in t.tasks
          ensures ScopeNulFree(Redacted(t.tasks[id], redact))
        {
          SameScope(t.tasks[id], Redacted(t.tasks[id], redact));
        }
      }
    case Transition(task, to, output, error, now) =>
      if task in t.tasks {
        SameScope(t.tasks[task], TransitionedTask(t.tasks[task], to, output, error, now));
      }
    case Retry(task, now) =>
      if RetriedTask(t, task, now).1.Ok? {
        SameScope(t.tasks[task], RetriedTask(t, task, now).1.value);
      }
    case Recover(now) =>
      forall id | id in t.tasks
        ensures ScopeNulFree(RecoveredTask(t.tasks[id], now))
      {
        SameScope(t.tasks[id], RecoveredTask(t.tasks[id], now));
      }
    case _ =>
  }

  lemma SameScope(a: Task, b: Task)
    requires ScopeNulFree(a) && b.session == a.session && b.executor == a.executor && b.capability == a.capability
    ensures ScopeNulFree(b)
  {
  }

  lemma ScopeOfNewTask(id: Bytes, session: string, executor: string, capability: string, key: string, input: string,
                       now: nat)
    requires NulFree(session) && NulFree(executor) && NulFree(capability)
    ensures ScopeNulFree(NewTask(id, session, executor, capability, key, input, now))
  {
  }

  lemma {:induction false} RunKeepsScopes(t: Table, ops: seq<Op>)
    requires Sound(t) && ScopesNulFree(t) && forall k :: 0 <= k < |ops| ==> SubmitsNulFree(ops[k])
    ensures Sound(Run(t, ops)) && ScopesNulFree(Run(t, ops))
    decreases |ops|
  {
    hide Sound, ScopesNulFree, Step;
    if ops != [] {
      StepKeepsSound(t, ops[0]);
      StepKeepsScopes(t, ops[0]);
      RunKeepsScopes(Step(t, ops[0]), ops[1..]);
    }
  }

  /** While no scope part contains a NUL, the index answers in every reachable table,
      after any mix of submissions, prunes and restarts, as a scan of the live tasks. */
  lemma IndexAlwaysMatchesScan(ops: seq<Op>, session: string, executor: string, capability: string, key: string,
                               id: Bytes)
    requires forall k :: 0 <= k < |ops| ==> SubmitsNulFree(ops[k])
    requires NulFree(session) && NulFree(executor) && NulFree(capability)
    ensures var t := Run(EMPTY, ops); var joined := ScopedKey(session, executor, capability, key);
            (joined in t.index && t.index[joined] == id) <==> ScanFinds(t, session, executor, capability, key, id)
  {
    RunKeepsScopes(EMPTY, ops);
    hide Run, ScanFinds, NoCollision, Sound, ScopesNulFree, ScopedKey;
    NulFreeNeverCollides(Run(EMPTY, ops), session, executor, capability, key);
    IndexMatchesScanIff(Run(EMPTY, ops), session, executor, capability, key);
  }

  /** One submission whose session contains a NUL is enough for another request, which was
      never made, to be answered with its task. */
  lemma NulCollisionHappens(id: Bytes, input: string, now: nat)
    ensures var t := Run(EMPTY, [Submit(id, "a" + [NUL] + "b", "c", "d", "k", input, now)]);
            && id in t.tasks && !NoCollision(t, "a", "b" + [NUL] + "c", "d", "k")
            && Submitted(t, id, "a", "b" + [NUL] + "c", "d", "k", input, now).1 == Some(t.tasks[id])
            && t.tasks[id].session != "a"
  {
    var op := Submit(id, "a" + [NUL] + "b", "c", "d", "k", input, now);
    assert [op][1..] == [];
    var t := Step(EMPTY, op);
    assert Run(EMPTY, [op]) == Run(t, []);
    NulCollides();
    assert |"a" + [NUL] + "b"| == 3 && |"a"| == 1;
    assert t.tasks[id].session == "a" + [NUL] + "b";
    hide ScopedKey;
    assert KeyOf(t.tasks[id]) == ScopedKey("a", "b" + [NUL] + "c", "d", "k");
  }
}
