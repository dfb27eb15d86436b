/** Exactly when each task call succeeds, what it changes, and what a prune takes. */
module TaskAnswers {
  import opened Common
  import opened Ordering
  import opened Tasks
  import opened TaskTheorems

  // ------------------------------------------------------------------- submitting

  /** A request under a key the index does not know makes a new queued task, the only change
      beside its index entry; a known one changes nothing. */
  lemma SubmitAnswersIff(t: Table, id: Bytes, session: string, executor: string, capability: string, key: string,
                         input: string, now: nat)
    requires Sound(t) && id !in t.tasks
    ensures var (t', task, reused) := Submitted(t, id, session, executor, capability, key, input, now);
            var joined := ScopedKey(session, executor, capability, key);
            && (reused <==> exists x :: x in t.tasks && KeyOf(t.tasks[x]) == joined)
            && (reused ==> t' == t && task.Some? && KeyOf(task.value) == joined && task.value.id in t.tasks
                           && t.tasks[task.value.id] == task.value)
            && (!reused ==>
                  && task.Some? && t' == Table(t.tasks[id := task.value], t.index[joined := id])
                  && task.value.id == id && task.value.state == Queued && task.value.attempt == 0
                  && Asked(task.value, session, executor, capability, key) && task.value.input == input
                  && task.value.output == None && task.value.error == None
                  && task.value.events == [TaskEvent(1, now, Entered(Queued))])
  {
    hide ScopedKey, LogTells;
  }

  /** The task a submit made answers every later submit under the same scope and key, for as
      long as it is in the table. */
  lemma ResubmitFindsTask(t: Table, id: Bytes, newId: Bytes, input: string, now: nat)
    requires Sound(t) && id in t.tasks
    ensures var x := t.tasks[id];
            Submitted(t, newId, x.session, x.executor, x.capability, x.key, input, now) == (t, Some(x), true)
  {
    hide ScopedKey, LogTells;
    var x := t.tasks[id];
    assert KeyOf(x) == ScopedKey(x.session, x.executor, x.capability, x.key);
  }

  // ------------------------------------------------------------------ transitions

  /** The states that may follow. */
  function Successors(from: TaskState): set<TaskState> {
    match from
    case Queued => {Running, Cancelled}
    case Running => {CancelRequested, Succeeded, Failed, Cancelled, TimedOut, OutcomeUnknown}
    case CancelRequested => {Cancelling}
    case Cancelling => {Cancelled, FailedToCancel}
    case _ => {}
  }

  /** A transition succeeds along these edges only; it replaces state and outcome, counts an
      attempt when it starts running, and logs exactly one event. */
  lemma TransitionAnswersIff(t: Table, id: Bytes, to: TaskState, output: Option<string>, error: Option<string>,
                             now: nat)
    ensures var (t', r) := Transitioned(t, id, to, output, error, now);
            && (r.Ok? <==> id in t.tasks && to in Successors(t.tasks[id].state))
            && (r == Err(NotFound) <==> id !in t.tasks)
            && (r.Err? ==> t' == t)
            && (r.Ok? ==>
                  var x := t.tasks[id];
                  && t' == Table(t.tasks[id := r.value], t.index)
                  && r.value == x.(state := to, output := output, error := error, updatedAt := now,
                                   attempt := if to == Running then x.attempt + 1 else x.attempt,
                                   events := x.events + [TaskEvent(|x.events| + 1, now, Entered(to))]))
  {
  }

  /** A retry succeeds for a task that failed, timed out, could not be cancelled or whose
      outcome is unknown; the task waits again and its outcome is forgotten. */
  lemma RetryAnswersIff(t: Table, id: Bytes, now: nat)
    ensures var (t', r) := RetriedTask(t, id, now);
            && (r.Ok? <==> id in t.tasks && t.tasks[id].state in {Failed, TimedOut, FailedToCancel, OutcomeUnknown})
            && (r.Err? ==> t' == t)
            && (r.Ok? ==>
                  var x := t.tasks[id];
                  && t' == Table(t.tasks[id := r.value], t.index)
                  && r.value == x.(state := Queued, output := None, error := None, updatedAt := now,
                                   events := x.events + [TaskEvent(|x.events| + 1, now, Retried)]))
  {
  }

  /** After a restart no task waits or runs: those that did have an unknown outcome, and no
      other task changes. */
  lemma RecoveryLeavesNoOrphan(t: Table, now: nat, id: Bytes)
    requires id in t.tasks
    ensures var t' := Recovered(t, now);
            && t'.index == t.index && t'.tasks.Keys == t.tasks.Keys
            && t'.tasks[id].state !in {Queued, Running}
            && (t.tasks[id].state in {Queued, Running} ==>
                  t'.tasks[id].state == OutcomeUnknown && t'.tasks[id].error == Some("CONTROLLER_RESTARTED")
                  && t'.tasks[id].output == t.tasks[id].output)
            && (t.tasks[id].state !in {Queued, Running} ==> t'.tasks[id] == t.tasks[id])
  {
  }

  // -------------------------------------------------------------------- retention

  /** The states a task stays in until it is retried or pruned. */
  predicate IsOver(task: Task) {
    Successors(task.state) == {}
  }

  /** Pruning before a cutoff takes exactly the finished tasks not touched since. */
  lemma PruneBeforeTakesIff(t: Table, cutoff: nat, id: Bytes)
    ensures id in Expired(t, cutoff) <==> id in t.tasks && IsOver(t.tasks[id]) && t.tasks[id].updatedAt < cutoff
    ensures id in Without(t, Expired(t, cutoff)).tasks <==> id in t.tasks && id !in Expired(t, cutoff)
  {
    if id in t.tasks {
      assert Running in Successors(Queued) && Cancelling in Successors(CancelRequested);
      assert Succeeded in Successors(Running) && Cancelled in Successors(Cancelling);
    }
  }

  /** While count and size stay within their limits, retention takes exactly the finished
      tasks whose time is over, and no younger one. */
  lemma RetentionTakesIff(t: Table, order: seq<Bytes>, now: nat, retention: nat, maxCount: nat, maxBytes: nat,
                          size: Task -> nat, id: Bytes)
    requires Lists(order, t)
    requires var cutoff := SaturatingSub(now, retention);
             |t.tasks| - |Expired(t, cutoff)| <= maxCount && RetainedBytes(t, order, cutoff, size) <= maxBytes
    ensures id in Pruned(t, order, now, retention, maxCount, maxBytes, size) <==>
            id in t.tasks && IsOver(t.tasks[id]) && t.tasks[id].updatedAt + retention < now
  {
    var cutoff := SaturatingSub(now, retention);
    PruneBeforeTakesIff(t, cutoff, id);
    assert EvictedCount(t, order, cutoff, maxCount, maxBytes, size) == 0;
    assert IdsOf(Candidates(t, order, cutoff)[..0]) == {};
  }
}
