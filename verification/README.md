# Workbench state machines in Dafny

A model of the durable and distributed parts of Workbench, with proofs of what they keep over every run.

| files | component |
|---|---|
| `Desktop`, `DesktopRuns`, `DesktopTheorems`, `DesktopAnswers` | the Executor's desktop queue: a durable single-holder FIFO with grant epochs, an in-flight gate, a maintenance pause, and restarts that fail closed |
| `PackFormat`, `Pack`, `PackTheorems`, `PackAnswers` | the Chromium DataPack writer, its parser, and incremental repacking from a base pack |
| `Rollout`, `RolloutTheorems`, `RolloutGate`, `RolloutRuns`, `RolloutGuarantees`, `RolloutConflicts`, `RolloutOrder`, `RolloutAnswers` | the updater's fleet rollouts, any number over one fleet: preflight, ordered installs, fabric gate, pause and continue, reverse rollback, processes dying at any call |
| `Leases`, `LeaseTheorems`, `LeaseAttempts` | the lease table: fences, handoff, expiry, hashed persistence; the several locks of one invocation among other work |
| `Handoff`, `HandoffTheorems`, `HandoffAnswers` | driver handoff with draining, on top of the lease table |
| `Peer`, `PeerDelivery` | two bridged peers multiplexing calls over FIFO frame channels |
| `Tasks`, `TaskTheorems`, `TaskRetention`, `TaskAnswers` | the task table: lifecycle and event log, idempotency index, retention |
| `Releases`, `ReleaseAnswers` | the updater's install, rollback and prune transactions |
| `Mesh` | the full-mesh link planner of the fabric manifest |
| `Common`, `Ordering` | results, options, saturating arithmetic, byte order and a stable insertion sort |

Objects that the system updates in place are classes. Each method is proved to take the object from
its old value to the value a specification function gives (`View()` is the abstract value), for every
clock reading and every outcome of its saves, node calls or file operations, which are parameters. The
theorems are then about those functions, over sequences of calls in any order. The modules named
`...Answers` say exactly when each call succeeds and what it then leaves, without the functions that
compute it. The peer bridge is
concurrent code and is modelled as a state machine over the atomic steps of its threads.

Where the system does not meet a promise unconditionally, the code's behaviour is kept and the exact
condition is proved:

- A desktop session that ended in memory stays ended after a crash if and only if its end had been
  saved (`FinishSurvivesCrashIff`; `UnsavedFinishHappens` loses one from the initial state).
- A desktop request answered Ok is answered with the same session for ever, except that a crash forgets
  it if and only if it had not reached the disk (`RequestSurvivesCrashIff`). A submit that queues the
  request has saved it when it answers Ok; one repeated after a failed save is answered Ok from memory
  (`UnsavedRequestIsAnswered`).
- A reported `safePoint` lasts through restarts if and only if the pause had reached the disk
  (`SafePointHoldsIff`). `desktop.maintenance` reports one only after saving it
  (`AnsweredPauseIsSaved`); a `desktop.list` after a failed save can report one that was not saved
  (`UnsavedSafePointIsReached`).
- Within one rollout a passed fabric check lies between any two installs, always. Across rollouts a start
  keeps that if and only if it finds the gate open or cannot pass its preflight
  (`StartKeepsFleetGateIff`; `OtherRolloutUngated` breaks it from a fresh fleet).
- A paused rollout stays exactly where its file says, whatever a command meets, if and only if the command
  cannot call one of its nodes while it stays paused on file (`PlacementKeptIff`). It can be continued
  honestly if and only if the nodes counted as done still run the new release (`ContinueHonestIff`). Three
  runs from a fresh fleet end otherwise: a rollback-node command that fails after moving its node
  (`FailedRollbackNodeLies`), an automatic rollback whose outcome could not be saved
  (`UnsavedRollbackLies`), and another rollout over the same node (`OtherRolloutLies`).
- An incremental pack equals the full pack if and only if the tree repeats the base pack outside the
  changed prefixes (`IncrementalIsFullIff`).
- The content hash of a pack covers every path and content of files whose sizes are known
  (`StreamCoversContent`), but does not mark where a content ends: two trees of different files can have
  the same hashed bytes (`StreamIsAmbiguous`).
- The idempotency index agrees with a scan of the live tasks if and only if no live task shares the
  joined key by accident (`IndexMatchesScanIff`); a NUL inside a scope part makes that happen
  (`NulCollisionHappens`), and NUL-free scopes exclude it in every reachable table (`IndexAlwaysMatchesScan`).
- An install leaves the store healthy if and only if it does not end on a failed new release with the
  pointer not put back (`InstallHealthyIff`, with `DanglingHappens` from the empty store). Rollback and
  activation of an existing release need no such condition.
- The dialer between two remote nodes is independent of their order in the manifest if and only if they
  are not both Termux nodes (`DialerOrderFreeIff`).

## Model

| member | source | states |
|---|---|---|
| `DesktopTheorems.EveryRunRefinesMutex` | crates/workbench-runtime/src/desktop.rs:92-262 | every step of every run, including failed saves, crashes and reopening, is a step of a durable first-come-first-served mutex: it grants only to the head of the line and only when free, and a restart resumes the saved copy |
| `DesktopTheorems.StepRefinesMutex` | crates/workbench-runtime/src/desktop.rs:92-306 | from any sound state, one event is at most two mutex moves, and the saved copy is one of the states passed through |
| `DesktopTheorems.EveryRunIsSound` | crates/workbench-runtime/src/desktop.rs:92-262 | in every reachable state, memory and disk each have at most one active or draining job, nonzero epochs that read 1..epoch in queue order, and no grant past a job that is still queued |
| `DesktopRuns.StepKeepsSound` | crates/workbench-runtime/src/desktop.rs:51-306 | every event keeps that invariant, and the saved image only moves forward: nothing forgotten, regranted or reopened |
| `DesktopRuns.AwardKeepsFifo` | crates/workbench-runtime/src/desktop.rs:125-139 | promoting keeps the queue first come first served and moves every job forward in its lifecycle |
| `DesktopRuns.AwardIsGrant` | crates/workbench-runtime/src/desktop.rs:125-139 | promoting is the mutex's grant to the head of the waiting line |
| `DesktopTheorems.DispatchesAreFenced` | crates/workbench-runtime/src/desktop.rs:263-301 | over every run the epochs of dispatched actions never decrease, and an epoch names one job for ever |
| `DesktopTheorems.OnlyHolderActs` | crates/workbench-runtime/src/desktop.rs:273-287 | while somebody holds the desktop an action starts only under that live session's own token and owner, and a computer-use call is given its id and epoch |
| `DesktopAnswers.BeginStartsIff` | crates/workbench-runtime/src/desktop.rs:263-301 | an action starts exactly when the save succeeds, nothing is blocked or in flight, and it either presents the credentials of the live session or, on a desktop nobody holds or pauses, is no computer-use call and presents none |
| `DesktopAnswers.ComputerUseNeedsSession` | crates/workbench-runtime/src/desktop.rs:263-301 | over every run, crashes included, a computer-use call is dispatched only under a held, unexpired session |
| `DesktopAnswers.BeginEffect` | crates/workbench-runtime/src/desktop.rs:263-301 | a started action is in flight in memory and on disk, a refused one leaves no trace |
| `DesktopAnswers.UncertainEndLocks` | crates/workbench-runtime/src/desktop.rs:302-306 | over every run an action with an uncertain outcome leaves the desktop blocked and in need of a reset, saved or not |
| `DesktopAnswers.CertainEndFrees` | crates/workbench-runtime/src/desktop.rs:302-306 | a certain outcome clears the gate and blocks nothing |
| `DesktopAnswers.PromoteGrantsNext` | crates/workbench-runtime/src/desktop.rs:125-139 | a free desktop goes to the first job waiting, under the next epoch, until its time to live from now |
| `DesktopAnswers.PromoteOtherwiseNothing` | crates/workbench-runtime/src/desktop.rs:125-139 | otherwise promoting does nothing |
| `DesktopAnswers.NobodyWaitsInVain` | crates/workbench-runtime/src/desktop.rs:142-259 | after a maintenance call, reset or new request that answers Ok nobody waits for a free desktop |
| `DesktopAnswers.CleanupLeavesNobodyWaiting` | crates/workbench-runtime/src/desktop.rs:109-124 | nor after a cleanup |
| `DesktopAnswers.GrantLasts` | crates/workbench-runtime/src/desktop.rs:125-139 | a granted session may act exactly until its time to live from the grant is over |
| `DesktopAnswers.RenewalLasts` | crates/workbench-runtime/src/desktop.rs:222-233 | a renewed session exactly until its time to live from the renewal is over |
| `DesktopAnswers.SessionAnswersIff` | crates/workbench-runtime/src/desktop.rs:211-244 | a session call succeeds for the job its credentials name, a renewal only while it is active, in time and unblocked, and changes that job alone, in a way fixed by the verb |
| `DesktopAnswers.UnknownSession` | crates/workbench-runtime/src/desktop.rs:211-220 | credentials that name no job change nothing |
| `DesktopAnswers.CancelledNeverGranted` | crates/workbench-runtime/src/desktop.rs:234-240 | a session cancelled while it waited is never granted in any later run the cancellation survives |
| `DesktopAnswers.NeedsCleanupIff` | crates/workbench-runtime/src/desktop.rs:97-108 | cleanup is due exactly when the holder is draining or out of time and nothing is blocked or in flight |
| `DesktopAnswers.CleanupEnds` | crates/workbench-runtime/src/desktop.rs:109-124 | a successful cleanup ends the holder as expired or completed by its time, and no other job |
| `DesktopAnswers.FailedCleanupBlocks` | crates/workbench-runtime/src/desktop.rs:109-124 | a failed cleanup only blocks |
| `DesktopAnswers.SubmitQueuesIff` | crates/workbench-runtime/src/desktop.rs:162-196 | a new request joins the end of the queue exactly when its fields are valid, there is room and its time to live is within bounds |
| `DesktopAnswers.MaintenanceAnswersIff` | crates/workbench-runtime/src/desktop.rs:142-161 | a pause is set or lifted by a valid operator that no other one excludes, and by nobody else |
| `DesktopAnswers.RecoverAnswersIff` | crates/workbench-runtime/src/desktop.rs:245-259 | a reset is accepted exactly when blocked, nothing in flight and confirmed; it interrupts whoever held the desktop |
| `DesktopAnswers.ListingHidesTokens` | crates/workbench-runtime/src/desktop.rs:197-210 | a listing shows every job but no token, and a safe point exactly for a paused idle desktop |
| `DesktopTheorems.SessionIsUndisturbed` | crates/workbench-runtime/src/desktop.rs:97-301 | through any run of other owners' commands, maintenance and failed saves a session stays its holder's, whose action starts exactly when none is in flight, it has not expired and the save succeeds |
| `DesktopTheorems.EpochNeverOverflows` | crates/workbench-runtime/src/desktop.rs:132-133 | the epoch never exceeds the queue's capacity of 10000, so the 64-bit increment is safe |
| `DesktopTheorems.ResubmitReturnsSameJob` | crates/workbench-runtime/src/desktop.rs:162-196 | repeating a successful submit under the same owner and key changes nothing and returns the same job |
| `DesktopTheorems.ResubmitAlwaysReturnsSameJob` | crates/workbench-runtime/src/desktop.rs:162-196 | a submit answered Ok is answered with the same id, owner and token, changing nothing, after any run without a crash, and after any run at all if the request is on disk, as it is when that submit queued it |
| `DesktopTheorems.RequestSurvivesCrashIff` | crates/workbench-runtime/src/desktop.rs:162-196 | a request in memory is found after a crash exactly when it had reached the disk |
| `DesktopTheorems.UnsavedRequestIsAnswered` | crates/workbench-runtime/src/desktop.rs:162-196 | from the initial state: a submit fails to save, its repetition is answered Ok, and a crash forgets it |
| `DesktopTheorems.FinishedForever` | crates/workbench-runtime/src/desktop.rs:92-262 | a saved finished job is never changed by any later run |
| `DesktopTheorems.FinishSurvivesCrashIff` | crates/workbench-runtime/src/desktop.rs:51-91 | a finished job is the same after a crash and reopen exactly when the saved image already showed it finished |
| `DesktopTheorems.UnsavedFinishIsLost` | crates/workbench-runtime/src/desktop.rs:109-124 | when the save after a cleanup fails, a crash brings the ended session back as the blocked holder |
| `DesktopTheorems.UnsavedFinishHappens` | crates/workbench-runtime/src/desktop.rs:51-124 | from the initial state a session is submitted, granted and finished, its end not saved, and a crash brings it back |
| `DesktopTheorems.RestartBlockedIff` | crates/workbench-runtime/src/desktop.rs:51-72 | a restart is blocked exactly when the saved image shows an action in flight, an active or draining job, or an earlier block |
| `DesktopTheorems.RestartWaitsIff` | crates/workbench-runtime/src/desktop.rs:51-306 | after a restart no run without a confirmed reset grants or starts anything, if and only if the saved image asks for one |
| `DesktopTheorems.CrashDuringActionLocks` | crates/workbench-runtime/src/desktop.rs:263-306 | from a successful `begin` on, the saved image has inFlight set whatever other saves do; a crash then, or after an `end` that could not save, locks the system |
| `DesktopTheorems.LockedUntilReset` | crates/workbench-runtime/src/desktop.rs:245-306 | from a locked state no run without a confirmed `desktop.recover`, however often it restarts, grants the desktop or dispatches an action |
| `DesktopTheorems.CleanupWindowHolds` | crates/workbench-runtime/src/desktop.rs:97-124 | once `needs_cleanup` said yes, any calls leave the same job draining, nothing in flight and nothing blocked until `cleanup_done` |
| `DesktopRuns.CleaningPersists` | crates/workbench-runtime/src/desktop.rs:97-301 | the single-event form of that window |
| `DesktopTheorems.PauseHolds` | crates/workbench-runtime/src/desktop.rs:142-161 | a saved pause holds through any run and restart that its owner does not end: no grant, no dispatch |
| `DesktopTheorems.SafePointHoldsIff` | crates/workbench-runtime/src/desktop.rs:197-209 | a reported safe point keeps every later run quiet until its owner ends maintenance, if and only if the pause is on disk |
| `DesktopTheorems.AnsweredPauseIsSaved` | crates/workbench-runtime/src/desktop.rs:142-161 | a `desktop.maintenance` call that succeeds has saved the pause |
| `DesktopTheorems.UnsavedPauseFails` | crates/workbench-runtime/src/desktop.rs:142-161 | without the pause on disk, a concrete crash, reset and lift by somebody else grants or dispatches |
| `DesktopTheorems.UnsavedSafePointIsReached` | crates/workbench-runtime/src/desktop.rs:142-209 | from the initial state a pause whose save fails is reported as a safe point and does not last |
| `Desktop.DesktopQueue.constructor` | crates/workbench-runtime/src/desktop.rs:51-70 | loading the saved state blocks it, with nothing in flight, if an action or a holder survived |
| `Desktop.DesktopQueue.OpenQueue` | crates/workbench-runtime/src/desktop.rs:51-72 | opening saves what it loaded; no queue is returned when that save fails |
| `Desktop.DesktopQueue.Save` | crates/workbench-runtime/src/desktop.rs:73-91 | a save copies the whole state or leaves the old image and reports failure |
| `Desktop.DesktopQueue.NeedsCleanup` | crates/workbench-runtime/src/desktop.rs:97-108 | an expired or draining holder needs cleanup unless something is blocked or in flight; nothing is saved |
| `Desktop.DesktopQueue.CleanupDone` | crates/workbench-runtime/src/desktop.rs:109-124 | success ends the holder as expired or completed, failure blocks; then save and promote |
| `Desktop.DesktopQueue.Promote` | crates/workbench-runtime/src/desktop.rs:125-139 | grants the first queued job under the next epoch when the desktop is free, and saves |
| `Desktop.DesktopQueue.Run` | crates/workbench-runtime/src/desktop.rs:140-262 | every `desktop.*` command with its whole effect on memory, disk and reply |
| `Desktop.DesktopQueue.SetMaintenanceMode` | crates/workbench-runtime/src/desktop.rs:142-161 | sets or lifts the pause unless another operator owns it |
| `Desktop.DesktopQueue.SubmitJob` | crates/workbench-runtime/src/desktop.rs:162-196 | deduplicates, checks capacity and time to live, appends, saves and promotes |
| `Desktop.DesktopQueue.UseSession` | crates/workbench-runtime/src/desktop.rs:211-244 | get, renew, finish and cancel under matching credentials, with every refusal |
| `Desktop.DesktopQueue.RecoverDesktop` | crates/workbench-runtime/src/desktop.rs:245-259 | only a confirmed reset of a blocked idle desktop interrupts the holder and unblocks |
| `Desktop.DesktopQueue.Begin` | crates/workbench-runtime/src/desktop.rs:263-301 | every refusal in order; otherwise in flight in memory, and Ok, with the session id of a computer-use call, only once that is saved |
| `Desktop.DesktopQueue.End` | crates/workbench-runtime/src/desktop.rs:302-306 | clears the gate, blocks on an uncertain outcome, saves |
| `Desktop.Holder` | crates/workbench-runtime/src/desktop.rs:92-96 | finds an active or draining job whenever there is one |
| `PackTheorems.IncrementalIsFullIff` | crates/workbench-runtime/src/generation.rs:244-413 | packing over a base pack gives the same bytes and content hash as packing in full, exactly when the tree repeats the base outside the changed prefixes; agreeing trees also fail alike |
| `PackTheorems.IncrementalPacksPatchedTree` | crates/workbench-runtime/src/generation.rs:253-413 | for any base at all, the incremental pack is the full pack of the tree patched with the base's bytes, errors included; it fails if the base is unusable or lacks an entry |
| `PackTheorems.ChainsStayExact` | crates/workbench-runtime/src/generation.rs:244-531 | stacking any number of increments ends in the full pack of the last tree |
| `PackTheorems.PackReadsBack` | crates/workbench-runtime/src/generation.rs:328-531 | parsing a written pack gives exactly one entry per packed path, and its range slices out that resource's bytes |
| `PackTheorems.PackDeterminesContent` | crates/workbench-runtime/src/generation.rs:244-413 | two trees with the same pack hold the same content under the same path |
| `PackTheorems.LawfulCodecExists` | crates/workbench-runtime/src/generation.rs:310-327 | a codec that reads back what it encodes exists, so the theorems that assume one speak of something |
| `PackAnswers.FullPackSucceedsIff` | crates/workbench-runtime/src/generation.rs:244-413 | a tree packs in full exactly when it has a file, no two share a path, there are at most 65534, the metadata is an object and header, index, manifest and contents stay below 4 GiB; the pack is then that layout in path order |
| `PackAnswers.TreeErrorsIff` | crates/workbench-runtime/src/generation.rs:244-256 | the duplicate-path error means exactly that two files share a path, the empty error that there is none |
| `PackAnswers.IncrementalSucceedsIff` | crates/workbench-runtime/src/generation.rs:253-413 | an incremental pack succeeds exactly when the base has the expected digest and parses, a prefix is named, every file outside the prefixes is in it, and the tree so resolved packs in full |
| `PackAnswers.BaseUsableIff` | crates/workbench-runtime/src/generation.rs:257-281 | a base is usable exactly when it has the expected digest, parses, and some prefix is named |
| `PackAnswers.ParsesIff` | crates/workbench-runtime/src/generation.rs:449-531 | a base parses exactly for version 5, at least one part, a whole index of offsets that never fall nor leave the file, and a manifest with one path for each other part |
| `PackAnswers.PackIgnoresTreeOrder` | crates/workbench-runtime/src/generation.rs:244-252 | the order in which files were found does not matter |
| `PackAnswers.ChangedIff` | crates/workbench-runtime/src/generation.rs:440-447 | a path counts as changed exactly when the names of some prefix are its first names |
| `PackAnswers.StreamCoversContent` | crates/workbench-runtime/src/generation.rs:290-307 | with equal sizes, equal hashed streams mean equal paths and contents |
| `PackAnswers.StreamIsAmbiguous` | crates/workbench-runtime/src/generation.rs:290-307 | two different trees with the same hashed stream |
| `PackAnswers.HeaderSays` | crates/workbench-runtime/src/generation.rs:371-383 | version 5, no encoding, the number of parts, no aliases |
| `PackAnswers.IndexIds` | crates/workbench-runtime/src/generation.rs:384-397 | index rows are numbered from 1 and the terminator has id 0 |
| `PackAnswers.ManifestIdsNameRows` | crates/workbench-runtime/src/generation.rs:313-327 | the id the manifest gives a path is that of the index row at which its content starts |
| `PackTheorems.SortedPathsDistinct` | crates/workbench-runtime/src/generation.rs:244-252 | comparing sorted neighbours finds every duplicate path |
| `PackFormat.OffsetsReadBack` | crates/workbench-runtime/src/generation.rs:328-397 | under the resource-count and 4 GiB limits the written index reads back to the exact offsets |
| `PackFormat.PartsReadBack` | crates/workbench-runtime/src/generation.rs:398-413 | between consecutive offsets lies exactly the part packed there |
| `PackFormat.Le16RoundTrip` | crates/workbench-runtime/src/generation.rs:384-397 | a 16-bit field reads back exactly when the number fits |
| `PackFormat.Le32RoundTrip` | crates/workbench-runtime/src/generation.rs:384-397 | a 32-bit field reads back exactly when the number fits |
| `Pack.PackTree` | crates/workbench-runtime/src/generation.rs:244-413 | the packing procedure gives the pack, content hash or error of its specification |
| `Pack.HashedStream` | crates/workbench-runtime/src/generation.rs:290-307 | the hashed stream is that of the patched tree, or the missing-entry error |
| `Pack.PlanOffsets` | crates/workbench-runtime/src/generation.rs:328-361 | offsets computed from table lengths and file sizes are those of the bytes later copied |
| `Pack.WriteIndex` | crates/workbench-runtime/src/generation.rs:384-397 | ids count from 1, one row per resource and a terminator |
| `Pack.WriteData` | crates/workbench-runtime/src/generation.rs:398-413 | manifest and resources in order, copied from file or base range |
| `Pack.WriteFile` | crates/workbench-runtime/src/generation.rs:328-413 | the whole file, or the size-limit error exactly when it passes 4 GiB |
| `Pack.ParseEntries` | crates/workbench-runtime/src/generation.rs:449-531 | the parser's table or error for any bytes |
| `Pack.EntriesInBounds` | crates/workbench-runtime/src/generation.rs:449-531 | every parsed range lies inside the file, for any bytes that parse |
| `RolloutGuarantees.RolloutAllOrNothing` | updater/rollout.go:163-345 | over every run of commands on any number of rollouts, processes dying at any call: the answer of every start, and of every continue of an undisturbed rollout, can be believed: complete means every plan node runs the new release, a rollback without errors leaves every plan node at the rollback version, a pause leaves exactly the first NextNode nodes upgraded |
| `RolloutGuarantees.FilesTellTheTruth` | updater/rollout.go:163-345 | between commands, however they ended, the file of an undisturbed rollout counts only nodes that run the new release, is complete only when all do, and if degraded has exactly its first NextNode nodes upgraded |
| `RolloutRuns.AfterSound` | updater/rollout.go:163-302 | every command on any rollout keeps that for all files, whatever fails and wherever the process dies |
| `RolloutGuarantees.StartAnswersTruly` | updater/rollout.go:163-187 | the answer of a start can be believed from any fleet |
| `RolloutGuarantees.ContinueTrustworthyIff` | updater/rollout.go:202-230 | the answer of a continue can be believed in every environment exactly when the rollout is where its file says |
| `RolloutConflicts.PlacementKeptIff` | updater/rollout.go:163-302 | a paused rollout stays where its file says, or stops being paused on file, in every environment, exactly when the command is no start or continue that can reach a shared node, no rollback of one of its nodes, and not its own continue with an automatic rollback ahead |
| `RolloutConflicts.FailedRollbackNodeLies` | updater/rollout.go:255-302 | from a fresh fleet: a failing rollback-node that moved its node leaves a rollout that continues to a false "complete" |
| `RolloutConflicts.UnsavedRollbackLies` | updater/rollout.go:381-410 | from a fresh fleet: an automatic rollback that could not save its outcome does the same |
| `RolloutConflicts.OtherRolloutLies` | updater/rollout.go:163-187 | from a fresh fleet: a later rollout over the same node does the same to the paused one |
| `RolloutGuarantees.InstallsAreGated` | updater/rollout.go:304-345 | over every run, whatever other rollouts do and wherever processes die, a rollout's own successful fabric check lies between any two of its installs |
| `RolloutGate.StartKeepsFleetGateIff` | updater/rollout.go:163-200 | across rollouts a start keeps a passed check between any two installs, in every environment, exactly when it finds the gate open or its preflight cannot pass |
| `RolloutGuarantees.FleetIsGated` | updater/rollout.go:163-345 | if every start of a run does, a passed check lies between any two installs of the whole fleet |
| `RolloutConflicts.OtherRolloutUngated` | updater/rollout.go:163-187 | from a fresh fleet: two starts install with no passed check in between |
| `RolloutGate.GateMeansChecked` | updater/rollout.go:304-345 | the step invariant of the gate means a check between any two installs of a call history |
| `RolloutTheorems.AdvanceFramed` | updater/rollout.go:304-345 | advancing a rollout leaves every other rollout's file and every node it does not name as they were |
| `RolloutTheorems.AdvanceEndsWell` | updater/rollout.go:304-345 | advancing, against nodes that may fail at any call, ends complete, degraded or rolled back with those meanings |
| `RolloutTheorems.InstallNextEffect` | updater/rollout.go:304-325 | while running, exactly the first NextNode nodes are new and the rest old, kept by each install that is read back; a failing one rolls back |
| `RolloutTheorems.ContinueHonestIff` | updater/rollout.go:202-230 | continuing a degraded rollout can be believed in every environment exactly when the counted nodes run the new release |
| `RolloutTheorems.AdvanceSaves` | updater/rollout.go:304-345 | after advancing, dead or alive, the file says degraded only if the run paused and saved exactly that, or an automatic rollback did not get to save its outcome |
| `RolloutTheorems.RollbackErrorsAreLogged` | updater/rollout.go:381-410 | a rollback is reported incomplete exactly when it logged a failed or unconfirmed node |
| `RolloutTheorems.RollbackNodesEffect` | updater/rollout.go:381-410 | rolling back the first nodes without an error leaves every node old if the others were |
| `RolloutTheorems.OrderIsPermutationIff` | updater/rollout.go:135-161 | the order is a permutation of the nodes exactly when it is the declared one or every role is executor or controller |
| `RolloutTheorems.ValidPlanOrders` | updater/rollout.go:59-133 | a plan that passes validation is ordered into the same nodes, each id once |
| `RolloutOrder.OrderPutsRolesFirst` | updater/rollout.go:135-161 | executors-first puts no controller before an executor, controller-first the reverse, declared keeps the order |
| `RolloutOrder.OrderIsStable` | updater/rollout.go:135-161 | nodes of one role keep their declared order |
| `RolloutOrder.InstallsFollowOrder` | updater/rollout.go:163-345 | over every run the installs of a rollout are the first of its nodes, each once, in the order of its plan; under executors-first no controller is called before an executor |
| `RolloutOrder.RollbackRunsBackwards` | updater/rollout.go:381-410 | a rollback calls the nodes from the last to the first, past any failure |
| `RolloutAnswers.PlanValidIff` | updater/rollout.go:59-133 | exactly which plans are valid |
| `RolloutAnswers.PlanSays` | updater/rollout.go:59-133 | what a valid plan says, defaults included |
| `RolloutAnswers.AbortAnswersIff` | updater/rollout.go:232-253 | when an abort is refused, and that otherwise it only marks the file |
| `RolloutAnswers.ContinueAnswersIff` | updater/rollout.go:202-230 | when a continue is refused, and that it asks the fabric first and stops there if unhealthy |
| `RolloutAnswers.RollbackNodeAnswersIff` | updater/rollout.go:255-302 | when a rollback-node is refused, and that it calls that node once and aborts only if that worked |
| `RolloutGate.StalePreflight` | updater/rollout.go:189-200 | a preflight changes nothing, and if clear saw every node at the rollback version |
| `Rollout.OrderNodes` | updater/rollout.go:135-161 | executors before controllers, the reverse, or as declared, keeping relative order |
| `Rollout.Coordinator.RollBackNode` | updater/rollout.go:381-410 | one node: rollback, then a readback that must confirm it |
| `Rollout.Coordinator.RollBackInstalledNodes` | updater/rollout.go:381-410 | the first `count` nodes in reverse, every error kept, then the saved status |
| `Rollout.Coordinator.InstallNextNode` | updater/rollout.go:304-325 | save, install, readback; on failure roll back this node and those before it |
| `Rollout.Coordinator.CheckFabricAfter` | updater/rollout.go:326-340 | the gate: pass, pause, or roll back, as the plan says |
| `Rollout.Coordinator.Advance` | updater/rollout.go:304-345 | the whole loop to completion or its first stop |
| `Rollout.Coordinator.Save` | updater/rollout.go:477-489 | the file becomes the live state, or stays |
| `Rollout.Updater.Start` | updater/rollout.go:163-200 | preflight, order, first save, advance |
| `Rollout.Updater.Continue` | updater/rollout.go:202-230 | only a degraded rollout, and only after the fabric is healthy again |
| `Rollout.Updater.Abort` | updater/rollout.go:232-253 | the file says aborted, no node is called |
| `Rollout.Updater.RollbackNode` | updater/rollout.go:255-302 | the named node rolled back, whatever the rollout's status, then the rollout aborted; a failing node call leaves the file as it was |
| `LeaseTheorems.FencesStrictlyIncrease` | crates/workbench-core/src/lease.rs:31-221 | over any mix of operations and restarts, the leases issued for a resource carry strictly increasing fences |
| `LeaseTheorems.OnlyLastTokenValidates` | crates/workbench-core/src/lease.rs:85-94 | once a newer lease was issued, an earlier token of the resource validates for nobody at any time |
| `LeaseTheorems.LeaseIsExclusive` | crates/workbench-core/src/lease.rs:45-221 | whatever others do before it expires, restarts and takes by anybody it does not name included, a lease stays with its holder; its secret validates exactly until the expiry and nobody acquires before |
| `LeaseTheorems.LeavesOnlyToNamed` | crates/workbench-core/src/lease.rs:113-176 | over every run, a live lease its holder neither renews nor releases leaves it only to somebody that a handoff or handoff request has named since it was issued and that was not cancelled |
| `LeaseTheorems.HistoryKeepsHolder` | crates/workbench-core/src/lease.rs:113-176 | whom a lease names is what the history of operations says |
| `LeaseTheorems.TakeAnswersIff` | crates/workbench-core/src/lease.rs:155-176 | a take succeeds exactly for the named target and otherwise changes nothing |
| `LeaseTheorems.NamingLetsTake` | crates/workbench-core/src/lease.rs:113-153 | who may name and unname a target, and that only the named one may then take; a request shows no token |
| `LeaseTheorems.AcquireAnswersIff` | crates/workbench-core/src/lease.rs:45-79 | an acquisition succeeds exactly when no live lease is in the way, and names nobody yet |
| `LeaseTheorems.HolderAnswersIff` | crates/workbench-core/src/lease.rs:96-186 | a renewal and a release succeed exactly for credentials that validate |
| `LeaseTheorems.ReapRemovesExpired` | crates/workbench-core/src/lease.rs:209-221 | reaping removes exactly the expired leases and no fence |
| `LeaseTheorems.AcquireStartsHolding` | crates/workbench-core/src/lease.rs:45-111 | an acquire holds until its clock plus the time to live, a renewal in time restarts that, a late one changes nothing |
| `LeaseTheorems.UnissuedTokenDead` | crates/workbench-core/src/lease.rs:85-94 | a token never issued validates nothing |
| `LeaseTheorems.RestoreIsHash` | crates/workbench-core/src/lease.rs:31-43 | restoring a snapshot, in whatever order it lists the leases, hashes the tokens and changes nothing else |
| `LeaseTheorems.RestartValidatesTheSame` | crates/workbench-core/src/lease.rs:224-234 | a restored table accepts exactly the triples the live one did, at every time |
| `LeaseTheorems.RestartIssuesSameFence` | crates/workbench-core/src/lease.rs:31-79 | the next acquire or takeover answers the same, fence included, before and after a restart |
| `LeaseTheorems.PersistIsFixpoint` | crates/workbench-core/src/lease.rs:192-207 | persisting a restored table saves what it was restored from |
| `LeaseAttempts.ConflictLeavesNoSecret` | crates/workbench-runtime/src/controller.rs:2150-2195 | with any operations of others before, between and after the acquisitions, each at its own clock reading: after a conflict at any position no secret of the attempt opens anything, for anyone, once its lease was given back |
| `LeaseAttempts.OthersUndisturbed` | crates/workbench-runtime/src/controller.rs:2150-2195 | whatever becomes of the attempt, a lease that somebody else holds at any point of it stays that holder's, unchanged in owner, secret and expiry, unless others touch it |
| `LeaseAttempts.SuccessHoldsAll` | crates/workbench-runtime/src/controller.rs:2150-2195 | on success the caller has a lease on every listed resource and holds each until its own expiry, unless others take it over |
| `LeaseAttempts.AcquireAllOrNothing` | crates/workbench-runtime/src/controller.rs:2150-2195 | alone on the table, with any clock readings: on a conflict at any position the live leases are those live before, unchanged, and no secret of the attempt validates; on success the caller holds all |
| `LeaseAttempts.AcquireAllIsSettled` | crates/workbench-runtime/src/controller.rs:2150-2195 | an attempt among the operations of others is what the table method does when they take their turns between its acquisitions |
| `LeaseAttempts.ReleasedLocksDead` | crates/workbench-runtime/src/controller.rs:4859-4863 | on any table, none of the given-back credentials validates afterwards |
| `LeaseAttempts.OtherLeasesKept` | crates/workbench-runtime/src/controller.rs:4859-4863 | a lease those credentials do not open is untouched |
| `LeaseAttempts.DuplicatesConflict` | crates/workbench-runtime/src/controller.rs:2163-2176 | listing a resource twice is a conflict with oneself while the first lease runs and nobody takes it over, each acquisition at its own reading and others in between |
| `Leases.LeaseTable.constructor` | crates/workbench-core/src/lease.rs:31-43 | leases by resource, each fence at least its lease's |
| `Leases.LeaseTable.Acquire` | crates/workbench-core/src/lease.rs:45-79 | refused while a live lease exists, otherwise the next fence |
| `Leases.LeaseTable.Validate` | crates/workbench-core/src/lease.rs:85-94 | owner, token (plain or hashed) and expiry |
| `Leases.LeaseTable.Renew` | crates/workbench-core/src/lease.rs:96-111 | extends a valid lease only |
| `Leases.LeaseTable.Handoff` | crates/workbench-core/src/lease.rs:113-127 | names a target on a valid lease only |
| `Leases.LeaseTable.RequestHandoff` | crates/workbench-core/src/lease.rs:131-141 | names a target on a live lease |
| `Leases.LeaseTable.CancelHandoff` | crates/workbench-core/src/lease.rs:143-153 | clears a matching target |
| `Leases.LeaseTable.TakeHandoff` | crates/workbench-core/src/lease.rs:155-176 | the named target gets a new token and the next fence |
| `Leases.LeaseTable.Release` | crates/workbench-core/src/lease.rs:178-186 | removes a valid lease and keeps its fence |
| `Leases.LeaseTable.PersistenceSnapshot` | crates/workbench-core/src/lease.rs:192-203 | every lease with its token hashed once |
| `Leases.LeaseTable.ReapExpired` | crates/workbench-core/src/lease.rs:209-221 | removes exactly the expired leases, never a fence |
| `Leases.LeaseTable.AcquireAll` | crates/workbench-runtime/src/controller.rs:2150-2195 | one lease per listed resource in order, each at its own clock reading on the table others left; at the first conflict all are given back |
| `Leases.LeaseTable.ReleaseAcquired` | crates/workbench-runtime/src/controller.rs:4859-4863 | releases in reverse, ignoring failures |
| `HandoffTheorems.TakeoverIsClean` | crates/workbench-runtime/src/controller.rs:2538-2591 | in every run, a takeover from a recorded previous owner finds no recorded mutation of that owner open in the workspace, its fence exceeds every earlier one, and no earlier token of the workspace validates again |
| `HandoffTheorems.RunKeepsSound` | crates/workbench-runtime/src/controller.rs:2443-2625 | every run keeps the lease invariant and that an unexpired ready request has its previous owner drained |
| `HandoffTheorems.StepKeepsDrained` | crates/workbench-runtime/src/controller.rs:3941-4015 | every step keeps that invariant although Ready is sticky |
| `HandoffAnswers.AwaitAnswersIff` | crates/workbench-runtime/src/controller.rs:2538-2591 | the newest request is served exactly when ready and, against a driver, still named by the lease, or, against nobody, while nobody drives; while it drains the answer says so |
| `HandoffAnswers.HandoffRunsToEnd` | crates/workbench-runtime/src/controller.rs:2443-2591 | asked for, a handoff drains the driver, refuses it new mutations and lets the requester wait, and once the recorded mutation is finished gives the requester the lease |
| `HandoffAnswers.StartRefusedIff` | crates/workbench-runtime/src/controller.rs:3941-3959 | a mutation is refused exactly while an unexpired open request drains its agent |
| `HandoffAnswers.FinishForgets` | crates/workbench-runtime/src/controller.rs:2471-2482 | finishing forgets exactly the mutations under the id |
| `HandoffAnswers.AskAnswersIff` | crates/workbench-runtime/src/controller.rs:2483-2537 | a request is refused exactly to the driver and against an expired lease, and otherwise recorded against whoever drives |
| `HandoffAnswers.CancelAnswersIff` | crates/workbench-runtime/src/controller.rs:2592-2625 | the newest open request is cancelled and its name withdrawn, unless the lease names somebody else |
| `HandoffAnswers.RefreshSays` | crates/workbench-runtime/src/controller.rs:3961-4015 | a refresh ends overdue open requests and readies the others exactly when nothing is busy |
| `HandoffAnswers.RefreshUnnames` | crates/workbench-runtime/src/controller.rs:3961-4015 | a refresh withdraws a name exactly with the overdue request behind it |
| `Handoff.Coordinator.Refresh` | crates/workbench-runtime/src/controller.rs:3961-4015 | expires overdue requests, withdraws their handoff, and readies the rest when nothing is busy |
| `Handoff.Coordinator.StartMutation` | crates/workbench-runtime/src/controller.rs:2443-2470 | refused while its agent is being drained, recorded once per id |
| `Handoff.Coordinator.FinishMutation` | crates/workbench-runtime/src/controller.rs:2471-2482 | forgets the mutation and refreshes |
| `Handoff.Coordinator.RequestHandoff` | crates/workbench-runtime/src/controller.rs:2483-2537 | draining if somebody drives, ready otherwise; refused for the driver itself |
| `Handoff.Coordinator.AwaitHandoff` | crates/workbench-runtime/src/controller.rs:2538-2591 | serves the newest matching request if ready, by takeover or acquire |
| `Handoff.Coordinator.CancelHandoff` | crates/workbench-runtime/src/controller.rs:2592-2625 | withdraws the newest matching open request |
| `Peer.CallsGetTheirOwnAnswer` | crates/workbench-runtime/src/peer.rs:255-291 | in every interleaving a returned call has a local failure or the answer its own request got from the role it named on the other peer |
| `PeerDelivery.AnswerIsDelivered` | crates/workbench-runtime/src/peer.rs:691-742 | a running reader that reads an answer to a pending call puts exactly that answer into its mailbox, and the call is pending no more |
| `PeerDelivery.AnswerIsReturned` | crates/workbench-runtime/src/peer.rs:255-291 | over every later run a waiting call with an answer keeps it, and one turn of its thread returns exactly that |
| `PeerDelivery.RequestIsHandled` | crates/workbench-runtime/src/peer.rs:691-742 | a request that is read starts its own handler on the reading side |
| `PeerDelivery.ReaderGetsThrough` | crates/workbench-runtime/src/peer.rs:691-742 | a running reader gets through every frame sent to it, in order, up to a stray one |
| `PeerDelivery.ExchangeReturnsAnswer` | crates/workbench-runtime/src/peer.rs:255-742 | with both readers running, a placed call comes back with what its handler answered |
| `PeerDelivery.FailuresAreNamed` | crates/workbench-runtime/src/peer.rs:255-291 | a failed write, a timeout and a disconnect return as such, and the call is pending no more |
| `PeerDelivery.LateAnswerIsDropped` | crates/workbench-runtime/src/peer.rs:706-715 | an answer to a call not pending here is dropped |
| `Peer.RunKeepsSound` | crates/workbench-runtime/src/peer.rs:654-742 | every interleaving of calls, frames, handlers, timeouts and disconnects keeps the bridge's invariant |
| `Peer.ReturnsOnce` | crates/workbench-runtime/src/peer.rs:255-291 | over any further steps a returned call keeps its result and an answered handler keeps its answer |
| `Peer.ThreeTurnsReturn` | crates/workbench-runtime/src/peer.rs:255-291 | in every run in which the call's thread gets three turns the call has returned, however its write turned out and whatever every other thread did |
| `Peer.RankFalls` | crates/workbench-runtime/src/peer.rs:255-291 | no step of any thread sends a call back, and every step of its own thread brings it closer to returning |
| `Peer.CanAlwaysReturn` | crates/workbench-runtime/src/peer.rs:255-291 | a turn is always to be had: from any state the call's own steps alone bring it to return, with either outcome of its write |
| `Peer.StoppedReaderHoldsNothing` | crates/workbench-runtime/src/peer.rs:654-681 | a stopping reader empties the pending map at once, and over every run after it, once the drain is done every call that was pending has been told of the disconnect |
| `Peer.DrainProceeds` | crates/workbench-runtime/src/peer.rs:665-671 | each step of the drain tells one call and leaves the others to be told |
| `TaskTheorems.EveryRunIsSound` | crates/workbench-core/src/task.rs:23-307 | in every reachable table each log is numbered 1..n, is a path of the lifecycle with retry and recovery, determines state and attempts, and the index is exactly the live tasks |
| `TaskTheorems.PushKeepsLog` | crates/workbench-core/src/task.rs:300-307 | appending an event along an edge keeps the log true |
| `TaskTheorems.TerminalIffNoExit` | crates/workbench-core/src/task.rs:115-128 | the terminal states are exactly those no transition leaves |
| `TaskTheorems.IndexAlwaysMatchesScan` | crates/workbench-core/src/task.rs:60-105 | with NUL-free scopes the index answers like a scan in every reachable table, through submits, prunes and restarts |
| `TaskTheorems.IndexMatchesScanIff` | crates/workbench-core/src/task.rs:60-105 | in any sound table the index answers like a scan exactly when no live task collides |
| `TaskTheorems.NulFreeNeverCollides` | crates/workbench-core/src/task.rs:349-356 | NUL-free scopes exclude collisions, whatever the idempotency keys |
| `TaskTheorems.KeyInjective` | crates/workbench-core/src/task.rs:349-356 | the joined key determines its four parts when the first three contain no NUL |
| `TaskTheorems.NulCollides` | crates/workbench-core/src/task.rs:349-356 | two different requests with a NUL inside share a key |
| `TaskTheorems.NulCollisionHappens` | crates/workbench-core/src/task.rs:60-105 | from the empty table: one submission with a NUL in its session answers a different request with its task |
| `TaskTheorems.RestartIsRedaction` | crates/workbench-core/src/task.rs:180-198 | rebuilding from a snapshot in any order gives the same index over the redacted tasks |
| `TaskRetention.EvictionIsMinimal` | crates/workbench-core/src/task.rs:256-263 | evictions are the shortest oldest-first prefix that meets both limits, or all candidates |
| `TaskRetention.CandidatesEnumerate` | crates/workbench-core/src/task.rs:237-255 | candidates are exactly the unexpired terminal tasks, sorted by update time then id |
| `TaskRetention.RetainedCountExact` | crates/workbench-core/src/task.rs:229-242 | the running count starts at the number of unexpired tasks |
| `TaskRetention.CandidatesFit` | crates/workbench-core/src/task.rs:256-263 | every candidate is in the totals, so no subtraction saturates |
| `TaskRetention.OnlyTerminalPruned` | crates/workbench-core/src/task.rs:222-277 | no active task is ever removed |
| `TaskRetention.PruneTwiceIsOnce` | crates/workbench-core/src/task.rs:222-277 | an immediate second prune, iterating in any order, removes nothing |
| `TaskAnswers.RetentionTakesIff` | crates/workbench-core/src/task.rs:222-263 | within the limits retention takes exactly the finished tasks whose time is over, and no younger one |
| `TaskAnswers.PruneBeforeTakesIff` | crates/workbench-core/src/task.rs:200-220 | pruning before a cutoff takes exactly the finished tasks not touched since |
| `TaskAnswers.SubmitAnswersIff` | crates/workbench-core/src/task.rs:60-105 | a submit reuses exactly when a live task has the joined key, and otherwise adds one queued task |
| `TaskAnswers.ResubmitFindsTask` | crates/workbench-core/src/task.rs:60-105 | a task answers every later submit under its scope and key |
| `TaskAnswers.TransitionAnswersIff` | crates/workbench-core/src/task.rs:107-148 | transitions succeed along the listed edges only, replace state and outcome, and log one event |
| `TaskAnswers.RetryAnswersIff` | crates/workbench-core/src/task.rs:154-174 | which tasks may be retried, and that their outcome is forgotten |
| `TaskAnswers.RecoveryLeavesNoOrphan` | crates/workbench-core/src/task.rs:279-298 | after a restart no task waits or runs, and those that did have an unknown outcome |
| `Tasks.TaskTable.constructor` | crates/workbench-core/src/task.rs:23-38 | tasks by id and the index rebuilt from them |
| `Tasks.TaskTable.Submit` | crates/workbench-core/src/task.rs:60-105 | the indexed task, or a new queued one with its first event |
| `Tasks.TaskTable.Transition` | crates/workbench-core/src/task.rs:107-148 | allowed edges only; attempts count entries into running |
| `Tasks.TaskTable.Retry` | crates/workbench-core/src/task.rs:154-174 | requeues a retryable task and clears its outcome |
| `Tasks.TaskTable.PruneTerminalBefore` | crates/workbench-core/src/task.rs:200-220 | removes exactly the terminal tasks older than the cutoff, with their keys |
| `Tasks.TaskTable.PruneRetention` | crates/workbench-core/src/task.rs:222-277 | removes the expired and the evicted, with their keys |
| `Tasks.TaskTable.Evict` | crates/workbench-core/src/task.rs:256-263 | the eviction loop over running counters |
| `Tasks.TaskTable.Survey` | crates/workbench-core/src/task.rs:237-254 | byte total and eviction candidates in one pass |
| `Tasks.TaskTable.RecoverOrphans` | crates/workbench-core/src/task.rs:279-298 | queued and running tasks become outcome-unknown, others stay |
| `Releases.EveryRunIsHealthy` | updater/updater.go:249-836 | from an empty root with install restores succeeding, the pointer is unset with nothing verified or names an installed verified release, all verified releases share one state format, and a rollback stays in it |
| `Releases.InstallHealthyIff` | updater/updater.go:428-501 | an install keeps that exactly when it does not leave the pointer on a failed new release |
| `ReleaseAnswers.InstallSucceedsIff` | updater/updater.go:249-501 | a new version is installed exactly when admitted and every step works; it is then in place, current and verified, and a failure that can be undone leaves the store as it was |
| `ReleaseAnswers.ActivationSucceedsIff` | updater/updater.go:304-341 | an installed version is activated exactly when verified under this manifest, intact and healthy; only the pointer moves |
| `ReleaseAnswers.RollbackSucceedsIff` | updater/updater.go:529-582 | exactly when a rollback succeeds; only the pointer moves |
| `ReleaseAnswers.PruneTakesTheRest` | updater/updater.go:780-836 | a prune takes every listed verified release but the newest ones, the current one and those in use |
| `Releases.DanglingHappens` | updater/updater.go:428-501 | from the empty store: a first install whose launchers fail and whose pointer is not taken back |
| `Releases.RollbackKeepsFormat` | updater/updater.go:529-582 | a rollback keeps it even when its own restore fails, and never changes the state format in use |
| `Releases.PruneKeepsHealthy` | updater/updater.go:780-836 | pruning keeps it whatever cannot be removed |
| `Releases.PruneKeepsNewest` | updater/updater.go:780-836 | a pruned release is no newer than `keep` different verified releases, all of which survive |
| `Releases.EveryTieOrderIsCovered` | updater/updater.go:795-809 | releases verified at the same instant may be sorted in any order: some listing gives each, and every result holds for all listings |
| `Releases.Updater.Install` | updater/updater.go:249-501 | activation of an installed version, or a new one with restore and removal on failure |
| `Releases.Updater.ActivateExisting` | updater/updater.go:304-341 | an installed version is activated only if verified under the same digest and intact; a failing health check puts the pointer back |
| `Releases.Updater.Rollback` | updater/updater.go:529-582 | switch to a verified release, health check, restore on failure |
| `Releases.Updater.Prune` | updater/updater.go:780-836 | removes unprotected verified releases not in use, newest kept first |
| `Releases.Updater.RestoreCurrent` | updater/updater.go:654-659 | the pointer back to the previous release or to none |
| `Mesh.MeshIsComplete` | crates/workbench-cli/src/main.rs:1855-1900 | in the plan of every valid manifest each pair of distinct nodes is joined by exactly one link |
| `Mesh.MeshHasNoMore` | crates/workbench-cli/src/main.rs:1855-1900 | n nodes get n(n-1)/2 links |
| `Mesh.EveryLinkDialsRightly` | crates/workbench-cli/src/main.rs:1863-1898 | no other kind dials a Termux node, among remote nodes Windows dials only Windows and nodes alike are dialed in name order, the initiator dials the rest, and each link carries the remote alias |
| `Mesh.ManifestValidIff` | crates/workbench-cli/src/main.rs:1795-1851 | exactly which manifests are valid |
| `Mesh.DialerOrderFreeIff` | crates/workbench-cli/src/main.rs:1875-1898 | the dialer between two remote nodes is order-free exactly when they are not both Termux |
| `Mesh.PlanLinks` | crates/workbench-cli/src/main.rs:1855-1900 | initiator links first, then each remote pair in order |

## Left out

- Desktop: one clock reading per call, a string's length as its byte length, and ids and tokens as inputs; the queue without a path, which never saves, is not modelled.
- Pack: the manifest JSON codec and SHA-256 are functions given as parameters (decoding an encoding gives the paths back); collecting the tree from disk and read or write errors are not modelled.
- Rollout: the commands run one at a time, as their lock makes them once they hold it; a preflight and the
  loading of a file before the lock is taken do not overlap another command. The retries of `waitForFabric`
  are one outcome, and a start date is a count of calls.
- Leases: token digests are injective, fresh tokens are numbered, and fences do not overflow 64 bits.
- HandoffTheorems.TakeoverIsClean: speaks of recorded agent mutations; tasks of `capability.invoke` are not submitted under the session gate, so only whether one is busy at a refresh is an input. Failures of `persist` are not modelled.
- Peer: modelled on values as a state machine over atomic steps, not as threads sharing a map in place; handshake, backoff and sockets are not modelled.
- Tasks: payloads are strings with redaction as a function; attempts do not overflow; the iteration order of the map is an input.
- Releases: each file operation, download, archive and health check is an outcome; audit-log failures, crashes between switch and record, record repair and the artifact cache are not modelled.
- Mesh: identity, root and desktop checks of a node are one flag; printing is left out.
- The dashboards, macOS, clipboard and computer-use hosts, telemetry and the deploy scripts, which hold little state.
- Most of `Controller::dispatch`: registries that store, list and return records under an id, and routing.
- Output compaction, lock rendering and merged observation queries of the controller.
