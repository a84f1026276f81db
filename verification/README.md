# mtix: the sync layer and its small protocols, proved

This project models the parts of mtix where state, interleaving or text decides correctness, and
proves what the program promises of them. The files follow the program's components.

- **Restore collisions** (`TaskStore`, `CollisionProtocol`, `CollisionResolve`, `CollisionRuns`).
  Two creates claim one task number; an operator accepts a winner on the hub, the loser is moved
  locally, the move is recorded on the hub. The protocol is a transition system with one hub row,
  any number of stores and any number of runs, each with its own winner choice and its own
  program counter; a run may die between any two steps, and other local work may happen at any
  time. The command itself is written step by step over a hub object and a store object, with
  every call able to fail or to lose its reply, and is proved to be a run of that system.
- **Checkpointed clone** (`CloneStore`, `HubPages`, `CloneLoop`, `CloneProperties`, `CloneRuns`,
  `CloneRereads`,
  `CloneFates`). Keyset paging, the check pass, batches with a hold for events whose task is missing, the
  checkpoint, the last retry. What an event does to tasks is any function at all (`Rules`). The
  loop is proved equal to one fold over the log, so the batch size shows nowhere; crashes and
  resumes are a transition system over the transactions.
- **Conflict ledger** (`Conflicts`, `ConflictRuns`). The declarative rule "unresolved", the
  imperative check before a decision, and a reference machine that keeps only a set of open rows
  and one number a pair.
- **Background push and listener** (`Coalescing`, `PushOutcome`, `Listener`, `DaemonLock`). The
  coalescing runner, the outcome record, the waiter's lease and rechecks, the daemon's lifetime
  lock, over all interleavings, with crashes of lock owners.
- **Printers and parsers** (`ShellQuote`, `ShellFixes`, `Patterns`, `UnitFiles`, `DaemonArgs`).
  Shell quoting against a tokeniser that follows sections 2.2.1, 2.2.2 and 2.3 of the POSIX.1-2017
  Shell Command Language; service units against the greedy patterns that read them back, run by a
  small leftmost-first matcher; the argv classifier against the grammar of command lines.
- **Pruned take-over log** (`TakeOverLog`). The filter that writes over the array it reads.

Clocks, random choices, I/O results and the hub's replies are parameters.

## Where the code does less than its text says

Each of these is proved, with the exact condition under which the promise holds.

- A fresh clone clears the quarantine but not the saved checkpoint
  (`cmd/mtix/sync_clone_orphan.go:173-181`), and `DiscardLocal` keeps the checkpoint too
  (`internal/store/sqlite/sync_reconcile.go:63-183`). Such a step uncovers the checkpoint exactly
  when an event of the log is at or before it (`CloneRuns.CarelessBreaksTheCover`), and resumed
  clones that finish have the whole log exactly when the checkpoint they started from was covered
  (`CloneRuns.ResumedCloneHasTheLogIff`). So a clone stopped before its first checkpoint and then
  resumed can report success with nothing (`CloneRuns.CarelessRunLosesTheLog`).
- `applyBatch` says that only an event pushed since the check can be refused
  (`cmd/mtix/sync_clone.go:233-241`). A held event does not raise the local clock, so a later one
  can be refused on an unchanged log (`CloneProperties.CheckCanPassARefusedLog`). Some events never
  miss a task: a creation without a parent, a link, an unlink, a deletion. A log is safe from that,
  whatever tasks its other events find, exactly when every event passes the checks at the clock left
  by those of them before it that depend on no creation a clone may hold. The check pass counts all
  the events before it (`CloneProperties.SafeFromRefusalIff`).
- A clone that dies between a page's commit and its checkpoint reads the page again. Before the
  first checkpoint that holds no applied event (`CloneRereads.FirstPageHoldsNoAppliedEvent`); after
  one it changes nothing exactly when no applied event of the page depends on a creation that the
  page held (`CloneRereads.ReadingAgainIsANoOpIff`), and otherwise quarantines an event that is
  applied (`CloneRereads.AppliedEventCanBeHeldAgain`). The last retry drops such rows
  (`CloneProperties.RetryConserves`).
- When two stores hold the loser, both move it, and the second is refused exactly when the hub
  already holds another number (`CollisionRuns.RecordingRefusedIff`, `CollisionRuns.TwoOwnersCanDisagree`).
- A failure of the waiter's first attempt is reported again exactly when the first recheck fails
  too (`Listener.JoinRepeatsAFailureIff`).
- A probe of the daemon lock "must never turn a starting daemon away"
  (`cmd/mtix/listener_run.go:61-64`). A start is turned away exactly when some process has the lock
  at each of its six attempts (`DaemonLock.TurnedAwayIff`); on a board that no daemon holds then,
  exactly when a probe has it at all six (`DaemonLock.OnlyProbesTurnAway`), as one slow probe can
  (`DaemonLock.ProbeCanTurnADaemonAway`). And a probe takes another probe for a daemon
  (`DaemonLock.ProbeAnswer`).
- The legacy scan reads a systemd unit back as another directory, or as none, exactly when the
  interval is negative, or the directory has a newline or the text of the ` -C ` flag with more
  behind it, or a bracket in it makes the text a property list (`UnitFiles.SystemdRoundTripIff`).
- The argv classifier reads a service command as a daemon exactly when a flag's value before the
  daemon word is the word `daemon` (`DaemonArgs.ClassifiesEveryLine`). It says that another
  subcommand before the daemon word means no daemon (`cmd/mtix/legacy_identity.go:97-98`); after a
  boolean flag like `--json` that subcommand reads as the flag's value
  (`DaemonArgs.OtherCommandIff`).

## Model

| member | source | states |
|---|---|---|
| TaskStore.MoveKeepsTasks | internal/store/sqlite/node_renumber.go:78-108 | a renumber to a free sibling number loses no task, binds no number twice and changes exactly the tasks at or below the old number |
| TaskStore.Store.LiveNodeIDByUID | internal/store/sqlite/node_by_uid.go:19-32 | the number of the live task with that uid; none for an empty uid, an unknown or a deleted task |
| TaskStore.Store.HighestChild | internal/store/sqlite/sequence_advance.go:212-238 | the highest number up to the limit that a task under the parent holds, 0 when none does |
| TaskStore.Store.ClaimNextSeq | internal/store/sqlite/sequence_allocate.go:20-34 | the number after the counter, or, when a task holds it, the one after the highest held; none exactly when that passes the limit; other parents keep their counters |
| TaskStore.Store.RenumberForHubRejection | internal/store/sqlite/settle.go:145-172 | all or nothing: the task moves with its subtree to a fresh free sibling number, passing over only numbers that are occupied or below a held one; it does move whenever the counter is below the limit, nothing is at the limit and no more tasks exist than attempts |
| CollisionResolve.CollisionHub.ResolveCollision | internal/store/postgres/transport/collisions.go:236-256 | writes the decision only into an open row, even when the reply is lost |
| CollisionResolve.CollisionHub.CompleteCollisionMove | internal/store/postgres/transport/collision_resolution.go:43-57 | records a path only for the decided winner and never over another path |
| CollisionResolve.AcceptCollision | cmd/mtix/sync_collision_move.go:52-68 | succeeds only with the hub decided for this winner; changes the row only from open to that; succeeds when nothing fails and the hub is open or agrees; is a run of the protocol |
| CollisionResolve.RenumberCollisionLoser | cmd/mtix/sync_collision_move.go:87-96 | on success the live loser sits at the returned number, away from the contested one; succeeds when nothing fails and the loser has moved or a number is in reach; is a run of the protocol |
| CollisionResolve.RecordMove | cmd/mtix/sync_collision_move.go:33-39 | succeeds exactly when the hub took the completion and the reply arrived |
| CollisionResolve.ResolveCollisionMove | cmd/mtix/sync_collision_move.go:26-40 | done means the hub records exactly the loser's local number; without faults on an open or agreeing hub it is done whenever the loser can move |
| CollisionResolve.CheckBeforeMove | cmd/mtix/sync_collisions.go:241-287 | before anything is written: another decision, a completed collision and a missing loser each stop it, in that order |
| CollisionResolve.ResolveConnectedCollision | cmd/mtix/sync_collisions.go:241-287 | whatever fails, hub and store end where a run of the protocol ends; exact outcome when nothing fails, done whenever the loser can move; early stops change nothing |
| CollisionRuns.StepInv | cmd/mtix/sync_collision_move.go:26-68 | every step of every run, local work and crashes included, keeps the protocol's invariant: one number a task, a decided and recorded move that some store made, runs that know only what the hub and their store hold |
| CollisionRuns.TraceInv | cmd/mtix/sync_collision_move.go:26-68 | so every state of every trace has it |
| CollisionRuns.DecisionIsWrittenOnce | cmd/mtix/sync_collision_move.go:52-68 | over all interleavings with opposite choices the decision and the recorded path are each written at most once |
| CollisionRuns.StoreChangesOnlyOnceDecided | cmd/mtix/sync_collisions.go:241-287 | a run changes a store only while the hub's decision names the other side; the change is the loser's move and loses no task |
| CollisionRuns.WinnerNeverMoves | cmd/mtix/sync_collision_move.go:26-40 | on every store, from when it has the decided winner, the winner keeps its number |
| CollisionRuns.NobodyMovesWhileOpen | cmd/mtix/sync_collision_move.go:26-40 | until the hub has decided, no run has moved a contestant on any store |
| CollisionRuns.TraceStaysOrLeaves | cmd/mtix/sync_collision_move.go:87-96 | between any two moments, on every store that has it, a contestant keeps its number or is the decided loser that left the contested one |
| CollisionRuns.MovesAtMostOnce | cmd/mtix/sync_collision_move.go:87-96 | on every store, from when it has a contestant, its number changes at most once |
| CollisionRuns.CrashedRunsResume | cmd/mtix/sync_collision_move.go:26-40 | after any dead runs, one complete run of the decided choice moves the loser if it has not moved and records exactly its local number |
| CollisionRuns.LaterRunsAreNoOps | cmd/mtix/sync_collisions.go:256-276 | once completed, any later run changes nothing |
| CollisionRuns.RecordingRefusedIff | internal/store/postgres/transport/collision_resolution.go:43-57 | the hub refuses a completion exactly when it holds another store's different number |
| CollisionRuns.SingleOwnerNeverRefused | cmd/mtix/sync_collision_move.go:26-40 | while one store alone holds the loser, no run is refused and the record is its number |
| CollisionRuns.TwoOwnersCanDisagree | cmd/mtix/sync_collision_move.go:26-40 | two stores that both hold the loser can move it to different numbers; the second run then fails |
| CollisionRuns.ExecIsExecAll | cmd/mtix/sync_collision_move.go:26-40 | the runs the command performs and the runs that resume are the same runs |
| CloneStore.OneEventSettles | cmd/mtix/sync_clone_orphan.go:55-88 | one event ends applied or held, never newly both; a reported hold is exactly a new quarantine row; nothing settled before is lost |
| CloneStore.ApplyAllConcat | cmd/mtix/sync_clone.go:181-231 | two batches in a row are one batch: the same store, the same reports, the same first failure |
| CloneStore.BatchSettles | cmd/mtix/sync_clone.go:250-282 | after a batch each of its events is applied or held, earlier state is kept, and the rows it adds are ones a resume keeps |
| CloneStore.StopIsFinal | cmd/mtix/sync_clone.go:250-282 | a failing event decides the batch whatever follows it |
| CloneStore.Store.ApplyBatchReport | cmd/mtix/sync_clone.go:250-282 | one transaction: the fold of the whole batch, or the store as it was |
| CloneLoop.CloneBatch | cmd/mtix/sync_clone.go:206-216 | after a page commits, the store is the fold of exactly the events read so far, the checkpoint names the last of them and the count is of those not held; a failed page changes neither store nor checkpoint |
| CloneRuns.ResumeCovers | cmd/mtix/sync_clone_orphan.go:168-181 | the reset of a resumed clone keeps everything the checkpoint stands for, and leaves no pulled row but the clone's own orphans |
| HubPages.PullEvents | internal/store/postgres/transport/push_pull.go:366-392 | the next events strictly after the cursor in keyset order, at most the limit, and whether more follow |
| HubPages.PageCursor.Advance | cmd/mtix/sync_pull_page.go:46-59 | moves exactly for a higher clock or an id not yet paged past at that clock; a refusal changes nothing |
| HubPages.HonestPageAdvances | cmd/mtix/sync_pull_page.go:46-59 | a hub that pages in keyset order is never refused, Lamport ties across pages included |
| HubPages.NoEndIsAcceptedTwice | cmd/mtix/sync_pull_page.go:46-59 | whatever a hub serves, no page end is accepted twice, the start is never returned to and the clock never falls |
| HubPages.NextPage | cmd/mtix/sync_clone.go:187-204 | the page is the front of what is still to read and the cursor ends at its last event |
| CloneLoop.PreflightClone | cmd/mtix/sync_clone_check.go:72-101 | answers for the whole rest of the log: the first event that fails against the running clock, or none; the batch size does not matter |
| CloneLoop.FirstRefusedConcat | cmd/mtix/sync_clone_check.go:72-101 | a pass in two parts is one pass, with the clock carried over |
| CloneLoop.RetryCloneQuarantinedEvents | cmd/mtix/sync_pull_quarantine.go:288-406 | visits each quarantined row once in keyset order, and counts what it applied and dropped |
| CloneLoop.CloneLoop | cmd/mtix/sync_clone.go:181-231 | terminates; on success store, count, checkpoint and pull cursor are those of one fold over the rest of the log and one retry; on failure those of whole batches before a point |
| CloneLoop.CheckThenCloneInto | cmd/mtix/sync_clone_check.go:114-133 | refused by the check exactly for the first failing event, with nothing written; otherwise reset, then the loop |
| CloneLoop.RunSyncClone | cmd/mtix/sync_clone.go:107-160 | refuses a store with events unless resumed; resumes at the saved checkpoint; a refusal writes nothing |
| CloneProperties.FoldPartitions | cmd/mtix/sync_clone.go:250-282 | a batch of new events splits into applied and held, and its report counts the held |
| CloneProperties.RetryConserves | cmd/mtix/sync_pull_quarantine.go:375-406 | a retry loses nothing and leaves no pulled row of an applied event; from a separate store it drops nothing and each applied event is one row fewer |
| CloneProperties.FreshCloneConserves | cmd/mtix/sync_clone.go:181-231 | after a fresh clone each hub event is applied or quarantined and not both, the printed count plus the remaining orphans is the log's size, the pull cursor is at the last event |
| CloneProperties.ApplyClockIs | cmd/mtix/sync_clone.go:250-282 | the clock a clone reaches is the running clock of exactly the events it did not hold |
| CloneProperties.CheckAsksNoMore | cmd/mtix/sync_clone_check.go:62-101 | the check's clock is at least the apply's at every event and equal while nothing is held; a log that applies passes the check |
| CloneProperties.SafeFromRefusalIff | cmd/mtix/sync_clone.go:233-241 | before the clone begins: under every apply that never misses a task for the given sure events, a log is never refused part way exactly when every event passes the checks at the clock of the certain events before it, which the log alone gives |
| CloneProperties.NeverRefused | cmd/mtix/sync_clone_check.go:62-101 | a log whose events all pass at the store's own clock is refused neither by the check pass nor by a batch, whatever any apply does |
| CloneProperties.CloneIsAtLeastSure | cmd/mtix/sync_clone_orphan.go:55-88 | whatever tasks its events find, a clone holds only doubtful events, those not sure or behind a doubtful creation, and its clock is at least that of the others |
| CloneProperties.OnlySureIsRefused | cmd/mtix/sync_clone.go:233-241 | any log that fails that condition is refused by a clone in which only the sure events find their tasks |
| CloneProperties.CheckedCloneIsRefusedOnlyAfterAHold | cmd/mtix/sync_clone.go:233-241 | the diagnosis for one clone: after a passed check, a refused event has a held one before it, and the clock of the unheld ones is too low for it |
| CloneProperties.CheckCanPassARefusedLog | cmd/mtix/sync_clone.go:233-241 | a two-event log that passes the check and is refused by the apply |
| CloneRuns.StepInv | cmd/mtix/sync_clone.go:181-231 | every step of a clone but the two careless ones keeps: each event at or before the checkpoint is applied or held where a resume finds it |
| CloneRuns.CarelessBreaksTheCover | cmd/mtix/sync_clone_orphan.go:168-181 | a fresh start or a discard breaks that exactly when the log has an event at or before the checkpoint |
| CloneRuns.CrashedClonesLoseNothing | cmd/mtix/sync_clone.go:171-231 | over any run of crashes and resumes without a careless step the checkpoint covers, and a clone that finishes has the whole log, each event applied or held and not both |
| CloneRuns.CarelessRunLosesTheLog | internal/store/sqlite/sync_reconcile.go:63-183 | from any completed clone: discard, start, stop before the first page, resume: success with no event applied or held |
| CloneRuns.ResumedCloneHasTheLogIff | cmd/mtix/sync_clone.go:171-231 | from any store between clones, resumed clones that finish, after any crashes, have the whole log exactly when the saved checkpoint was covered |
| CloneRuns.CloneLoopIsARun | cmd/mtix/sync_clone.go:181-231 | what the loop leaves on success is the end of a run of the crash system |
| CloneRereads.ReadingAgainIsANoOpIff | cmd/mtix/sync_clone.go:206-215 | reading a committed page again changes nothing exactly when none of its applied events depends on a quarantined creation |
| CloneRereads.AppliedEventCanBeHeldAgain | cmd/mtix/sync_clone_orphan.go:55-88 | from an empty store, a checkpoint, an unlink and a held creation reach the other case: the unlink ends applied and quarantined |
| CloneRereads.FirstPageHoldsNoAppliedEvent | cmd/mtix/sync_clone_orphan.go:168-181 | before the first checkpoint it cannot: the reset drops what the page held, and no applied event is held by reading it again |
| CloneRereads.CommittedPagePasses | cmd/mtix/sync_clone.go:250-282 | every event of a committed page passes the checks at the clock the page left |
| CloneFates.BatchStopsIff | cmd/mtix/sync_clone.go:250-282 | a batch stops exactly at an event that is too large, too far ahead or malformed, or that the store turns down for a reason other than an absent parent, and names that event |
| CloneFates.OrphansNeverBreak | cmd/mtix/sync_clone_orphan.go:103-120 | where the store turns down only creations below an absent parent, no log breaks a batch |
| CloneFates.HeldIff | cmd/mtix/sync_clone_orphan.go:55-88 | an event is held exactly when a creation of a task it needs, by uid or number, is held before it or the dispatch has no task for it; otherwise its dispatch was applied |
| CloneFates.RetryTakesReady | cmd/mtix/sync_pull_quarantine.go:375-406 | a retry takes out exactly the pulled rows already applied or ready, and applies those |
| CloneFates.RetryDrains | cmd/mtix/sync_pull_quarantine.go:288-406 | when each pulled row is acceptable, waits for earlier ones alone and applies once those are applied, the retry applies all and leaves none |
| Conflicts.ReadPairRows | cmd/mtix/sync_conflicts_resolve_check.go:103-130 | the rows of the target's node and field in ledger order, each with its own-pair flag |
| Conflicts.LaterDecisions | cmd/mtix/sync_conflicts_resolve_check.go:77-98 | whether a row that takes part follows, the newest conflict that takes part, and whether that one is decided |
| Conflicts.CheckResolveTarget | cmd/mtix/sync_conflicts_resolve_check.go:29-54 | the verdict, with the id it names, as a statement without loops |
| Conflicts.AcceptedIffUnresolvedAndNewest | cmd/mtix/sync_conflicts_self_replay.go:63-93 | an lww target is accepted exactly when the query calls it unresolved and it is the newest conflict of its pair |
| Conflicts.RefusalAdviceIsRight | cmd/mtix/sync_conflicts_resolve_check.go:41-53 | the conflict it says to resolve instead would be accepted; "already resolved" means the pair has nothing unresolved |
| Conflicts.InertRowsTakeNoPart | cmd/mtix/sync_conflicts_resolve_check.go:56-71 | self-replay rows and the decisions on own pairs change no flag and no verdict of any other row |
| ConflictRuns.ConflictStore.Record | internal/store/sqlite/sync_apply_lww.go:238-242 | appends one row with a fresh id, an empty field as NULL; changes no other row's flag, and is unresolved exactly as a genuine lww conflict |
| ConflictRuns.ConflictStore.LookupConflict | cmd/mtix/sync_conflicts.go:352-367 | the row of that id as the command sees it, or none |
| ConflictRuns.ConflictStore.Resolve | cmd/mtix/sync_conflicts.go:263-278 | appends exactly one decision when the check accepts, which closes an lww row's pair and leaves every other flag; otherwise the ledger is unchanged |
| ConflictRuns.ConflictStore.ReadConflicts | cmd/mtix/sync_conflicts.go:329-350 | the chosen rows in ledger order, each with its flags |
| ConflictRuns.ListShowsExactlyUnresolved | cmd/mtix/sync_conflicts_self_replay.go:63-93 | the list shows exactly the unresolved rows of the chosen node, with `--all` every row of it, each with its flags |
| ConflictRuns.OpenIff | cmd/mtix/sync_conflicts_self_replay.go:63-93 | by the events log alone: a conflict between two of this store's own events is never open and never accepted; any other is open until a decision that takes part, and accepted until a later row that does |
| ConflictRuns.AcceptedConflictClosesPair | cmd/mtix/sync_conflicts.go:263-278 | after an accepted resolve of an lww row its pair has nothing unresolved and every other pair's flags are as before |
| ConflictRuns.DecisionClosesItsPair | cmd/mtix/sync_conflicts.go:372-385 | a decision changes the flags of its own pair only, and closes only conflicts recorded before it |
| ConflictRuns.RecordingOpensOnlyItself | cmd/mtix/sync_conflicts_self_replay.go:52-62 | a later genuine conflict is unresolved and reopens no other row |
| ConflictRuns.VerdictFromBoard | cmd/mtix/sync_conflicts_resolve_check.go:29-54 | whether a resolve is accepted follows from one number a pair |
| ConflictRuns.RunsFollowTheBoard | cmd/mtix/sync_conflicts.go:263-278 | over every run of the ledger from empty the query shows exactly the open rows of the reference machine |
| Coalescing.CoalescingRunner.Trigger | cmd/mtix/addressed_push_run.go:163-173 | starts the loop exactly when none runs, else marks dirty |
| Coalescing.CoalescingRunner.Turn | cmd/mtix/addressed_push_run.go:175-190 | goes round again exactly when dirty, and clears it; else the runner is idle |
| Coalescing.CoalescingRunner.Loop | cmd/mtix/addressed_push_run.go:175-190 | one more job for each job during which a trigger arrived, and the loop ends idle |
| Coalescing.JobsForCounts | cmd/mtix/addressed_push_run.go:175-190 | from a clean start that is one job and one more for each of the first jobs in a row that a trigger arrived in |
| Coalescing.IdleHasServedAll | cmd/mtix/addressed_push_run.go:149-190 | over all interleavings jobs never overlap, starts never outnumber triggers, and an idle runner has no trigger without a later start |
| Coalescing.EveryTriggerIsServed | cmd/mtix/addressed_push_run.go:149-190 | in every interleaving, and whatever triggers follow, a job starts within three runner steps of a trigger, and until it does the runner can step |
| Coalescing.OwedStartComes | cmd/mtix/addressed_push_run.go:175-190 | an owed start comes within its distance in runner steps, whatever triggers keep arriving |
| Coalescing.QuietRunnerGoesIdle | cmd/mtix/addressed_push_run.go:149-190 | once triggers stop, every schedule is idle after a known number of steps with exactly the owed starts |
| Coalescing.BurstAddsOneRun | cmd/mtix/addressed_push_run.go:149-153 | a burst of any length adds exactly one run to a running runner, none when a rerun is owed |
| PushOutcome.SplitJoin | cmd/mtix/addressed_push.go:224-254 | splitting on the comma undoes joining |
| PushOutcome.OutcomeSays | cmd/mtix/addressed_push.go:191-217 | the class written for an outcome splits back into exactly the halves that failed, and the record is OK exactly when none did |
| PushOutcome.ClassNamesTheCause | cmd/mtix/addressed_push.go:191-217 | whoever splits the class finds a cause's name exactly when it is the first that the hub's failure wraps, and the relay's exactly when that half failed |
| PushOutcome.PushRecord.ResolveAddressedPush | cmd/mtix/addressed_push.go:224-254 | clears the parts of one half; a record without such a part is untouched |
| PushOutcome.RecordSaysWhatStillFails | cmd/mtix/addressed_push.go:194-254 | over any run of outcomes and resolves the class splits into exactly the halves still failed, and OK means neither |
| PushOutcome.ResolvedSays | cmd/mtix/addressed_push.go:219-254 | a resolve clears its own half only; a record it changes is to be shown again, and takes the new time exactly when it becomes OK |
| PushOutcome.ResolvesCommute | cmd/mtix/addressed_push.go:224-254 | for every record the two resolves commute, up to the recorded time |
| PushOutcome.PushWaitingForLock | cmd/mtix/addressed_push_run.go:118-147 | tries only while the lock is held, a bounded number of times, and succeeds exactly when the last try had nothing to push or drained the queue |
| PushOutcome.RunAddressedSendPush | cmd/mtix/addressed_push_run.go:82-111 | a cancelled run records nothing, nor one that cannot write; the record is OK exactly when both halves succeeded and no deadline cut the push short |
| Listener.EnsureListener | cmd/mtix/listener_join.go:120-132 | spawns exactly when the lock is free |
| Listener.Recheck | cmd/mtix/listener_join.go:165-177 | unclamped it ends with the lock seen held, a listener spawned, or a failure; clamped it changes nothing |
| Listener.KeepAlive | cmd/mtix/listener_join.go:142-158 | a failure is printed exactly at the start of each streak of failed attempts, a restart for every spawn |
| Listener.ReportsAreSeparated | cmd/mtix/listener_join.go:162-177 | between two printed failures some attempt succeeded |
| Listener.Join | cmd/mtix/listener_join.go:83-116 | the lease comes before the attempt, no attempt while clamped, one line at most |
| Listener.ReportsAreStreaks | cmd/mtix/listener_join.go:142-177 | the failures the keep-alive loop prints number exactly the streaks of its failed attempts |
| Listener.JoinRepeatsAFailureIff | cmd/mtix/listener_join.go:106-107 | Join and its rechecks together print one failure a streak, and one more exactly when Join's attempt and the first recheck both fail |
| Listener.LeaseIsThereWhileWaiting | cmd/mtix/listener_join.go:108-115 | in every interleaving no lease write follows the removal, and until then the lease is there |
| Listener.CrashedLeaseExpires | internal/oplocal/hub_contact.go:53-78 | nothing writes a crashed waiter's lease again, and it expires one lease life after the latest time seen, however the clock stepped |
| Listener.RefreshedLeaseLivesIff | internal/oplocal/hub_contact.go:53-78 | a refreshed lease is live exactly from five minutes before the latest time in it to fifteen after, wherever the clock is set |
| Listener.ArmedLeaseLivesIff | internal/oplocal/hub_contact.go:53-78 | and so is one not refreshed yet, from its arming |
| Listener.LeaveCanAlwaysGoOn | cmd/mtix/listener_join.go:109-115 | from every state leave can reach the removal |
| DaemonLock.DaemonOwner.Release | cmd/mtix/daemon_owner.go:80-114 | removes the marker exactly when it names this owner and can be removed, and frees the lock; a second release does nothing |
| DaemonLock.AcquireDaemonOwnership | cmd/mtix/daemon_owner.go:29-52 | held exactly when the file opens and closes and another has the lock; owned exactly when it is free and the marker is published, and then lock and marker name this process; a failed publication gives the lock back; nothing else changes a file |
| DaemonLock.DaemonOwnershipFor | cmd/mtix/listener_run.go:65-74 | gives way exactly when all six acquisitions found the lock held and the marker can be read; else the first that did not decides |
| DaemonLock.OneOwner | cmd/mtix/daemon_owner.go:29-52 | over all interleavings at most one process has the lock, and a published owner's marker names it |
| DaemonLock.WhoChangesTheMarker | cmd/mtix/daemon_owner.go:98-114 | the marker changes only by the daemon that has the lock; it is removed only by the process it names, in its own release |
| DaemonLock.OwnerStaysNamed | cmd/mtix/daemon_owner.go:20-52 | over any run, until its own release begins, a published owner owns the board and is named |
| DaemonLock.ProbeAnswer | cmd/mtix/listener_spawn.go:22-36 | a probe changes no marker, always sees a daemon, and is wrong exactly while another probe has the lock |
| DaemonLock.TurnedAwayIff | cmd/mtix/listener_run.go:60-74 | over any run, a start is turned away exactly when it made its six attempts and some process had the lock at each |
| DaemonLock.OnlyProbesTurnAway | cmd/mtix/listener_run.go:60-74 | on a board no daemon holds at those attempts, exactly when a probe has the lock at all six |
| DaemonLock.ProbeCanTurnADaemonAway | cmd/mtix/listener_run.go:54-74 | a probe that keeps the lock through the attempts turns the start away |
| DaemonLock.AcquireIsARun | cmd/mtix/daemon_owner.go:29-52 | the owner object's start is a run of the system |
| DaemonLock.ReleaseIsARun | cmd/mtix/daemon_owner.go:80-97 | and so is its release: from an owner of any run it frees the lock and, when it can read and remove it, leaves no marker |
| DaemonLock.CrashedHolderIsReplaced | cmd/mtix/daemon_owner.go:20-52 | any holder can crash, and the next start owns the board at its first attempt, whatever the marker says |
| ShellQuote.ShellQuoteRoundTrip | cmd/mtix/doctor_glue_fixes.go:28-30 | a shell reads the quoted text as the single word it quotes exactly when it has no NUL |
| ShellQuote.CommandReads | cmd/mtix/doctor_glue_fixes.go:28-30 | a command of plain words, quoted texts and operators one blank apart reads as exactly those |
| ShellQuote.UnreadableUnitFix | cmd/mtix/legacy_service.go:77-83 | the fix reads as ls, -l, -- and exactly the paths |
| ShellFixes.LanesAreTheRows | cmd/mtix/doctor_glue_fixes.go:106-136 | the commands are for exactly the rows whose id is one letter or digit and up to 127 letters, digits, dots, colons, dashes and underscores, each once |
| ShellFixes.NamesHarnessIff | cmd/mtix/doctor_glue_fixes.go:106-140 | a harness is named exactly when it is a lower-case letter and up to 31 more, digits and dashes, and not `unknown` |
| ShellFixes.StrandedRegisterFix | cmd/mtix/doctor_glue_fixes.go:124-147 | the shell reads one register command a lane, in order, joined by semicolons; no untrusted id adds a word or an operator |
| Patterns.TakesLongest | cmd/mtix/legacy_unit.go:20-23 | a greedy repetition takes the longest text after which the rest matches |
| UnitFiles.UnitProjectRoot | cmd/mtix/legacy_unit.go:77-96 | the first capture of the plist pattern, else of the systemd pattern, within the read limit |
| UnitFiles.PlistRoundTripIff | cmd/mtix/daemon_service.go:68-87 | the launchd unit's pattern recovers exactly the project directory if and only if it has no bracket, and then the reader answers it |
| UnitFiles.BlanksAreCrossed | cmd/mtix/legacy_unit.go:20-23 | the plist pattern reads the directory across any blanks, or none |
| UnitFiles.SystemdFinds | cmd/mtix/legacy_unit.go:20-23 | what is read instead: the directory from the flag's last place in it on |
| Patterns.FoundIsOf | cmd/mtix/legacy_unit.go:20-23 | whatever the text, what a pattern finds is one text of its capture's class |
| UnitFiles.SystemdRoundTripIff | cmd/mtix/daemon_service.go:106-119 | the systemd unit is read back as exactly the project directory if and only if the interval is not negative and the directory has no newline and no further flag with text behind it, unless the text reads as a property list, which without a bracket it does not |
| UnitFiles.UnitRunsProject | cmd/mtix/legacy_unit.go:48-73 | found exactly when some readable candidate names the project; exactly the unreadable candidates are reported |
| UnitFiles.InstalledUnitIsFound | cmd/mtix/legacy_unit.go:45-73 | a systemd unit the installer wrote for a project is found for every name of its directory |
| DaemonArgs.FollowedByServiceVerb | cmd/mtix/legacy_identity.go:129-142 | the loop computes the recursive rule for the first word that is neither a flag nor a flag's value |
| DaemonArgs.RunsDaemon | cmd/mtix/legacy_identity.go:99-115 | the loop computes the recursive classification of the words after the program |
| DaemonArgs.ClassifiesEveryLine | cmd/mtix/legacy_identity.go:91-142 | every daemon line of the grammar is classified as a daemon; one with a service verb is so exactly when an earlier value is the word daemon |
| DaemonArgs.OtherCommandIff | cmd/mtix/legacy_identity.go:94-115 | any other subcommand is classified as a daemon exactly when an earlier value is the word daemon, or it reads as the value of the flag before it and the words after it classify so |
| DaemonArgs.FirstPlainWordDecides | cmd/mtix/legacy_identity.go:118-142 | after the daemon word the first word that is neither a flag nor a flag's value decides, a lone dash included |
| DaemonArgs.NoDaemonWordNoDaemon | cmd/mtix/legacy_identity.go:99-115 | a line without the daemon word is never a daemon's |
| TakeOverLog.FilterInPlace | cmd/mtix/agent_registration_session.go:262-267 | the filter over the same array keeps exactly the entries after the cutoff, in order |
| TakeOverLog.OperatorTakeOverLog.Append | cmd/mtix/agent_registration_session.go:257-272 | the pruned entries and the new one, or the file as it was |
| TakeOverLog.OperatorTakeOverLog.Recent | cmd/mtix/agent_registration_session.go:242-254 | the entries of this board and agent since that time, in order |
| TakeOverLog.PrunedIsUndropped | cmd/mtix/agent_registration_session.go:257-272 | whatever the boards and clocks, the file is the whole log less the entries that a later append came a day after |
| TakeOverLog.RecentIsCompleteIff | cmd/mtix/agent_registration_session.go:242-272 | a query is answered like on the whole log exactly when no matching entry was so dropped |
| TakeOverLog.RecentRefinesTheFullLog | cmd/mtix/agent_registration_session.go:242-272 | every query for less than a day before the latest appended time is answered in full |
| TakeOverLog.TheLimitCountsAll | internal/service/registration_service.go:262-287 | the take-over limit counts every take-over of its hour unless an entry is dated 23 hours ahead |
| TakeOverLog.ADayLaterDrops | cmd/mtix/agent_registration_session.go:257-272 | the bound is tight: an entry a day later, of any board, drops one |

## Left out

- The hub's log is fixed during a clone; events pushed meanwhile with a clock below the cursor belong to the late-event sweep, which is not part of this model.
- The dispatch of an event to tasks, last-writer-wins, the acknowledgement of a store's own events and vector clocks: any function stands for them.
- A `sync pull`, or an acknowledged quarantine row, between an interrupted clone and its resume.
- The quarantine retry commits a page of rows at a time; the model commits each row, which only adds places to crash.
- Event ids are ranks in the hub's collation, and task numbers lack the project prefix; provisional numbers are not modelled.
- CollisionProtocol.Enabled: other work may change a store in any way, and pull in a contestant it has not, but does not renumber a contestant it has; a move that another client made and this one pulls is not part of this model.
- CloneProperties.SafeFromRefusalIff: exact over every apply that finds a task for the sure events; which tasks the other events find is not modelled, so a log that fails the condition can still be applied by a clone that finds them.
- UnitFiles.SystemdRoundTripIff: a program path with a newline or a bracket is not covered; such a path writes extra lines or markup into the unit.
- CloneLoop.CloneBatch: a checkpoint that cannot be written is the crash before it in `CloneRuns`.
- TaskStore.Store.RenumberForHubRejection: does not model the requeue of the create, the re-addressing of pending events and the raised counters of the same transaction, because no step of the protocol reads them.
- UnitFiles.PlistRoundTripIff: the rest of the property list after the project directory's string is any text, since the reader never looks past that string.
- DaemonArgs.ClassifiesEveryLine: flags of one word are any dashed words that take no value, a larger family than the command tree's; abbreviations and the double dash are not in the grammar.
- ShellQuote.CommandReads: double quotes, expansions and here-documents are outside the tokeniser, which rejects them.
- Walking the process table, resolving symbolic links, service-manager commands, flock, pg_dump, HTTP and MCP serving.
- Pruning of `sync_events`, and two processes that renumber one store at once.
- ContactScheduler, the listener's exit rule over loaded settings, doctor rows and other presentation: they would add only easy members.
- The other git commands doctor prints are built from the same quoting.
