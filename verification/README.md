# LocalBook: a verified model

LocalBook is a local server over a directory of Markdown notes. These Dafny modules model the parts of it
whose correctness is hard to see from the code, and prove what they are for.

- **Jobs and recovery** (`Vault`, `Transactions`, `HistoryStore`, `PlannedSteps`, `Executions`, `Executor`,
  `WriteAhead`, `Recoverability`, `Recovery`, `CrashRecovery`, `UndoJob`, `Policy`, `JobProgress`,
  `JobStanding`, `AgentJobs`, `AcceptReplies`, `JobService`, `Base64`). A job is a list of create, update and move steps. Each
  step is journaled before it writes, each vault call carries the digest it expects, a failure rolls back in
  reverse, a committed job can be undone and a crashed one recovered. The vault is a map from paths to bytes
  shared with other writers: `Store.edits` says what they do before each call, `Store.faults` which calls fail,
  before their effect or behind it. Ghost fields log every durable state gone through, which is what a crash
  could leave, and every content one of our calls destroyed.
- **Derived index** (`Names`, `Sorting`, `Basenames`, `LinkResolution`, `Backlinks`, `Watching`,
  `DerivedIndex`). Debounced watcher events, two basename maps kept incrementally, links resolved through
  them, and a materialised table of backlinks. `World.script` lets other writers change the disk before every
  access, so that the convergence result covers changes during a rebuild or a flush.
- **Reader sync** (`SyncOutbox`, `SyncLoss`, `ReaderSync`). An outbox that devices page through behind a cursor
  while others push.
- **Text** (`Strings`, `Hunks`, `SummarySections`, `FrontMatter`, `TagEdits`, `TagLaws`, `TagReading`,
  `TagScan`, `CodeRanges`, `NoteExport`). Hunks at a running offset, format-preserving tag edits, bounded sections,
  code ranges, and the export of a note in two forms.
- **Graph and runtime** (`NoteGraph`, `RuntimeGate`, `RuntimeRuns`, `Runtime`). Depth-bounded search around a
  note, paging, and the gate between requests and settings changes.

Where the source updates state, the model has classes and methods with loops, each proved against a function
or a predicate on values; what the source promises is then proved of those. `dafny verify dfyconfig.toml`
checks everything.

Six promises hold only under a condition the code does not check. Each is proved with its exact condition and an
input on which it fails:

- A job that ends in a conflict or rolled back has left no trace exactly if its forward run did not end in a call
  that raised behind an effect that changes bytes (`Executor.Execute`, `Executor.TornStepStays`).
- Crash recovery gives back the files before an accept exactly if each row whose file shows a change, as its hashes
  tell, is live when it is the accept's own, and not live when an earlier accept left it. It fails both ways: rows
  are replaced by sequence number, so that an earlier accept's actions can be taken back too, and a failed rollback
  marks its rows, so that its own are left (`JobService.RecoverCrashedAccept`, `JobService.ServeCrashRecover`,
  `CrashRecovery.LaterCrashTakesEarlierBack`, `CrashRecovery.FailedRollbackStays`).
- The retry of a failed recovery restores nothing: it ends with the files before the job exactly if no file shows a
  change of a row that was live when recovery began (`Recovery.RecoverAndRetry`, `Recovery.RetryKeepsCreatedNote`).
- A sync that follows its cursor loses no row exactly if no row behind the end of a page has an id at or below that
  page's last, and no row is pushed that is older than the cursor. For pages of one row this means that timestamps
  never fall; the reading device's own rows do not matter (`ReaderSync.Client.PullAll`, `ReaderSync.PushLoses`,
  `SyncLoss.OneRowPages`, `ReaderSync.BackwardClockLosesRow`).
- A settings edit undoes no other in any run exactly if the revision it quotes is there when the edit is built,
  which is before the gate is entered, server/runtime.py:412-423 (`RuntimeRuns.LosesExactly`,
  `Runtime.FutureQuoteLosesEdit`).
- Hunks sort into a chain, which the loop replaces at once where the original has them, exactly if they are apart;
  an insertion given behind a replacement that starts at the same place is not (`Hunks.ApartSorts`,
  `Hunks.InsertionInside`).

The docstring of `_page_response` speaks of dropping edges only on truncated pages; the code drops edges that
leave the page on every page, and the model does so too. The docstring of `_frontmatter_span` lets the span
end at the newline before the closing delimiter; the code ends it behind that newline. The comment on inline
code in `_code_ranges` speaks of a run of exactly as many backticks; the code also stops inside a longer run.

## Model

| member | source | states |
|---|---|---|
| `Base64.RoundTrip` | server/recovery/journal.py:22-28 | the stored text of before-bytes decodes to exactly those bytes, for every byte string (padding included) |
| `Base64.DecodesExactly` | server/recovery/journal.py:26-28 | a text decodes exactly if it is whole groups of four, of symbols and at most two padding signs at the end, and to three bytes for each group less the padding |
| `Vault.OnlyExpectedBytesLost` | server/vault/service.py:375-404 | a vault call replaces or removes bytes only at its own path and only when it was given their digest; create and read lose nothing |
| `Vault.Refusals` | server/vault/service.py:343-411 | which calls fail, and how: for each error exactly the cases it stands for; a failed call changes nothing |
| `Transactions.BeforeDecodes` | server/recovery/journal.py:30-49 | a step's before-bytes are recovered from its row alone |
| `Transactions.CallsInvert` | server/recovery/executor.py:141-168 | the guarded inverse of each of create, update and move gives back the very files before it, not just the touched path |
| `Transactions.InverseUndoesStep` | server/recovery/executor.py:130-168 | taking an applied step back, from the step or from its row, gives the files before it; both build the same call, and the digest the write left is the one the row recorded beforehand |
| `Transactions.RestoreAllInvertsRun` | server/recovery/undo.py:48-51 | restoring the rows of a whole run last to first, from the rows alone, gives the files before the run, also when steps share paths |
| `Transactions.ReportedAreTouched` | server/recovery/executor.py:118-122 | the paths a rollback reports are exactly those its steps touch |
| `HistoryStore.LossIsGuarded` | server/vault/service.py:673-704 | whatever a write, delete or move destroys had the expected digest and lay at the call's path |
| `HistoryStore.Store.constructor` | server/history/repository.py:170-183 | a restarted process sees exactly the files, journals and records the previous one left |
| `HistoryStore.Store.Do` | server/vault/service.py:343-411 | one vault call among other writers: they act first, then the call happens atomically, or fails before its effect, or raises with its effect in place; the durable states gone through and every overwritten content are logged |
| `HistoryStore.Store.Read` | server/vault/service.py:315-323 | a read answers the current digest and changes nothing of ours |
| `HistoryStore.Store.TryRead` | server/agents/service.py:334-339 | content and digest, or nothing on any failure |
| `HistoryStore.Store.Revert` | server/recovery/executor.py:141-179 | a guarded inverse with the check that a deleted file is gone; it loses only bytes with the expected digest, and on an undisturbed vault it succeeds fully or changes nothing |
| `HistoryStore.Store.AddJournal` | server/history/repository.py:147-168 | insert-or-replace under (job, sequence number); all other rows and jobs stay |
| `HistoryStore.Store.SetJournalState` | server/history/repository.py:185-189 | every row of the job gets the state, nothing else changes |
| `HistoryStore.Store.Save` | server/history/repository.py:63-94 | upsert of the job row that keeps the journal |
| `Executor.RecoveryJournal.Record` | server/recovery/journal.py:68-77 | the row is stored exactly when the before-texts of the execution, it included, stay within the cap; a refused row changes nothing stored |
| `Executor.InverseReply` | server/recovery/executor.py:141-168 | the reply to the inverse of an applied step passes the executor's own verification of it |
| `Executor.PerformKeepsApart` | server/recovery/executor.py:141-168 | a guarded inverse that works on two different vaults leaves two different vaults, so that a rollback cannot hide a step that was applied but not executed |
| `Executor.UndoOne` | server/recovery/executor.py:141-168 | takes one executed step back exactly, or leaves the files as they were or taken back, and then some vault call failed; destroys only the content that step left |
| `Executor.Rollback` | server/recovery/executor.py:93-127 | steps taken back last to first: the initial files, and the reported paths; on an undisturbed vault it reports success only if no call fails and stops where one does; from files other than the executed steps' it never reaches the initial ones, but leaves each independent step applied or not |
| `Executor.RecordNext` | server/recovery/executor.py:51-52 | the row of the next step is stored ahead of its write, or the cap is reached |
| `Executor.Apply` | server/recovery/executor.py:71-91 | one step's write: applied exactly or not at all, also when its call raises; only the step's own content is destroyed |
| `Executor.ForwardStep` | server/recovery/executor.py:51-54 | row, then write; each durable state in between is a journaled prefix of the run |
| `Executor.Forward` | server/recovery/executor.py:49-54 | the executed steps are a prefix of the job, the files are the fold of that prefix, and it stops short only if the run fails or a vault call does |
| `Executor.Settle` | server/recovery/executor.py:55-65 | how a run ends: committed, conflict before any write, rolled back, or rollback failed |
| `Executor.Execute` | server/recovery/executor.py:40-65 | atomicity for any steps, overlapping paths included: the executed steps are those before the first one whose row is refused, whose call fails or which does not apply; COMMITTED is the fold of all steps; CONFLICT and ROLLED_BACK leave the initial files exactly if that first one's call did not raise behind an effect that changes bytes; ROLLBACK_FAILED takes such a call or a failing call of the rollback; every row gets the mark of the end; in every state logged, each of independent steps is applied or not; with other writers only the steps' own before or after content is ever destroyed |
| `Executor.TornStepStays` | server/vault/service.py:343-411 | a concrete input: a create that raises behind its effect is reported as a conflict before any write, with the note in place |
| `WriteAhead.ChangedIsCovered` | server/recovery/executor.py:51-54 | a path that differs from the start is covered by the row of the first step that touched it |
| `WriteAhead.EveryChangeIsJournaled` | server/recovery/journal.py:68-80 | in every durable state a run leaves, a failed rollback included, each changed path has a stored row with its before-state, live in all states ahead of that; the stored base64 lengths sum to at most the cap |
| `Executions.PrefixOfDisjoint` | server/policies/engine.py:263-273 | of pairwise disjoint planned steps any prefix applies, each applied step shows its after-content and every other path its initial one |
| `Executions.PassingIsScattered` | server/recovery/executor.py:49-65 | so in every state of a run each step is applied or not, and nothing else has changed |
| `Executions.SpreadBack` | server/recovery/executor.py:93-127 | an applied one of independent steps can be taken back alone, whichever others are applied |
| `Recoverability.ChangedExactly` | server/recovery/service.py:163-181 | from hashes alone: a step that is applied or not has changed something exactly when the file has the row's after-hash and, for an edit, that is not its before-hash |
| `Recoverability.NoClash` | server/recovery/service.py:167-181 | in a recoverable state the classification never calls a step changed by others, and tells applied from unapplied steps rightly |
| `Recoverability.RestoredIsRecoverable` | server/recovery/service.py:245-269 | restoring one applied step works, passes its verification, touches no other step, and leaves a state recovery can start from |
| `Recoverability.OursInExactly` | server/recovery/service.py:140-181 | the list recovery restores holds exactly the live rows whose file still has the job's content, in journal order |
| `Recoverability.RemainingAtStart` | server/recovery/service.py:163-187 | at the start of the second pass that list is exactly the applied steps |
| `Recoverability.RemainingStep` | server/recovery/service.py:192-210 | restoring its last row leaves exactly the others applied |
| `Recoverability.RemainingNone` | server/recovery/service.py:192-223 | once the list is worked off, the files are the initial ones |
| `Recovery.Classify` | server/recovery/service.py:163-181 | the first pass writes nothing; without conflicts it lists exactly the rows to restore; the conflicts are exactly the paths of rows with somebody else's content or whose read failed, in order |
| `Recovery.RestoreEntry` | server/recovery/service.py:245-279 | one verified inverse; destroys only the content the row recorded |
| `Recovery.RestoreNext` | server/recovery/service.py:192-210 | one restored row is followed by one audit row at the next sequence number |
| `Recovery.RestoreRows` | server/recovery/service.py:189-211 | the second pass: reverse order, audit rows and reported paths as listed down to the row where it stops, which is the first with a failing call; the rows behind it are restored and at most its own files are taken back; every state on the way recoverable |
| `Recovery.AuditsLength` | server/recovery/service.py:191-210 | one audit row per restored row |
| `Recovery.ClashesAre` | server/recovery/service.py:163-181 | the conflict paths are exactly those of rows whose file has content that is neither the job's nor what it found, or whose read fails |
| `Recovery.ReachedSays` | server/recovery/service.py:192-210 | the rows behind the one where the second pass stops are restored, one after the other; it stops ahead of the first row only at a failing call or a row that cannot be restored |
| `Recovery.ReportSays` | server/recovery/service.py:205-209 | the report names exactly the paths the restored rows put back, a move's source too, and none twice if their own paths are apart |
| `Recovery.FinishRecord` | server/recovery/service.py:225-243 | closes the job's record, a missing one stays missing |
| `Recovery.RestorePhase` | server/recovery/service.py:189-223 | what the second pass reports, names as failed and leaves in journal, record and vault: after a full restore the record is closed; after a failure it stays flagged |
| `Recovery.TwoPasses` | server/recovery/service.py:163-223 | a conflict means that nothing at all was written, and occurs exactly when some live row's file has content the job neither wrote nor found |
| `Recovery.RollbackIfSafe` | server/recovery/service.py:103-223 | explicit recovery with all its exits: refused exactly for a missing record or, by name, one that waits, is done or was refused; nothing journaled closes the job as failed; a conflict names exactly the rows somebody else changed or whose read failed, with nothing written; else the second pass restores the others in reverse, down to the first with a failing call, with the files before the job if there is none, and with other writers destroys only what the job wrote |
| `Recovery.MarkedNotLive` | server/recovery/service.py:140-146 | rows marked rolled back are never restored again |
| `Recovery.MarkRecoveryRequired` | server/recovery/scanner.py:105-145 | what a restart does first: unfinished jobs are marked as needing recovery, one by one, and nothing else changes |
| `Recovery.RecoverAndRetry` | server/recovery/service.py:147-223 | a recovery and, if it failed, its retry: the retry restores nothing and closes the job, with the files before the job exactly if no file has the after-hash of a row that was live when recovery began, an edit's after-hash that is its before-hash aside |
| `Recovery.Retry` | server/recovery/service.py:140-161 | on rows marked rolled back recovery touches nothing and reports success |
| `Recovery.RetryKeepsCreatedNote` | server/recovery/service.py:192-196 | a concrete input: a crash state with a created note, a recovery whose deletion fails, and the retry, which reports success with the note still there |
| `Recovery.RecoverFrom` | server/recovery/service.py:103-223 | restarted on a resumable state, with unfinished jobs marked first, recovery gives back the files before the job, and an interrupted recovery can itself be recovered |
| `CrashRecovery.PastStays` | server/history/repository.py:147-168 | at the paths of earlier accepts' steps whose rows are still there, an execution changes nothing, a repeated edit without effect included |
| `CrashRecovery.StepRecovers` | server/recovery/service.py:189-223 | recovery leaves a journaled step's paths as planned on if its row is live, and else as it finds them |
| `CrashRecovery.ScatteredIsRecoverable` | server/recovery/executor.py:49-65 | a crash in any state of an execution, in a torn or failed rollback and behind its marks too, whatever rows earlier accepts left, is one recovery can start from |
| `CrashRecovery.RecoversExactly` | server/recovery/service.py:140-161 | recovery leads to the files before the execution exactly if each row whose file shows a change is live when it is the execution's own, and not live when an earlier accept left it |
| `CrashRecovery.ExecuteCrashRecover` | server/recovery/service.py:103-223 | an execution with any failing calls, a crash in any state it starts from or logs, a restart that marks the job, and recovery: the files before the execution are back exactly under that condition on rows and hashes |
| `CrashRecovery.LaterCrashTakesEarlierBack` | server/history/repository.py:147-168 | a concrete input: a first accept creates a note, a second one crashes at its start, recovery deletes the first one's note |
| `CrashRecovery.FailedRollbackStays` | server/recovery/executor.py:101-106 | a concrete input: of two creates the second fails, the rollback of the first fails too and marks all rows, and the process dies; recovery restores nothing and reports success |
| `UndoJob.RestoreOne` | server/recovery/undo.py:66-110 | one row undone after a check of the current content: on a quiet vault it is restored, a conflict, or an escaping vault error exactly as row, files and failing calls say; a row whose file was changed or cannot be read is left as it is; destroys only the content the row recorded |
| `UndoJob.AuditTells` | server/recovery/undo.py:66-136 | after a row is restored its audit row names the path that got its content back, with the digest found there if the restore passes its check, and none for a created file |
| `UndoJob.StopSays` | server/recovery/undo.py:48-51 | the rows behind the one where undo stops are restored, and that one cannot be undone or one of its calls fails |
| `UndoJob.StopsAtChanged` | server/recovery/undo.py:89-101 | without failing calls, undo stops with a conflict at the first row from the end whose file does not have its after-hash, on the files with the rows behind it restored |
| `UndoJob.UndoAuditsAt` | server/recovery/undo.py:113-136 | the audit row of each restored step, at a fresh sequence number, in reverse order |
| `UndoJob.PathsBackAt` | server/recovery/undo.py:48-51 | the restored paths are listed last row first |
| `UndoJob.RestoreAllRows` | server/recovery/undo.py:45-59 | rows restored in reverse with one audit row each until one does not restore, which on a quiet vault is where journal, files and failing calls say |
| `UndoJob.UndoExecuted` | server/recovery/undo.py:38-60 | on a quiet vault the answer is told from journal, files and failing calls: CONFLICT with the path of the row where undo stops and the paths restored behind it, or an escaping vault error; after a committed run undo gives the files before the run; an audit row bars the next attempt |
| `UndoJob.UndoFromJournal` | server/recovery/undo.py:30-60 | undo from the rows alone, with those answers; refused, without a single write, exactly for an empty journal or one with an audit row |
| `UndoJob.UndoTwice` | server/recovery/undo.py:39-44 | a second undo writes nothing |
| `UndoJob.UndoInvertsCommit` | server/recovery/undo.py:30-60 | a committed execution on an untouched vault, undone: the exact pre-job vault, one audit row per step at fresh sequence numbers, and a second undo changes nothing |
| `Policy.CountShared` | server/policies/engine.py:265-273 | a path is counted more than once exactly when two actions mutate it |
| `Policy.ConflictingPaths` | server/policies/engine.py:263-273 | exactly the paths that two actions mutate; empty exactly when the actions are pairwise disjoint |
| `Policy.EvaluateSet` | server/policies/engine.py:275-364 | deny precedence: a set that is not denied is non-empty, within budget, pairwise disjoint and admissible on its facts, and a denied set breaks one of the rules |
| `JobProgress.StepOfTouches` | server/policies/engine.py:256-261 | the step of an action touches exactly the paths policy counts for it |
| `JobProgress.AppliedIsCarriedOut` | server/agents/tools.py:207-300 | a planned step is applied exactly if the new note holds the action's content, the edited file what the edit makes of its planned content, or the target what the moved file held, with that file gone |
| `JobProgress.ProgressFulfils` | server/agents/service.py:507-565 | where a job has got to, applied actions are carried out, and at paths that no action names nothing has changed |
| `JobProgress.ApplyOne` | server/agents/service.py:515-545 | an action of a planned set is applied now, and if it changes bytes it had not been applied before |
| `JobProgress.ApplyMany` | server/agents/service.py:530-552 | the same for an accepted list of actions |
| `JobProgress.NothingChanged` | server/agents/service.py:593-639 | where nothing that changes bytes was applied, the vault is the plan-time vault |
| `AgentJobs.SelectMembers` | server/agents/service.py:866-878 | exactly the proposed actions that are wanted |
| `AgentJobs.SelectDistinct` | server/agents/service.py:866-878 | each once, in order; as many as proposed means all of them |
| `AgentJobs.PreflightOne` | server/agents/service.py:310-434 | one action's facts and step, read from the vault; without a step policy denies the action; without failing reads the facts are those of the files, and the action is invalid exactly if its text does not admit the edit |
| `AgentJobs.Preflight` | server/agents/service.py:282-302 | the same for each action of a set, invalid exactly if some action is |
| `AgentJobs.AssertPreviewHashes` | server/agents/service.py:568-591 | when it passes, every previewed file still has its previewed content; without failing reads it passes exactly then |
| `AgentJobs.FreshStep` | server/agents/service.py:568-591 | on a fresh preview an action asks for exactly the step it was planned with |
| `AgentJobs.AcceptKeepsOnce` | server/agents/service.py:593-634 | adding an accepted list keeps every byte-changing action executed at most once |
| `AgentJobs.PartialAccept` | server/agents/service.py:602-634 | an accept that leaves actions out keeps the job waiting, with its actions applied and its rows ahead of those earlier accepts left |
| `AgentJobs.FullStartsAtPlan` | server/agents/service.py:602-634 | an accept of everything can only succeed from the plan-time files |
| `AgentJobs.FullAccept` | server/agents/service.py:624-634 | it commits the whole plan, journaled for undo |
| `AgentJobs.ConflictHolds` | server/agents/service.py:547-565 | an accept that conflicts executes nothing; its first row may have replaced an earlier one, and a call that raised behind its effect may have applied its first step |
| `AgentJobs.HoldsFulfilled` | server/agents/service.py:593-639 | what a job has executed is carried out in the vault while it waits, and once it is committed until an undo is tried |
| `AcceptReplies.CheckedInTurn` | server/agents/service.py:530-545 | the answer of the checks: invalid, stale, denied or fine, in this order |
| `AcceptReplies.BytesOfSteps` | server/agents/service.py:541-543 | the before-bytes counted against the cap are those of the edited and moved files |
| `AcceptReplies.StoredOfSteps` | server/recovery/journal.py:68-77 | the stored before-texts are the base64 lengths of those |
| `AcceptReplies.WithoutFaults` | server/recovery/executor.py:49-65 | without failing calls a run of independent steps goes through exactly if its rows fit under the journal's cap, and none of it exactly if its first row does not |
| `JobService.CheckSelection` | server/agents/service.py:530-545 | the checks before an accept: what passes is the list of steps the chosen actions were planned with, and if no read failed they are planned on the files there are and the answer is the one told from actions and files |
| `JobService.BeforeHashes` | server/agents/service.py:787-791 | the preview records each planned file's before-hash |
| `JobService.AllowedIsChecked` | server/agents/service.py:172-237 | a set is planned exactly if no action is invalid, no two share a path, each finds its file or none as it needs, and no other rule denies it |
| `JobService.PlanIsSound` | server/agents/service.py:204-233 | a set that policy did not deny is planned on the current files, step by step |
| `JobService.UndoAttempt` | server/agents/service.py:653-686 | an attempt to undo restores the plan-time files or leaves the job as it was, or beyond undoing |
| `JobService.EverythingSelected` | server/agents/service.py:866-878 | everything is selected exactly when no id list is given or every proposed action is named |
| `JobService.AcceptFulfils` | server/agents/service.py:507-565 | once an accept has succeeded each chosen action is carried out, and at paths that no action names nothing has changed |
| `JobService.UndoIsReplied` | server/agents/service.py:653-686 | a changed file is answered as a conflict, a failing call as a vault error, no rows or an audit row as unavailable |
| `JobStanding.AcceptedIsIndependent` | server/policies/engine.py:256-273 | the steps of accepted actions of a planned set are planned and pairwise disjoint, as crash recovery needs them |
| `JobStanding.StepInProgress` | server/agents/service.py:593-639 | between accepts an action's step is applied, or can still be applied as planned; exactly an applied one that changes bytes differs from the plan |
| `JobStanding.AcceptedAgain` | server/agents/service.py:507-565 | an action accepted again, ahead of an earlier row of its own, changes no byte |
| `JobStanding.AcceptStartsAfter` | server/agents/service.py:507-565 | an accept, first or later, starts apart from the steps whose rows are in the journal |
| `JobStanding.RowsTellNext` | server/history/repository.py:147-168 | the rows an accept leaves, however it ends, are again those of accepted actions, applied from the second row on |
| `JobService.OngoingStarts` | server/agents/service.py:530-545 | what holds of a waiting job and the check before an accept are all that recovery from a crash of the accept needs |
| `JobService.RunIsSheltered` | server/agents/service.py:547-565 | every state logged while the steps run is one recovery knows about |
| `JobService.RecoverCrashedAccept` | server/recovery/service.py:103-223 | any accept of a planned job, crashed in any state and recovered: the files before the accept are back exactly if each row whose file shows a change is live when it is the accept's own, and not live when an earlier accept left it |
| `JobService.RunOperations` | server/agents/service.py:547-565 | the record says executing while the steps run; a conflict leaves the files alone unless the first call raised behind its effect; without failing calls the end is decided by the journal's cap |
| `JobService.AgentJobService.Plan` | server/agents/service.py:172-237 | a job waits for confirmation only with a sound plan, and without failing reads exactly if the checks let the set through; planning writes nothing to the vault |
| `JobService.AgentJobService.Commit` | server/agents/service.py:593-639 | the job commits exactly when no proposed action remains |
| `JobService.AgentJobService.RunSteps` | server/agents/service.py:547-565 | the four ends of an execution and what each records |
| `JobService.AgentJobService.AcceptActions` | server/agents/service.py:507-565 | accept of all or some actions: when it succeeds, created notes hold their contents, edited files what the edits make of their planned contents, and moved files are at their targets; without failing calls the answer is told from actions, plan, files and caps; only a waiting, confirmed job changes; refusals leave the vault alone unless the job ends or a call raised behind its effect; a crash on the way is one recovery knows about |
| `JobService.AgentJobService.RejectJob` | server/agents/service.py:641-651 | rejected exactly when waiting with nothing executed |
| `JobService.AgentJobService.UndoCommitted` | server/agents/service.py:653-686 | undone implies the vault is the plan-time vault; the answer is told from journal, files and failing calls; a failed undo keeps the record committed |
| `JobService.AgentJobService.Serve` | server/agents/service.py:507-686 | any sequence of accept, reject and undo calls, with any vault calls failing: byte-changing actions are executed at most once, what was executed is carried out while the job waits and once it is committed until an undo is tried, COMMITTED is reached only by an accept of every proposed action, UNDONE implies the plan-time vault, and every state logged is one recovery knows about |
| `JobService.ServeCrashRecover` | server/recovery/service.py:103-223 | any such sequence, a crash in any state on the way, a restart that marks the job, and recovery: a job found flagged is brought back to the files before its accept exactly under the condition on rows and hashes; where none is flagged nothing is touched |
| `Sorting.SortOrders` | server/index/service.py:514-517 | the sort puts a list in order |
| `Sorting.SortKeepsAll` | server/index/service.py:514-517 | it keeps every element as often as it was there |
| `Sorting.OrderedIsUnique` | server/actions/patches.py:182 | where no two elements tie, the sorted list does not depend on the order given |
| `Names.LeafOfFold` | server/index/service.py:521 | folding a path and taking its last part commute |
| `Names.LeafOfPath` | server/index/service.py:521 | the last part of a path is what stands behind its last slash |
| `Names.CasefoldAppend` | server/index/service.py:523-524 | folding goes character by character |
| `Names.StripsExtension` | server/index/service.py:99-105 | the extension that is cut off stands behind the last dot |
| `Names.StripsNothingElse` | server/index/service.py:99-105 | a name stays as it is exactly if it is not a stem, a dot and an extension without dots, both non-empty |
| `Names.StemIs` | server/index/service.py:99-105 | the stem told by concatenation is what the cut leaves |
| `Names.MarkdownNames` | server/index/service.py:704-721 | Markdown files are those whose folded name ends with one of the two suffixes |
| `Names.AtMostIsPrecedes` | server/index/service.py:514-517 | the sort order is the lexicographic one of folded paths |
| `Names.SortSpec` | server/index/service.py:514-517 | paths sorted by their folded form, members kept |
| `Basenames.SameBuckets` | server/index/service.py:514-526 | two maps that index the same files have the same keys and bucket members |
| `Basenames.WithFileIndexes` | server/index/service.py:971-983 | adding a file keeps a basename map equal to what the tracked files give: sorted, duplicate-free, no empty bucket |
| `Basenames.WithoutFileIndexes` | server/index/service.py:999-1014 | the same for removing a file |
| `Basenames.BuildMaps` | server/index/service.py:514-526 | one pass over the sorted files builds both maps |
| `LinkResolution.SlashCandidates` | server/index/service.py:686-703 | leaf lookup with a whole-path filter finds exactly the files a scan of all paths matches |
| `LinkResolution.PlainCandidates` | server/index/service.py:704-709 | the two basename lookups find exactly what a scan matches |
| `LinkResolution.SameStemIs` | server/index/service.py:704-709 | equal stems, told by concatenation, are equal lookup keys |
| `LinkResolution.OtherStems` | server/index/service.py:704-721 | a target that is some file's whole name finds besides it only Markdown files whose name up to the last dot folds to the same |
| `LinkResolution.ResolveRef` | server/index/service.py:666-721 | resolution through the maps: the folded-least match, broken exactly with none, ambiguous exactly with several, candidates sorted; anchors and web links as they are |
| `Backlinks.InsertOutgoing` | server/index/service.py:807-821 | one source's backlink rows become exactly its resolved links to other notes, other sources' rows stay |
| `Backlinks.CascadeHolds` | server/index/service.py:795-805 | deleting a note's row deletes exactly its contribution |
| `Backlinks.InsertHolds` | server/index/service.py:963-967 | rewriting a note keeps the table exact |
| `Backlinks.Materialize` | server/index/service.py:92-96 | the rebuild statement gives exactly the pairs of resolved links |
| `Backlinks.BacklinkSources` | server/index/service.py:1032-1059 | the query through the table finds exactly the link rows a full scan finds, each once |
| `Watching.ActAllFollows` | server/index/service.py:827-833 | whatever other writers and event merging do, every change stays announced |
| `Watching.DeliveryIsSafe` | server/index/service.py:840-844 | a delivered notice leaves announced whatever its handling would get wrong |
| `DerivedIndex.QuietIsRight` | server/index/service.py:866-897 | with no notice owed and no event waiting, the rows are those of the readable Markdown files |
| `DerivedIndex.CreatedOnlyAt` | server/index/service.py:929-969 | indexing a path changes that path alone |
| `DerivedIndex.TakenIsAnnounced` | server/index/service.py:827-844 | a notice taken off the queue leaves only its own paths to settle |
| `DerivedIndex.AddToMaps` | server/index/service.py:971-983 | both maps with one more file |
| `DerivedIndex.RemoveFromMaps` | server/index/service.py:999-1014 | both maps with one file less |
| `DerivedIndex.DerivedIndex.DeleteNoteRows` | server/index/service.py:795-805 | the note's row and its backlink rows go, the table stays exact |
| `DerivedIndex.DerivedIndex.Upsert` | server/index/service.py:963-967 | the note's row is replaced, the table stays exact |
| `DerivedIndex.DerivedIndex.RefreshBasenames` | server/index/service.py:971-983 | the maps index the tracked files and this one |
| `DerivedIndex.DerivedIndex.BuildEntry` | server/index/service.py:623-664 | a row is the parse of the bytes, each reference resolved as a scan would |
| `DerivedIndex.DerivedIndex.IndexNote` | server/index/service.py:945-969 | a note with the stored digest is left alone, any other is rewritten |
| `DerivedIndex.DerivedIndex.ApplyCreate` | server/index/service.py:929-969 | indexes the file as it is on disk now; an unreadable note changes nothing |
| `DerivedIndex.DerivedIndex.ApplyDelete` | server/index/service.py:985-1014 | the path leaves rows, backlinks and maps |
| `DerivedIndex.DerivedIndex.HandleEvent` | server/index/service.py:827-864 | moves at once, other events wait and replace the one waiting for the same path, missing paths do nothing |
| `DerivedIndex.DerivedIndex.HandleMove` | server/index/service.py:840-844 | the old path leaves, the new one is indexed |
| `DerivedIndex.DerivedIndex.FileExists` | server/index/service.py:899-905 | exists means readable |
| `DerivedIndex.DerivedIndex.Reconcile` | server/index/service.py:887-894 | the disk decides, not the event's kind |
| `DerivedIndex.DerivedIndex.FlushEvent` | server/index/service.py:866-897 | a fired timer handles its event, or nothing if it was superseded |
| `DerivedIndex.DerivedIndex.FlushEvents` | server/index/service.py:907-927 | everything that waits is handled |
| `DerivedIndex.DerivedIndex.ReadAndBuildEntry` | server/index/service.py:584-604 | a row exactly for a readable note |
| `DerivedIndex.DerivedIndex.StartRebuild` | server/index/service.py:507-526 | new maps of the listed files |
| `DerivedIndex.DerivedIndex.Rebuild` | server/index/service.py:499-577 | rows, maps and backlinks of all listed files, right even while files change |
| `DerivedIndex.DerivedIndex.Watch` | server/index/service.py:827-1014 | debounce convergence over any sequence of file changes, moves of attachments that cannot be read among them, merged or late events, timer firings, flushes and rebuilds |
| `DerivedIndex.SameContentsExactly` | server/index/service.py:514-526 | the maps of two indexes have the same buckets exactly when both track the same files |
| `DerivedIndex.MatchesRebuild` | server/index/service.py:499-577 | a settled index has the digests of a fresh rebuild, and the same buckets exactly when it tracks the files on disk; it does when every file can be read |
| `DerivedIndex.UnreadableMove` | server/index/service.py:840-844 | why moves of unreadable files are excluded: handled, such a move leaves a stale row exactly when the target had one |
| `ReaderSync.OutcomesPartition` | server/reader/database.py:929-939 | accepted and rejected operations partition the batch |
| `ReaderSync.EffectIs` | server/reader/database.py:950-988 | an operation is rejected exactly for an unknown kind or a constraint broken by a create or update; any other failure ends the push |
| `ReaderSync.QueuedAre` | server/reader/database.py:1292-1310 | row by row the outbox ends with this device's operations |
| `SyncOutbox.SelectBehind` | server/reader/database.py:1339-1348 | with rising timestamps, behind the last delivered row lie exactly the other devices' later rows |
| `SyncOutbox.DueIsTheRest` | server/reader/database.py:1322-1352 | what a pull then finds from a cursor is exactly what is still missing |
| `SyncOutbox.GoingOnIsInOrder` | server/reader/database.py:1339-1348 | if every cut between two rows is followed by the rest, server order is id order |
| `SyncOutbox.GoesOnExactly` | server/reader/database.py:1322-1352 | every cut is followed by exactly the rest, for any page size, if and only if the other devices' timestamps never fall |
| `SyncLoss.DueExactly` | server/reader/database.py:1339-1348 | whatever the clock did, a pull finds exactly the other devices' rows behind the cursor, in server order, each once |
| `SyncLoss.DueBehindPage` | server/reader/database.py:1339-1370 | behind a page exactly those of the rest are due whose id is above that of the page's last row |
| `SyncLoss.PageLoses` | server/reader/database.py:1364-1370 | a page loses nothing if and only if no row behind its end has an id at or below its last one's |
| `SyncLoss.LostStaysLost` | server/reader/database.py:1339-1348 | a lost row is never due again |
| `SyncLoss.OnePageAlong` | server/reader/database.py:1350-1372 | following the cursor, either the rest is due or a definite row is lost, because the ids did not rise at a page's end |
| `SyncLoss.AllReceived` | server/reader/database.py:1339-1372 | when nothing is due any more, the received rows are all the other devices' rows exactly if nothing was lost |
| `SyncLoss.OneRowPages` | server/reader/database.py:1339-1348 | pages of one row lose nothing if and only if the timestamps never fall |
| `SyncLoss.RisingIsSafe` | server/reader/database.py:1339-1348 | where ids rise in server order, every page size is safe |
| `ReaderSync.ReaderDatabase.AddToOutbox` | server/reader/database.py:1292-1310 | one row with a new, larger id |
| `ReaderSync.ReaderDatabase.ApplySyncOperation` | server/reader/database.py:950-988 | an applied operation is queued, any other leaves the outbox alone |
| `ReaderSync.ReaderDatabase.PushSyncOperations` | server/reader/database.py:912-948 | the outbox grows by exactly the accepted operations in order, the id lists split the batch, an unexpected failure undoes all of it |
| `ReaderSync.ReaderDatabase.PullSyncChanges` | server/reader/database.py:1312-1374 | one page of other devices' rows in server order, with cursor and has-more |
| `ReaderSync.PushLoses` | server/reader/database.py:1292-1310 | a push loses a row for a device if and only if the row is older than the device's cursor |
| `ReaderSync.InOrderLosesNothing` | server/reader/database.py:1312-1374 | while the others' timestamps never fall, a device never loses a row |
| `ReaderSync.Client.PullPage` | server/reader/database.py:1312-1374 | a page adds the first due rows and loses nothing exactly if ids rise at its end; behind a page without more nothing is due |
| `ReaderSync.Client.PullAll` | server/reader/database.py:1350-1372 | following the cursor delivers what was due, each row once and in server order, if and only if no row behind the end of a page has an id at or below that page's last; then, and only then, a device that had lost nothing has exactly the rows of all other devices; they come in id order exactly if timestamps never fall |
| `ReaderSync.Client.PushFrom` | server/reader/database.py:912-948 | a push between pages loses a row for a device exactly if one of the new rows is older than its cursor |
| `ReaderSync.Client.Run` | server/reader/database.py:912-1374 | over any interleaving of pushes and pages what is lost stays lost, and nothing is lost while timestamps never fall |
| `ReaderSync.BackwardClockLosesRow` | server/reader/database.py:1343-1344 | a concrete input: two pushes under a clock showing 5 and then 3, a pull of one row, and a further pull of any size that does not deliver the other |
| `ReaderSync.BackwardClockLosesNothing` | server/reader/database.py:1343-1344 | the same two pushes pulled with room for both: both rows arrive |
| `Hunks.ChecksOriginal` | server/actions/patches.py:185-189 | a hunk passes the checks on the edited text exactly when the original has its old text there |
| `Hunks.Utf8LengthIsLeast` | server/actions/patches.py:192-195 | a character counts as few bytes as its code point fits into |
| `Hunks.AppliedNext` | server/actions/patches.py:190-191 | replacing at the running offset is replacing in original coordinates |
| `Hunks.ChainApplies` | server/actions/patches.py:183-191 | hunk by hunk at the running offset, a chain gives the original text with all hunks replaced at once, or fails where the original does not match |
| `Hunks.ApplyHunks` | server/actions/patches.py:173-195 | any list is applied in sorted order, each to the text the earlier ones left; on hunks that sort into a chain that is simultaneous replacement, and it fails exactly on a context mismatch with the original or an oversized result |
| `Hunks.ApartSorts` | server/actions/patches.py:182 | hunks sort into a chain exactly when they are apart: no two overlap, and no insertion is given behind a replacement that starts at the same place |
| `Hunks.InsertionInside` | server/actions/patches.py:182-191 | a concrete input: such an insertion lands inside the new text, and in front of it when given first |
| `Hunks.OrderDoesNotMatter` | server/actions/patches.py:182 | with distinct starts the order given does not matter |
| `Hunks.SwapRestores` | server/actions/patches.py:173-195 | the swapped, shifted hunks match the result and give the original back |
| `Hunks.PatchAndBack` | server/actions/patches.py:173-195 | a patch that went through is taken back by a patch |
| `Hunks.ApplyEdits` | server/export/service.py:368-378 | the gap-copying splice of export is hunk replacement on the same spans |
| `SummarySections.PiecesAreLossless` | server/ai/workflows.py:104 | pieces regrouped by line number give every line back |
| `SummarySections.CostsWithinLimit` | server/ai/workflows.py:105-109 | a section costs at most the limit plus one line break |
| `SummarySections.HeadingShape` | server/ai/workflows.py:96 | a heading line is up to three blanks, one to six number signs and a blank |
| `SummarySections.LabelShape` | server/ai/workflows.py:98-103 | its heading is what stands behind blanks and signs, at most 200 characters of it |
| `SummarySections.Builder.Flush` | server/ai/workflows.py:88-93 | closing a group keeps every piece and gives the section its heading |
| `SummarySections.Builder.AddPiece` | server/ai/workflows.py:105-109 | a piece joins the open group unless the group would grow too large |
| `SummarySections.Builder.BeginHeading` | server/ai/workflows.py:96-103 | a heading line closes the group; too many sections make the remaining heading |
| `SummarySections.Builder.AddLine` | server/ai/workflows.py:95-109 | the pieces of one line are added in order |
| `SummarySections.Split` | server/ai/workflows.py:81-111 | no text is lost, each section costs at most the limit plus one, no section ends early, each has the heading its first line stands under |
| `FrontMatter.ParseOfText` | server/actions/patches.py:31-46 | the parts of a note are found again in its text |
| `FrontMatter.TextOfParse` | server/actions/patches.py:31-46 | a note with front matter is the text of its parts: mark, opening line, lines, rest |
| `FrontMatter.SpanOfDoc` | server/actions/patches.py:31-46 | where the span of the front matter lies |
| `TagEdits.BlockIs` | server/actions/patches.py:49-80 | the tag block is determined by its header and the first line that does not continue it |
| `TagEdits.BlockSpanOfLines` | server/actions/patches.py:83-88 | the block as positions in the text |
| `TagEdits.AddOnLines` | server/actions/patches.py:99-118 | adding tags to the text is adding lines to the front matter |
| `TagEdits.StripOnLines` | server/actions/patches.py:203-214 | cutting the block out of the text is cutting its lines out |
| `TagLaws.TagLineIsItem` | server/actions/patches.py:103 | a written tag line is an item, and a tidy tag is read back from it |
| `TagLaws.AddStaysInBlock` | server/actions/patches.py:99-118 | adding tags to a note with front matter changes nothing outside the tag block |
| `TagLaws.RemoveStaysInBlock` | server/actions/patches.py:121-156 | removing tags while an item survives changes nothing outside the tag block |
| `TagLaws.RemoveUndoesAdd` | server/actions/patches.py:99-156 | removing what was added gives the note back, without a tags key or next to other items in a blank-free block |
| `TagReading.HeaderShape` | server/actions/patches.py:15 | a header is the key, a colon, blanks and at most a comment |
| `TagReading.ItemShape` | server/actions/patches.py:16 | an item is up to four blanks, a dash or a star, blanks and its tag, trimmed |
| `TagReading.KeyShape` | server/actions/patches.py:106-118 | the three ways to write the key |
| `TagReading.ContinuesShape` | server/actions/patches.py:70-76 | a block goes on with items and with lines of nothing but whitespace |
| `Strings.StripShape` | server/actions/patches.py:72 | stripping takes off exactly the whitespace, Unicode's included, at both ends |
| `TagReading.NewlineSays` | server/actions/patches.py:102 | line breaks are those of the note |
| `TagReading.AddStartsFrontMatter` | server/actions/patches.py:99-106 | adding tags to a note without front matter: the result parses, its front matter is a header with one item for each tag in order, and behind the closing delimiter stands the whole note |
| `TagReading.AddReadsBack` | server/actions/patches.py:99-118 | the tags read afterwards are those read before and the added ones |
| `TagReading.AddRefuses` | server/actions/patches.py:107-118 | refused exactly where the key stands in front matter without a header the edit can extend |
| `TagReading.RemoveReadsRest` | server/actions/patches.py:121-156 | the tags read afterwards are those not wanted, if any stays |
| `TagReading.RemoveRefuses` | server/actions/patches.py:121-143 | refused exactly where no tag that is read is wanted |
| `TagReading.RemoveCutsBlock` | server/actions/patches.py:144-156 | when every item is wanted, the lines from the header to the last item go, and no other |
| `TagScan.TagBlockLines` | server/actions/patches.py:49-80 | the scan lists the header and the items with their positions, and where the block ends |
| `TagScan.ListedSplit` | server/actions/patches.py:134-141 | of the listed lines exactly the header and the kept items stay |
| `TagScan.ListedCount` | server/actions/patches.py:134-143 | the count of removed lines is zero exactly when no item is wanted |
| `TagScan.EditOfListed` | server/actions/patches.py:144-156 | rebuilding by positions is rebuilding by lines |
| `TagScan.RemoveInside` | server/actions/patches.py:133-156 | the block without the wanted items, refused when none was there |
| `TagScan.RemoveTags` | server/actions/patches.py:121-156 | the loops together give the line-wise removal, for every note |
| `CodeRanges.InlineSpans` | server/markdown/wikilinks.py:97-110 | the inline spans of a line, in order |
| `CodeRanges.MarkerShape` | server/markdown/wikilinks.py:28 | a fence marker is whitespace and three or more of one fence character, with its exact length |
| `CodeRanges.FenceLasts` | server/markdown/wikilinks.py:74-96 | from its opening line a fence lasts up to and with the first line that has a marker of the same character, at least as long |
| `CodeRanges.OutsideFences` | server/markdown/wikilinks.py:74-96 | a line without a marker opens no fence |
| `CodeRanges.SpanShape` | server/markdown/wikilinks.py:97-110 | the next span is the first run of backticks and the text up to the next place where as many stand |
| `CodeRanges.SpansChain` | server/markdown/wikilinks.py:97-110 | each span is the next one behind the one before it |
| `CodeRanges.ScanLine` | server/markdown/wikilinks.py:75-111 | one line of the scan with its fence state |
| `CodeRanges.FindRanges` | server/markdown/wikilinks.py:67-115 | a position is in some range exactly when its line is fenced or an inline span covers it; an open fence runs to the end |
| `NoteExport.KeepReferences` | server/export/service.py:291-301 | the kept references are ordered, disjoint and outside code; one that was found is missing only if it starts in code or within a kept one |
| `NoteExport.Inline` | server/export/service.py:169-202 | an attachment is inlined exactly when it can be read and fits; listed once, counted once |
| `NoteExport.DataUriShape` | server/export/service.py:381-383 | a data URI names the type, and its text decodes to the bytes |
| `NoteExport.HandleReference` | server/export/service.py:150-212 | one reference, its attachment and its edit |
| `NoteExport.Prepare` | server/export/service.py:133-224 | both outputs replace the same spans of the note; inlined bytes sum each distinct file once and, with true sizes, stay within the cap; truncated exactly when some reference's file was left out |
| `NoteGraph.NoteAdjacency` | server/graph/service.py:133-156 | both neighbour maps say exactly which notes are linked |
| `NoteGraph.ReachesNext` | server/graph/service.py:651-662 | one more hop reaches exactly the neighbours of what was reached |
| `NoteGraph.NothingNew` | server/graph/service.py:652-653 | an empty frontier means that no number of hops reaches more |
| `NoteGraph.Expand` | server/graph/service.py:654-659 | the neighbours of the frontier in the direction |
| `NoteGraph.LocalNotes` | server/graph/service.py:649-662 | the visited set is exactly the notes within the depth, for each direction |
| `NoteGraph.Duality` | server/graph/service.py:656-659 | b is within reach outgoing of a exactly when a is within reach incoming of b |
| `NoteGraph.PageResponse` | server/graph/service.py:303-351 | a page, its edges that end inside it or dangle, and where the next page starts |
| `NoteGraph.WalkPages` | server/graph/service.py:325-335 | following the next offset visits every node once, and no page has an edge that leaves it |
| `RuntimeGate.Gate.EnterRequest` | server/runtime.py:360-376 | a request is admitted only while nothing changes and only in the current session |
| `RuntimeGate.Gate.LeaveRequest` | server/runtime.py:377-380 | and leaves again |
| `RuntimeGate.RequestRefusals` | server/runtime.py:360-376 | which requests are refused, and how: for each error exactly the cases it stands for |
| `RuntimeGate.ChangeRefusals` | server/runtime.py:383-402 | the same for changes |
| `RuntimeGate.CommitRefusals` | server/runtime.py:425-647 | the same for commits of AI settings and switches of the vault |
| `RuntimeGate.Gate.EnterTransition` | server/runtime.py:383-402 | a change is admitted only with no request in flight, at the quoted revision and session |
| `RuntimeGate.Gate.CommitAi` | server/runtime.py:425-460 | an AI commit raises the revision by one or leaves settings and revision as they were |
| `RuntimeGate.Gate.SwitchVault` | server/runtime.py:569-647 | a switch changes root, revision and session together, or nothing |
| `RuntimeRuns.BuildsExactly` | server/runtime.py:412-433 | a commit applies its edit to the quoted settings exactly when the edit makes the same of those and of the settings it was built on |
| `RuntimeRuns.HistorySays` | server/runtime.py:388-392 | no two commits quote the same revision; each builds on the settings it quoted exactly under that condition |
| `RuntimeRuns.NextHolds` | server/runtime.py:360-460 | every atomic block of every thread keeps the protocol's invariant |
| `RuntimeRuns.AfterHolds` | server/runtime.py:360-647 | and so does every run, which only adds to the history |
| `RuntimeRuns.PresentQuoteIsSafe` | server/runtime.py:412-433 | an edit that quotes a revision already there is applied to what it replaced, in every run |
| `RuntimeRuns.FutureQuoteLoses` | server/runtime.py:412-433 | from any state, for any revision still to come, a run in which the edit that quotes it is lost |
| `RuntimeRuns.LosesExactly` | server/runtime.py:412-433 | from any state, some run loses an edit built there if and only if the revision it quotes is still to come |
| `Runtime.Schedule.Take` | server/runtime.py:360-460 | one atomic block of one thread through the gate is one step of the protocol, keeps its invariant and commits at most once |
| `Runtime.Schedule.Interleave` | server/runtime.py:360-647 | over every interleaving: a change excludes requests, a request's session never changes while it runs, the revision counts the commits, failed changes leave everything as it was, and a commit builds on the settings it quoted exactly when its edit makes the same of those it was computed from |
| `Runtime.FutureQuoteLosesEdit` | server/runtime.py:412-433 | a concrete run through the gate: an edit that quotes a revision still to come undoes the commit that makes it |

## Left out

Jobs and recovery:

- SHA-256 is an injective constructor; nothing is said about collisions.
- Base64 decoding is strict: Python's decoder skips characters outside the alphabet, stored texts have none.
- Every vault call is one atomic step. Symbolic links, oversized files and I/O errors are the `faults` oracle;
  that a write is itself atomic on disk is not part of this model.
- History writes never fail; the in-memory mirror of history, which appends where the database replaces, is not
  modelled.
- HistoryStore.Store.AddJournal: a sequence number replaces a stored one or is the next; the callers number their
  rows from 0 or from the length of the journal, so that no gap arises.
- HistoryStore.Store.Do: other writers act only between calls, because the service holds a lock and checks the
  digest again just before replacing a file.
- Policy.EvaluateSet: levels, protected prefixes, budgets in characters and Markdown-only rules are one oracle,
  because they only deny more; decisions between allow and confirm are not told apart.
- JobService.AgentJobService.Plan: automatic execution of low-risk sets, the model's planner, diffs and scope
  checks are left out; action ids are distinct and files named, as the request schema requires.
- JobService.AgentJobService.Serve: one job in one process, and nobody else writing.
- JobService.ServeCrashRecover: nothing is said once an accept has passed its check although a read in it failed,
  which can take a file for missing; the accept then plans on files that are not there. Crashes while planning or
  recovering are not part of it; what recovery itself leaves is said by `Recovery.RollbackIfSafe`.
- Recovery.RollbackIfSafe: exact restoration is proved for steps that are pairwise disjoint or change no byte, which
  is what the policy lets through. With overlapping paths the code does not promise it.
- Undo of a job built from several partial accepts, and atomicity of an interrupted undo, are not promised by
  the code.
- AgentJobs.Preflight: the diffs and file counts of the set are left out; they only inform the user.
- AgentJobs.PreflightOne: an edit is a function from bytes to bytes, so that the kinds of edit and their extra
  facts (duplicate tags, link targets) are not told apart.

Index:

- SQLite errors, full-text rows, tags and properties are left out; a failed rebuild, which has already replaced
  the maps, is not modelled.
- Link rows of other notes stay as they were until they are indexed again or rebuilt; only digests, maps and
  backlinks are claimed to agree.
- Case folding is per character and keeps slashes; ties among paths that fold alike keep an arbitrary order.
- DerivedIndex.DerivedIndex.Watch: a file moved onto a note's path can be read, and a move is delivered before later
  notices about its paths; `DerivedIndex.UnreadableMove` says what happens otherwise.
- DerivedIndex.MatchesRebuild: a changed attachment that cannot be read leaves the basename maps, while a rebuild
  lists it (server/index/service.py:887-894), so that the two then differ.
- Directories and the start of the watcher are left out, and so is the check for a closed database.
- Backlinks.BacklinkSources: the final sort for display is left out.

Reader sync:

- The cursor text is a datatype with a malformed case; the statements on entity tables are an oracle.
- ReaderSync.ReaderDatabase.PushSyncOperations: the update of the device's last-seen time after the commit is
  left out, and so are missing keys in an operation; conflicts are always empty, as no operation raises one.

Text:

- Hunks.ApplyHunks: hunks that overlap are checked against text already edited; of them only
  application one by one in sorted order is stated. Decoding errors are left out.
- Line breaks are `\n` and `\r\n`, and a note has at most one leading byte order mark.
- TagLaws.AddStaysInBlock: a note without front matter gets one; `TagReading.AddStartsFrontMatter` says which.
- TagLaws.RemoveStaysInBlock: removing the last item removes the block; blank lines between items go too.
- TagLaws.RemoveUndoesAdd: tags are tidy, that is stripped and on one line, as the request schema makes them.
- `add_link` and the check for an open fence at the end of a note are left out.
- SummarySections.Split: splitting the text into lines is done by the caller.
- CodeRanges.FindRanges: an inline span of a fence's closing line lies inside the block's range, as in the code.
- NoteExport.Prepare: the patterns that find references, path resolution, rendering, quoting and MIME types are
  oracles; warnings and reasons are left out, and attachments are values, since they are not shared beyond one
  export. The vault does not change during an export.
- `parse_wikilinks` is the index's `parse` oracle.

Graph and runtime:

- NoteGraph.LocalNotes: the tag filter and semantic edges that may add notes afterwards are left out.
- NoteGraph.PageResponse: edges come sorted; nodes and edges of a scope are assembled by code not modelled.
- RuntimeGate.Gate.CommitAi: building and stopping the agent and the scheduler is the `Outside` oracle; profiles,
  publishing and snapshots are left out.
- RuntimeGate.Gate.SwitchVault: the checks of the target directory before the gate are left out.
- `apply_rag` is left out: it reconfigures the stack before the save and does not restore it on failure.
- Routes of the reader are not scoped requests in the source, and none here.
