# Browser Cortex: a verified model

Browser Cortex keeps a user's documents in an encrypted vault, runs approved workflows over them, schedules
model inference in the browser, and discloses redacted text to an online gateway. This project models the parts of
it where a mistake would lose data, repeat an action or leak plaintext, and proves what those parts promise, for
every input, every run and every interleaving.

The model has two layers. Code that changes state in place is a class or a loop with the source's own fields and
branches, proved against specification functions. The protocols, whose steps are separated by awaits at which another
call, a lock, an abort or a crash may come in, are state machines built from those same functions; an event is one
piece of code between two awaits, or one thing the outside does. The main results quantify over all event sequences.
`dafny verify dfyconfig.toml` checks every file of the project.

| Area | Files |
|---|---|
| Stored records, the record graph, the storage adapter | `Records.dfy`, `Storage.dfy`, `VaultStore.dfy` |
| Schema migration with backup, verification and rollback | `Migration.dfy`, `MigrationLoops.dfy`, `MigrationEnds.dfy` |
| The vault: creation, import, epochs, locking, staged ingest, deletion, recovery, purge | `VaultGraph.dfy`, `Vault.dfy`, `VaultSafety.dfy`, `VaultWholeness.dfy`, `VaultAfterMigration.dfy`, `VaultPurge.dfy`, `VaultRequests.dfy`, `VaultProgress.dfy` |
| Workflows: references, approvals, checkpoints, dispatch | `References.dfy`, `Approvals.dfy`, `Interpreter.dfy`, `InterpreterSafety.dfy`, `InterpreterValues.dfy`, `InterpreterEnds.dfy`, `InterpreterSuccess.dfy`, `InterpreterApproval.dfy` |
| The inference scheduler and the task lifecycle | `Scheduler.dfy`, `SchedulerRuns.dfy`, `Cortex.dfy`, `CortexRuns.dfy` |
| The gateway's replay table | `Replay.dfy` |
| Canonical JSON | `JsonText.dfy`, `CanonicalJson.dfy`, `CanonicalForm.dfy`, `CanonicalInjective.dfy`, `JsonReading.dfy` |
| Redaction and rehydration | `Redaction.dfy`, `Rehydration.dfy` |
| CSV, chunking, base64, retrieval | `Csv.dfy`, `CsvRoundTrip.dfy`, `CsvExactly.dfy`, `Chunking.dfy`, `Base64.dfy`, `Retrieval.dfy`, `RetrievalResults.dfy`, `RetrievalScores.dfy` |

What stands for what:

- Encryption is symbolic: a ciphertext is the pair of its key and everything bound to it, and decryption succeeds
  exactly when all of that agrees. Digests and fingerprints are injective. Ids are natural numbers whose order stands
  for the locale's order of strings.
- A storage transaction is one atomic step. In the migration any call may fail before or after its effect; any number
  of vault objects work on the same store, each of which may stop or be locked at any await.
- Clocks, random draws, fresh ids, plans of an ingest, approvers' answers, tool results and route environments are
  chosen freely by the event or passed as parameters.

Some promises turned out to hold only under a condition. Each is kept as the code has it, with its exact condition:

- Deleting a workspace does not check that the id it is given is a workspace. It keeps the record graph exactly when
  the id is not that of a document, a revision or a chunk (`VaultGraph.DeletingWorkspaceKeepsGraph`). An embedding's id
  deletes the embedding alone: every step of every run changes the records by wholes exactly unless it is that one
  (`VaultWholeness.IngestIsAllOrNothing`), which any unlocked vault with an embedding can come to
  (`VaultWholeness.EmbeddingCanBeDeleted`).
- A purge goes loop by loop, each over what the loops before it have left. What it takes is always of a workspace,
  document, grant or receipt whose time has passed; but a document or grant that has gone with an expired workspace, or
  a grant that has gone with an expired document, takes nothing more with it. `VaultPurge.Purged` is the exact rule, by
  the records' fields, and `VaultProgress.PurgeIsExact` and `VaultProgress.UnlockPurgesExactly` prove it of the runs.
  Without such a document or grant the order does not matter (`VaultPurge.PurgedIsClaimed`); with one it does
  (`VaultPurge.GrantOfPurgedWorkspaceTakesNothing`).
- The compensation of a failed ingest takes two transactions. Between them the graph is whole exactly when the
  document was new (`VaultGraph.CompensationIsNotAtomic`).
- Importing an archive checks that it decrypts, not how its records refer to each other. The store it leaves is sound
  exactly when the archive is (`VaultSafety.ImportIsUnchecked`); an archive of one chunk without a document is imported
  and opened (`VaultSafety.StrayChunkIsImported`).
- An aborted execution can still start its executor, with a signal that is already aborted: in any run this happens in
  some continuation exactly when it stands between the decision of its fresh route and the executor, with that route
  equal to the proposed local one (`CortexRuns.AbortedStillInvokesExactlyPastLastCheck`; `CortexRuns.CancelledStillInvokes`
  is such a run for every request and local route). It never returns output.
- A value in the stored checkpoint of a workflow run stays there unchanged, whatever comes later, exactly when the
  process is not in the handler of a failed step with a checkpoint that lacks it
  (`InterpreterValues.StepsKeepTheirValues`). That takes a save that took effect and still reported failure
  (`InterpreterValues.StoredValuesStay`): the handler then saves the older checkpoint over the newer one, and a resume
  runs the step again (`InterpreterValues.StoredValueIsReplaced`).
- The same nonce can be accepted twice before it expires (`Replay.ClockBackReplays`). For any clock, it is refused as a
  replay exactly when no call since its last acceptance came at or after its expiry, and accepted again exactly when
  one did, the clock has gone back since, and the table has room (`Replay.SecondAcceptanceExactly`).
- Rehydration restores a redacted text exactly when at most 10,000 spans were replaced and the sanitized text, which
  may be longer than the original, is not over the response limit (`Rehydration.RedactionRoundTrip`); a text 6
  characters below the limit with one short span is redacted and then refused (`Rehydration.NearlyFullTextIsRefused`).
- CSV rows whose written form is within the limits of the parser come back exactly when their headers are trimmed,
  nonempty and no formulas, and every row has a nonempty cell and no formula (`CsvRoundTrip.CsvRoundTripExactly`).
- The base64 check of stored values does not make the text unique: it is what encoding gives back exactly when the
  unused bits of the last character are zero (`Base64.CanonicalIsUniqueWhenUnusedBitsAreZero`).

## Model

| member | source | states |
|---|---|---|
| Records.IndexById | packages/memory/src/migrations.ts:102-109 | the map from ids to records, refused exactly when an id occurs twice |
| Records.VerifyPrivateRecordGraph | packages/memory/src/migrations.ts:102-162 | accepts exactly the record lists with distinct ids in which every reference between workspaces, documents, revisions, chunks and embeddings, and each grant and derived record, keeps its rule |
| Records.GraphRulesByIndex | packages/memory/src/migrations.ts:111-161 | the rules over the map are the rules over the list of records |
| Records.GraphRulesExactly | packages/memory/src/migrations.ts:111-161 | the rules, kind by kind and field by field: every record is in a workspace that is there, and documents, revisions, chunks and embeddings point at each other within it |
| Storage.DecryptsExactly | packages/memory/src/crypto.ts:218-260 | a record decrypts exactly when it was sealed under this key, nonce, version, id and kind, around a record of just those |
| Storage.DecryptsOnlyAsSealed | packages/memory/src/crypto.ts:182-260 | decryption undoes encryption under the same key, and nothing decrypts under another or with a field changed |
| Storage.InMemoryMemoryStorage.PutRecords | packages/memory/src/storage.ts:266-268 | the new records replace those with their ids, and nothing else changes |
| Storage.InMemoryMemoryStorage.DeleteRecords | packages/memory/src/storage.ts:270-272 | exactly the named records go |
| Storage.InMemoryMemoryStorage.ReplaceEverything | packages/memory/src/storage.ts:274-281 | header and records are replaced and any pending migration is forgotten |
| Storage.InMemoryMemoryStorage.Commit | packages/memory/src/storage.ts:295-313 | the whole new state of a commit that goes through, and no change otherwise |
| Storage.InMemoryMemoryStorage.Rollback | packages/memory/src/storage.ts:315-335 | the whole restored state, and no change when the backup is not the verified one |
| Storage.InMemoryMemoryStorage.Finalize | packages/memory/src/storage.ts:337-344 | the backup goes only for the migration it belongs to |
| Storage.RecordsMatchIsSameRecords | packages/memory/src/storage.ts:39-48 | two listings match, and have equal digests, exactly when they hold the same records in whatever order |
| Storage.DigestBinds | packages/memory/src/migrations.ts:74-89 | equal digests mean the same records with the same multiplicity |
| Storage.CommitOnlyOverItsSource | packages/memory/src/storage.ts:295-302 | a commit goes through exactly when no migration is pending and the active header and records are still those it was prepared from |
| Storage.RestoreIsExact | packages/memory/src/storage.ts:315-335 | whatever id and backup are brought, restoring after a commit gives the header and records from before it, or nothing happens |
| Storage.RollbackUndoesCommit | packages/memory/src/storage.ts:287-335 | the backup read after a commit undoes it exactly when the commit counted its records right |
| MigrationLoops.DecryptCurrent | packages/memory/src/migrations.ts:171-183 | the decryption loop and graph check give every plaintext or nothing |
| MigrationLoops.MigratePlaintext | packages/memory/src/migrations.ts:164-199 | decrypting, migrating and checking a legacy vault, all of it or nothing |
| MigrationLoops.Prepare | packages/memory/src/migrations.ts:185-236 | the commit prepared, its header, state, counts and digests included, or nothing |
| MigrationLoops.VerifyCommitted | packages/memory/src/migrations.ts:238-254 | accepts exactly a target of the committed schema, count and digest that decrypts to a sound graph, and gives its records |
| MigrationLoops.VerifyBackup | packages/memory/src/migrations.ts:256-288 | accepts exactly a legacy backup of the same vault whose records match the committed digest and migrate soundly |
| Migration.OriginalAt | packages/memory/src/migrations.ts:164-199 | a migrated record is the decrypted original with only its schema version changed, at its own place |
| Migration.EncryptAllRoundTrip | packages/memory/src/migrations.ts:201-203 | what was encrypted for the commit decrypts to the migrated records |
| Migration.PreparedIsFaithful | packages/memory/src/migrations.ts:185-236 | the check before the commit never fails by itself, and what is prepared carries the whole vault |
| Migration.MigrationIsCrashSafe | packages/memory/src/vault.ts:203-344 | over every interleaving of vault objects, crashes, locks and failing calls, the store is the untouched vault, a committed one with the whole vault as backup, or a finalized one, and whoever loads gets the original records with only the version changed |
| Migration.NextUnlockCompletes | packages/memory/src/vault.ts:177-373 | from any store a crash may leave, the next undisturbed unlock returns the original records and leaves a finalized store, or leaves an unmigratable vault untouched |
| Migration.VerifiedLoads | packages/memory/src/migrations.ts:238-254 | a committed vault that passes verification holds the migrated records |
| Migration.RollbackIsSafe | packages/memory/src/vault.ts:346-373 | a restored store is the untouched vault again |
| MigrationEnds.FailedVerificationRestores | packages/memory/src/vault.ts:222-373 | whichever read of a verification fails, the rollback that follows, undisturbed, goes through and leaves the very vault from before the migration |
| MigrationEnds.TamperedTargetIsRestored | packages/memory/src/vault.ts:222-373 | a committed store with any other records than those committed is not opened: the next undisturbed unlock restores the very vault from before |
| MigrationEnds.WrongPassphraseOpensNothing | packages/memory/src/vault.ts:177-201 | in any run, a vault object given a wrong passphrase never gets past the header and never changes the store |
| MigrationEnds.LockedNeverLoads | packages/memory/src/vault.ts:203-344 | once locked, an unlock in flight never hands over records, in any run |
| Vault.EncryptedMemoryVault.Lock | packages/memory/src/vault.ts:375-386 | the key and every record go, and the epoch advances |
| Vault.EncryptedMemoryVault.Install | packages/memory/src/vault.ts:177-201 | after unlocking, memory is the key and the map of the loaded records |
| Vault.EncryptedMemoryVault.FinishSave | packages/memory/src/vault.ts:953-962 | memory takes the saved records only when the epoch is still the operation's |
| Vault.EncryptedMemoryVault.FinishDelete | packages/memory/src/vault.ts:964-970 | memory drops the deleted records only when the epoch is still the operation's |
| VaultStore.StoringIsExtending | packages/memory/src/vault.ts:953-962 | encrypting and storing records extends the decrypted view of the store by exactly them |
| VaultStore.RemovingIsForgetting | packages/memory/src/vault.ts:964-970 | deleting stored records removes exactly them from the decrypted view |
| VaultStore.LoadingIsViewing | packages/memory/src/vault.ts:177-201 | what unlocking loads is the decrypted view of the store |
| VaultGraph.DeletingSourceKeepsGraph | packages/memory/src/vault.ts:775-798 | deleting a source with everything derived from it leaves a sound graph |
| VaultGraph.DeletingWorkspaceKeepsGraph | packages/memory/src/vault.ts:804-811 | deleting a workspace keeps the graph exactly when the id is not that of a document, revision or chunk |
| VaultGraph.IngestedGraph | packages/memory/src/vault.ts:527-644 | an ingest adds exactly its document, revision, chunks and embeddings |
| VaultGraph.IngestKeepsGraph | packages/memory/src/vault.ts:527-644 | a whole ingest keeps the graph, the list of revisions of its document included |
| VaultGraph.CompensationIsNotAtomic | packages/memory/src/vault.ts:626-634 | between the two transactions of a compensation the graph is whole exactly when the document was new |
| VaultSafety.VaultStaysSound | packages/memory/src/vault.ts:149-201 | from no vault at all, over every run with crashes, locks, cancellations and any requests, creation, import and deletion of the vault included, the store decrypts to a sound graph, every staging record is complete or wholly absent, and memory is empty or the store's plaintext |
| VaultSafety.ImportIsUnchecked | packages/memory/src/vault.ts:837-894 | the store an import leaves is sound exactly when the archive's own records are |
| VaultSafety.StrayChunkIsImported | packages/memory/src/vault.ts:837-894 | a whole run, for any key and passphrase, that imports an archive which decrypts and is not sound |
| VaultSafety.ExportImportsBack | packages/memory/src/vault.ts:813-894 | what an unlocked vault exports, imported anywhere with its passphrase, gives the same store and the same records in memory |
| VaultAfterMigration.MigratingUnlockGoesOn | packages/memory/src/vault.ts:177-201 | what any migration run ends in loading is what the vault's own unlock loads from the finalized store, and from there on, its recovery and purge included, the vault stays sound |
| VaultSafety.UnlockedMemoryIsTheStore | packages/memory/src/vault.ts:953-978 | in every run, unlocked with nothing in flight, memory is exactly the decrypted store, without a staging record |
| VaultWholeness.IngestIsAllOrNothing | packages/memory/src/vault.ts:527-644 | in every run, each step adds a whole ingest or one other record, or takes standalone records, a document with everything derived from it or a workspace with everything in it, exactly unless deleteWorkspace takes an embedding by its id or the store is written anew; neither recovery nor compensation changes any record |
| VaultWholeness.EmbeddingCanBeDeleted | packages/memory/src/vault.ts:804-811 | any unlocked vault with an embedding can be made to delete it alone |
| VaultSafety.RecoverOne | packages/memory/src/vault.ts:972-978 | recovering a staged ingest removes no record but its staging record, since what that lists is complete or wholly absent, and leaves a sound graph |
| VaultSafety.RecoveryTakesIncomplete | packages/memory/src/vault.ts:972-978 | whatever the records, recovering a stage takes its staging record and, exactly when something it lists is missing, all it lists |
| VaultSafety.CompensationOk | packages/memory/src/vault.ts:626-634 | an uninterrupted compensation leaves the records as they were before the ingest |
| VaultSafety.PurgeOk | packages/memory/src/vault.ts:485-521 | every deletion a purge goes on to, in whatever phase, keeps the graph sound; which records it takes is PurgeIsExact's |
| VaultPurge.PurgeStep | packages/memory/src/vault.ts:485-521 | each step of the purge leaves exactly the records that the workspaces, documents and grants visited so far do not take, told by the records' own fields |
| VaultPurge.NothingPastIsRetained | packages/memory/src/vault.ts:490-519 | after a purge no workspace, document or receipt is left past its retention and no grant past its expiry |
| VaultPurge.PurgedIsClaimed | packages/memory/src/vault.ts:492-519 | what is purged always belongs to something whose time has passed, and exactly that when no expired document or grant goes with an earlier one |
| VaultPurge.GrantOfPurgedWorkspaceTakesNothing | packages/memory/src/vault.ts:492-514 | records in which the order of the loops decides what stays |
| VaultProgress.PurgeIsExact | packages/memory/src/vault.ts:481-521 | over every undisturbed run of a purge of an open vault, store and memory end with exactly the records the rule retains, and nothing whose time has passed |
| VaultProgress.UnlockPurgesExactly | packages/memory/src/vault.ts:177-201 | and so over every undisturbed run of an unlock, recovery included |
| VaultRequests.RequestIsServed | packages/memory/src/vault.ts:149-978 | over every undisturbed run, and any cancellation of an ingest, what each request has done when it is through, by the records' fields: creation, unlock (only with the header's passphrase), import, change of passphrase, deletion of the vault, save, ingest (skipped exactly without an open workspace, with an unavailable target or the current fingerprint), deletion of a source or workspace, purge and revocation; and nothing at all when it is refused |
| VaultRequests.CancelledIngestLeavesNothing | packages/memory/src/vault.ts:620-634 | an ingest cancelled before it begins to write its unit ends with the records from before it |
| VaultProgress.RequestGetsThrough | packages/memory/src/vault.ts:149-978 | whatever the time and the randomness, some undisturbed run of each request ends with it served |
| VaultSafety.LockedOutOperations | packages/memory/src/vault.ts:997-1026 | once locked, no step of an operation requested before, a creation or import included, changes the vault's memory |
| VaultSafety.LockIsFinal | packages/memory/src/vault.ts:375-386 | with nothing requested after a lock, no key and no plaintext ever comes back, whatever was pending, an import included |
| References.ValidateSteps | packages/workflows/src/validation.ts:184-264 | the loop that grows the available steps accepts exactly the step lists whose ids are new and whose references name inputs or earlier steps |
| References.KeysAreOwned | packages/workflows/src/interpreter.ts:297-299 | no step's value key is another step's or an input's |
| References.AcceptedReferenceResolves | packages/workflows/src/interpreter.ts:58-70 | an accepted reference resolves, once the values of the earlier steps are there, to the value under its own name |
| References.AcceptedExactly | packages/workflows/src/validation.ts:174-182 | validation accepts exactly the names of inputs, of available steps and of fields of those |
| References.ResolvesExactly | packages/workflows/src/interpreter.ts:58-70 | an input's name resolves to the input, a step's to its result, and a field's to the declared output or else the field of the result |
| References.ArgumentsResolveExactly | packages/workflows/src/interpreter.ts:455-466 | a tool's arguments resolve exactly when each does, to the map that holds each under its name |
| Approvals.ApprovalBroker.BeginRequest | packages/workflows/src/approval.ts:32-37 | a handle is created unapproved with its binding and expiry, or refused for a lifetime out of bounds |
| Approvals.ApprovalBroker.FinishRequest | packages/workflows/src/approval.ts:38-43 | the approver's answer decides whether the handle is approved, if it is still there |
| Approvals.ApprovalBroker.Consume | packages/workflows/src/approval.ts:45-60 | succeeds exactly for an approved, unused, unexpired handle with the expected binding, which it uses up; an expired one is dropped |
| Approvals.ApprovalBroker.Revoke | packages/workflows/src/approval.ts:62-64 | the handle is gone |
| Approvals.ConsumedOnce | packages/workflows/src/approval.ts:45-60 | after a handle was consumed, no later call is let through with its id, whatever happens at the broker |
| Approvals.UsableWasApproved | packages/workflows/src/approval.ts:32-43 | a usable handle was requested with exactly the binding expected and afterwards approved by a review, with no other request of it and no denial since |
| InterpreterSafety.RunOk | packages/workflows/src/interpreter.ts:216-352 | the invariant tying checkpoint, program counter, handles and dispatch log, over every run with crashes, resumes and failing saves; how runs end is told below |
| InterpreterSafety.DispatchedAtMostOnce | packages/workflows/src/interpreter.ts:229-353 | a write without idempotency is dispatched at most once per step over all resumes |
| InterpreterSafety.OnceDispatchedNeverAgain | packages/workflows/src/interpreter.ts:233-237 | once such a write was dispatched without a completed checkpoint, no later event dispatches anything |
| InterpreterSafety.ResumeEndsOutcomeUnknown | packages/workflows/src/interpreter.ts:224-237 | and a resume ends in outcome-unknown, or changes nothing when the workflow is not authorized |
| InterpreterSafety.WritesAreApproved | packages/workflows/src/interpreter.ts:399-500 | every write follows the consumption of an approved, unexpired handle bound to this run, plan, step, scope and arguments, which backs no other write; only a keyed write is taken up again, with the same key |
| InterpreterSafety.AcceptedReferencesResolve | packages/workflows/src/interpreter.ts:58-95 | when no step continues after a failure, every reference a step may make resolves in every reachable checkpoint, to the value stored under it |
| InterpreterValues.InputsResolveToTheirValues | packages/workflows/src/interpreter.ts:238-254 | in every run, what a step reads under an input's name is what a start or resume was given for it |
| InterpreterEnds.SucceededOnlyAtTheEnd | packages/workflows/src/interpreter.ts:256-352 | over all runs, success is stored only past the last step, with no write pending and, when no step continues after a failure, with every step's value there |
| InterpreterEnds.TurnsExactly | packages/workflows/src/interpreter.ts:256-284 | between two steps a run ends as succeeded after the last one, and before it stops without authority, ends as cancelled or paused when it is cancelled or late, and goes on otherwise, with exactly this checkpoint stored |
| InterpreterEnds.EnterFailsExactly | packages/workflows/src/interpreter.ts:355-500 | entering a step fails it exactly when an input, the tool, the authority or an approved, unused, unexpired handle of the expected binding is missing |
| InterpreterEnds.FailureEndsExactly | packages/workflows/src/interpreter.ts:317-346 | in every run, a failed step stores exactly the state its marker demands: unknown after a marked one-time write, else cancelled or failed, with the marker of a write that may have left |
| InterpreterEnds.ResumeGoesOn | packages/workflows/src/interpreter.ts:229-262 | a resume goes on from the stored checkpoint when no one-time write is pending |
| InterpreterEnds.ApprovalsAfter | packages/workflows/src/approval.ts:28-64 | an approval outlives exactly a crash that spares the broker, and no revocation |
| InterpreterSuccess.StepSucceeds | packages/workflows/src/interpreter.ts:277-316 | a step with all it needs, undisturbed, ends with its result under its keys, its handle used up, and exactly its entries on the log: the answer, the read, or the use of the handle and one write with the step's own key |
| InterpreterSuccess.UndisturbedRunSucceeds | packages/workflows/src/interpreter.ts:216-352 | for every validated setup, an undisturbed run whose steps have what they need ends idle with success stored past the last step and every step's result under its key |
| InterpreterSuccess.AdaptersAlwaysSucceed | packages/workflows/src/interpreter.ts:216-352 | a workflow of steps that neither ask nor write always does, whatever its inputs and results |
| InterpreterApproval.ApprovedWriteSucceeds | packages/workflows/src/interpreter.ts:395-500 | a write whose arguments are those its approval step had approved, in time, leaves with exactly those arguments, after the answer and the use of that handle under that step's binding |
| InterpreterValues.StepsKeepTheirValues | packages/workflows/src/interpreter.ts:297-346 | over every run and its resumes, a stored value is in every later stored checkpoint, unchanged, exactly when no handler of a failed step holds a checkpoint without it |
| InterpreterValues.StoredValuesStay | packages/workflows/src/interpreter.ts:297-346 | while no save has reported failure after taking effect, stored values stay whatever comes later |
| InterpreterValues.StoredValueIsReplaced | packages/workflows/src/interpreter.ts:317-345 | a run, for any one-step workflow and any two results, in which a stored value is replaced |
| Scheduler.BoundedRuntimeScheduler.Schedule | packages/core/src/scheduler.ts:47-82 | the decision and the whole new queue: generations before embeddings, each in acceptance order |
| Scheduler.BoundedRuntimeScheduler.Cancel | packages/core/src/scheduler.ts:84-98 | the active task is aborted, a queued one is removed and rejected, anything else is left alone |
| Scheduler.BoundedRuntimeScheduler.Dispose | packages/core/src/scheduler.ts:109-119 | everything queued is rejected and the active task aborted |
| Scheduler.BoundedRuntimeScheduler.Drain | packages/core/src/scheduler.ts:121-125 | the first of the queue becomes active exactly when nothing is and the scheduler is not disposed |
| Scheduler.BoundedRuntimeScheduler.Finish | packages/core/src/scheduler.ts:126-143 | the active task settles and is cleared, and the next one starts; with which outcome is FinishSettles' |
| SchedulerRuns.SchedulerStaysSound | packages/core/src/scheduler.ts:47-143 | over every interleaving the queue keeps its bound and order, the tracked ids are those pending, and an idle scheduler has no queue |
| SchedulerRuns.SettlesOnceAndNeverAfterAbort | packages/core/src/scheduler.ts:121-143 | every accepted request is pending or settled once, and an aborted one never with a value |
| SchedulerRuns.FinishSettles | packages/core/src/scheduler.ts:126-143 | in every run, the end of a task settles its request as a value exactly when it returned one unaborted, as the task's error exactly when it threw unaborted, and when aborted as disposed or cancelled by whether the scheduler is disposed |
| SchedulerRuns.OthersSettle | packages/core/src/scheduler.ts:84-119 | in every run, scheduling settles nothing, cancelling exactly a queued request of that id, and the first disposal exactly everything queued |
| SchedulerRuns.OneTaskAtATime | packages/core/src/scheduler.ts:121-143 | each accepted request starts at most once, and everything that has started has settled but the last one while it is active |
| SchedulerRuns.NoOvertaking | packages/core/src/scheduler.ts:74-81 | nothing accepted later starts before a waiting generation |
| Cortex.CortexImpl.BeginInitialize | packages/core/src/cortex.ts:84-92 | initialization starts only from new |
| Cortex.CortexImpl.EndInitialize | packages/core/src/cortex.ts:93-105 | it ends in ready or back in new, unless aborted or disposed |
| Cortex.CortexImpl.BeginPropose | packages/core/src/cortex.ts:115-128 | a proposal starts only for an id neither stored, active nor executed |
| Cortex.CortexImpl.EndPropose | packages/core/src/cortex.ts:132-149 | the proposal is stored and its controller released |
| Cortex.CortexImpl.BeginExecute | packages/core/src/cortex.ts:152-166 | the stored proposal is taken and its id reserved before any await |
| Cortex.CortexImpl.Cancel | packages/core/src/cortex.ts:217-222 | exactly the active operation of the id is aborted |
| Cortex.CortexImpl.Dispose | packages/core/src/cortex.ts:224-233 | every controller is aborted and everything is forgotten |
| CortexRuns.LifecycleStaysSound | packages/core/src/cortex.ts:65-239 | the invariant over every interleaving of propose, execute, cancel, abort and dispose |
| CortexRuns.ExecutedAtMostOnce | packages/core/src/cortex.ts:152-196 | an executor is invoked at most once per request id in the instance's life |
| CortexRuns.ExecutedAsProposed | packages/core/src/cortex.ts:165-196 | only for a stored proposal of that request and route, when the route decided afresh is the same local one |
| CortexRuns.AbortedNeverReturns | packages/core/src/cortex.ts:196-215 | an execution aborted before its executor finished never returns output; when one does return is InvokedReturnsExactly's |
| CortexRuns.ProposesExactly | packages/core/src/cortex.ts:115-150 | in every run, a proposal is stored exactly when it is not aborted, a route is decided and its fingerprint computed |
| CortexRuns.ExecutesExactly | packages/core/src/cortex.ts:165-196 | in every run, an execution starts its executor exactly when its input is the stored proposal's, the route decided afresh is that same local one, and nothing fails |
| CortexRuns.InvokedReturnsExactly | packages/core/src/cortex.ts:196-215 | in every run, an invoked execution's next step is its last, and returns output exactly when the call succeeds unaborted |
| CortexRuns.UndisturbedReturns | packages/core/src/cortex.ts:84-215 | for every request and local route, the undisturbed run of initialize, propose and execute ends with the output of its one executor |
| CortexRuns.RunningCanBeAborted | packages/core/src/cortex.ts:217-239 | a signal, a cancellation and a disposal each abort a running operation |
| CortexRuns.DisposedIsTerminal | packages/core/src/cortex.ts:224-239 | once disposed, the instance stays so over all later events and no operation begins |
| CortexRuns.AbortedStillInvokesExactlyPastLastCheck | packages/core/src/cortex.ts:175-196 | in any run, some continuation starts an aborted operation's executor exactly when it is past the last check of its signal with the proposed local route decided afresh |
| CortexRuns.CancelledStillInvokes | packages/core/src/cortex.ts:175-196 | for every request and local route, the run that cancels between the two does start it |
| Replay.ReplayTable.ConsumeDisclosure | examples/developer-online-gateway/src/gateway.ts:132-146 | the verdict and the whole new table, pruned of what has expired |
| Replay.DecisionsAgree | examples/developer-online-gateway/src/gateway.ts:132-146 | with a clock that does not go back, the pruned table decides as the full history of accepted disclosures does |
| Replay.TableHoldsUnexpired | examples/developer-online-gateway/src/gateway.ts:137-139 | the table is exactly the accepted disclosures unexpired at the last call |
| Replay.TableIsBounded | examples/developer-online-gateway/src/gateway.ts:143 | it never exceeds 2048 entries, whatever the clock does |
| Replay.NeverAcceptedTwice | examples/developer-online-gateway/src/gateway.ts:142-144 | no nonce with its expiry is accepted twice in a run |
| Replay.VerdictsExactly | examples/developer-online-gateway/src/gateway.ts:132-146 | for any clock, a disclosure within its lifetime is a replay exactly when an earlier acceptance of its nonce has not expired at any call since, and is otherwise accepted exactly while the table has room |
| Replay.SecondAcceptanceExactly | examples/developer-online-gateway/src/gateway.ts:137-144 | for any clock, an accepted nonce is refused before it expires exactly when no call since came at or after its expiry, and accepted again exactly when one did and the table has room |
| Replay.ClockBackReplays | examples/developer-online-gateway/src/gateway.ts:137-144 | a run in which it does |
| CanonicalJson.Visit | packages/contracts/src/json.ts:21-88 | accepts exactly the values within the depth, entry and string limits that JSON can carry, and counts their entries |
| CanonicalJson.Canonicalize | packages/contracts/src/json.ts:90-112 | a text exactly for acceptable values whose serialization fits the byte limit |
| CanonicalForm.SortAscends | packages/contracts/src/json.ts:100 | keys stand in ascending order of UTF-16 code units (section 3.2.3 of RFC 8785) |
| CanonicalForm.EqualSerialize | packages/contracts/src/json.ts:93-104 | equal JSON values have the same text, whatever the order of their keys |
| CanonicalInjective.ValueCut | packages/contracts/src/json.ts:93-104 | a value's text inside a larger one ends in one place only and determines the value |
| CanonicalInjective.CanonicalTextIsIdentity | packages/contracts/src/json.ts:90-112 | two accepted values have the same text exactly when they are equal, numbers up to negative zero |
| CanonicalInjective.CanonicalTextIsWellFormed | packages/contracts/src/json.ts:106-107 | the text has no lone surrogate, so its UTF-8 encoding loses nothing |
| JsonReading.CanonicalTextDenotes | packages/contracts/src/json.ts:90-112 | read by the grammar of ECMA-404, the canonical text of an accepted value is that value, with its keys in ascending order |
| JsonReading.UnitIsSpelled | packages/contracts/src/json.ts:94-102 | each unit outside a surrogate pair is spelled as JSON.stringify spells it: short escapes, lower-case digits, or as it is |
| JsonReading.LessIsBefore | packages/contracts/src/json.ts:100 | the order of the keys is that of their first differing code units |
| JsonReading.Utf8LengthIs | packages/contracts/src/json.ts:106-109 | the length the byte limit is held against is that of the UTF-8 encoding (section 3 of RFC 3629) |
| JsonText.BodyCut | packages/contracts/src/json.ts:94-102 | a quoted string can be read back in one way only |
| Redaction.MergeSensitiveSpans | packages/privacy/src/redaction.ts:41-82 | refuses exactly a span outside the text; merged spans are in order, strictly separated, cover exactly the union, and carry exactly the categories and worst severity of the spans in them |
| Rehydration.RedactSensitiveData | packages/privacy/src/redaction.ts:84-108 | the sanitized text, the entries and the replacement map of a redaction, and when it is refused |
| Rehydration.RehydrateText | packages/privacy/src/redaction.ts:110-125 | every match replaced leftmost first, and the set of those the map does not know; refused exactly when too long |
| Rehydration.TextIsClear | packages/privacy/src/redaction.ts:90-123 | text without the token keeps every look-alike, also next to a placeholder |
| Rehydration.PlaceholderMatches | packages/privacy/src/redaction.ts:27 | the pattern matches a placeholder exactly when its index has at most four digits |
| Rehydration.MatchesExactly | packages/privacy/src/redaction.ts:27 | the pattern matches at the start of a text exactly when that begins with the brackets, 32 hexadecimal digits, one to four digits and 16 hexadecimal digits it asks for |
| Rehydration.RehydratesExactly | packages/privacy/src/redaction.ts:110-125 | rehydration fills in exactly the placeholders the map knows and reports exactly the others |
| Rehydration.RedactionRoundTrip | packages/privacy/src/redaction.ts:84-125 | rehydrating gives the original back exactly when at most 10,000 spans were replaced and the sanitized text is within the limit |
| Rehydration.RedactedLength | packages/privacy/src/redaction.ts:90-108 | the length of the sanitized text, from the spans alone |
| Rehydration.NearlyFullTextIsRefused | packages/privacy/src/redaction.ts:84-125 | an accepted text with one short span whose redaction cannot be rehydrated |
| Csv.ScanRecords | packages/workflows/src/csv.ts:11-40 | the index loop collects the records of the scanner, or the first error |
| Csv.ParseCsv | packages/workflows/src/csv.ts:7-55 | the rows, or the error of the first check that fails |
| Csv.SerializeCsv | packages/workflows/src/csv.ts:68-86 | the written lines and the number of escaped cells |
| CsvRoundTrip.GridRoundTrip | packages/workflows/src/csv.ts:15-40 | any grid of fields is read back exactly, whatever quotes, commas and line breaks they hold (rules 5 to 7 in section 2 of RFC 4180) |
| CsvRoundTrip.NoFormulaSurvives | packages/workflows/src/csv.ts:57-66 | for any rows, nothing read back looks like a formula |
| CsvExactly.GuardedExactly | packages/workflows/src/csv.ts:57-63 | an apostrophe is put before exactly the cells that start with a tab or carriage return, or whose first character other than white space is one of the four signs |
| CsvExactly.WrittenExactly | packages/workflows/src/csv.ts:64 | a field is quoted exactly when it holds a quote, comma or line break |
| CsvExactly.TrimExactly | packages/workflows/src/csv.ts:42-43 | trimming takes the white space at both ends and no more |
| CsvExactly.RowsExactly | packages/workflows/src/csv.ts:41-55 | which records make rows, which headers and columns are refused and how, and that each row holds the fields of its record under the trimmed headers, in order |
| CsvExactly.Utf8LengthIs | packages/workflows/src/csv.ts:10 | the length the byte limit is held against is that of the UTF-8 encoding |
| CsvRoundTrip.SameNamesSamePlaces | packages/workflows/src/csv.ts:41-48 | header names that come back as the same set come back in their places |
| CsvRoundTrip.CsvRoundTripExactly | packages/workflows/src/csv.ts:7-86 | rows over shared headers come back exactly when headers and cells meet the stated condition |
| Chunking.BoundaryIsPreferred | packages/memory/src/ingest.ts:91-96 | a chunk ends at the last heading in its window, else the last blank line, else the last full stop, else at its full length |
| Chunking.CreateChunks | packages/memory/src/ingest.ts:98-135 | the chunks of a document, refused exactly when there are more than allowed |
| Chunking.ChunkIsSlice | packages/memory/src/ingest.ts:111-130 | each chunk is the slice at its offsets, at most 1801 characters, from the start to the end of the document |
| Chunking.ChunksOverlap | packages/memory/src/ingest.ts:132 | neighbours share exactly 160 characters and starts advance by at least 830 |
| Chunking.ChunksRebuild | packages/memory/src/ingest.ts:98-135 | the first chunk and the later ones without their overlap make up the document |
| Chunking.ChunkCount | packages/memory/src/ingest.ts:98-135 | n chunks need more than 830 (n - 1) characters |
| Base64.ToBase64 | packages/memory/src/encoding.ts:20-33 | the encoding, group by group |
| Base64.FromBase64 | packages/memory/src/encoding.ts:35-52 | the decoded bytes, or an error exactly for an empty, ill-sized or illegible text |
| Base64.AlphabetIs | packages/memory/src/encoding.ts:20-33 | the alphabet of Table 1 of RFC 4648 |
| Base64.Base64RoundTrip | packages/memory/src/encoding.ts:20-52 | decoding undoes encoding, and the encoding passes the stored-value check (section 4 of RFC 4648) |
| Base64.CanonicalDecodes | packages/memory/src/validation.ts:39-49 | a text that passes the check for n bytes decodes to exactly n bytes |
| Base64.CanonicalIsUniqueWhenUnusedBitsAreZero | packages/memory/src/validation.ts:39-49 | such a text is its own re-encoding exactly when the unused bits are zero |
| Retrieval.Cosine | packages/memory/src/retrieval.ts:25-39 | the similarity of two vectors of the same length and nonzero norms, and nothing otherwise |
| Retrieval.LexicalScores | packages/memory/src/retrieval.ts:64-89 | the positive scores of the chunks, from their term and document frequencies |
| Retrieval.VectorScores | packages/memory/src/retrieval.ts:91-116 | the similarities of the allowed chunks' embeddings from the same model and dimensions |
| Retrieval.Retrieve | packages/memory/src/retrieval.ts:123-170 | answers as the search function does: the refusals, and the results otherwise |
| RetrievalResults.UnseenDataDoesNotMatter | packages/memory/src/retrieval.ts:123-170 | two snapshots that show a request the same give the same answer, refusals included |
| RetrievalResults.DroppingUnauthorizedChangesNothing | packages/memory/src/retrieval.ts:41-62 | dropping every unauthorized chunk with its embeddings changes no answer |
| RetrievalResults.ResultsAreAuthorized | packages/memory/src/retrieval.ts:41-62 | every result shows a chunk of the request's workspace, within its retention, not of a denied source, of the allowed sources and sensitivities and no other origin, and for a recipient listed by an unrevoked, unexpired grant of that workspace to it of no other origin; of the current revision of an undeleted document |
| RetrievalResults.TopIsBest | packages/memory/src/retrieval.ts:168-170 | what a search returns has the higher scores, and of equal ones the lower ids, first, fills the limit, and no match left out is better |
| RetrievalResults.RefusedExactly | packages/memory/src/retrieval.ts:134-141 | a search is refused exactly for a blank or overlong query, a limit out of range, or a cancellation |
| RetrievalScores.PermittedAreFound | packages/memory/src/retrieval.ts:136-149 | every chunk with those permissions, of a current revision and with a score, is among the matches |
| RetrievalScores.CombinedScoreExactly | packages/memory/src/retrieval.ts:150-152 | a result's combined score is the sum of the reciprocals of 60 plus its lexical and its vector place, where it has one |
| RetrievalScores.PlaceExactly | packages/memory/src/retrieval.ts:118-121 | a place is one more than the number of higher, or earlier and equal, scores |
| RetrievalScores.LexicalIsOkapi | packages/memory/src/retrieval.ts:64-89 | the lexical score is Okapi BM25 with k1 = 1.2 and b = 0.75 over the chunks searched |
| RetrievalScores.LexicalScoreExactly | packages/memory/src/retrieval.ts:74-88 | a result reports that score of its chunk where it is positive, and zero otherwise |
| RetrievalScores.VectorScoreOf | packages/memory/src/retrieval.ts:91-116 | a chunk's similarity is that of its last embedding of the query's model, revision and dimensions |
| RetrievalResults.BetterScoreBetterRank | packages/memory/src/retrieval.ts:118-121 | a better score has a better rank and a larger share of the fused score |
| RetrievalResults.LexicalIsDistinct | packages/memory/src/retrieval.ts:74-88 | each chunk is scored once |

## Left out

- InterpreterSafety.ResumeEndsOutcomeUnknown: needs both storage calls of the resume to succeed, because the source throws when one fails.
- InterpreterSafety.WritesAreApproved: for tool descriptors that stay the same over all resumes. The source takes its tools per interpreter and knows them by name and version only, so a pending keyed write whose tool comes back under the same name and version with another idempotency is not covered.
- VaultSafety.VaultStaysSound: storage calls that report failure are not part of the vault runs; the migration runs have them. Deleting a workspace by the id of a document, revision or chunk is left to VaultGraph.DeletingWorkspaceKeepsGraph, and importing an archive that is not sound to VaultSafety.ImportIsUnchecked, which show that they break the graph.
- VaultSafety.CompensationOk: without an interruption between its two transactions; what an interruption does is stated by VaultGraph.CompensationIsNotAtomic.
- VaultRequests.RequestIsServed: for runs that no lock, crash or other request disturbs; VaultSafety and VaultWholeness have those. A workspace deleted by the id of a document, revision or chunk, and the import of an archive that is not sound, are left out as in VaultStaysSound. A purge or unlock during which the clock moves is told to purge as of one of the times of the run.
- InterpreterSuccess.UndisturbedRunSucceeds: the conditions of a write, an approved handle among them, are the ones of InterpreterEnds.Doable when its turn comes; InterpreterApproval.ApprovedWriteSucceeds shows how an approval step brings them about.
- Migration.NextUnlockCompletes: for a fresh vault object; a retry on an object whose cached header went stale while a commit was pending is not modelled.
- Csv.SerializeCsv: takes the headers in the locale's order as an argument, since that order is not modelled.
- Rehydration.RedactSensitiveData: takes its random draws as arguments, after the loops that repeat a draw the text already holds.
- Base64.ToBase64: the bytes and characters of one group are a function of their own, called by the loop.
- Migration.MigrationIsCrashSafe: starts from a schema 1 store without a pending migration.
- The vault's run is a machine of steps between awaits rather than one sequential method, because a lock or a crash may come in at every await; the same holds for the interpreter's run loop, propose and execute. The class methods cover the pieces between awaits.
- InterpreterSafety.RunOk: the handler's test of an error's own outcome-unknown flag is left out, because no code of the interpreter raises an error with that flag set and the error class is private to it.
- VaultSafety.ExportImportsBack: from the moment after the export's own purge, which is modelled as a purge of its own. A schema 1 archive stands in the model as what it is migrated to.
- VaultAfterMigration.MigratingUnlockGoesOn: for an original vault whose own records are sound, since the migration does not check that revisions and chunks are listed by what they belong to.
- Graph rules for grants, derived records, workflows and receipts after their own saves, which do not check the workspace ids they are given.
- The auto-lock timer, the export's file format, and the IndexedDB adapter.
- Cryptography, key derivation and random generation, beyond the symbolic pair, injective digests and fresh ids.
- Overlapping consumption of one approval handle, and resuming a run under another plan or workflow.
- Step inputs with a `ref` key and other keys, which validation takes as literals and the interpreter resolves; and names inherited through a prototype.
- The values computed by workflow operations other than tools, exports and approvals, and predicates over them.
- The promise that later callers of an initialization in flight share, at the granularity of microtasks.
- Cyclic JSON input and the wording of errors; a JSON value is a finite tree, and a finite number is the text ECMAScript renders it as.
- Tokenizing, normalizing and parsing of imported documents, sensitive-data detectors, and the checks on imported CSV and JSON sources.
- Rounding in retrieval scores: they are real numbers, with the logarithm and square root as parameters.
- The rest of the gateway's HTTP handling, the extension broker, model runtimes, user interfaces and demos.
