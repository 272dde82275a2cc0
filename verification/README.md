# Verified model of the durable-state commands

The bridge keeps every durable fact in SQLite, and its hard logic is a set of transactions that must
survive crashes, lost commit results and repeated runs. This project models those transactions over a
database state and proves what they keep, when they succeed, and that repeating them is harmless.

A database is a record of maps keyed by primary key (`Tables.Store`); a transaction is a private copy
that is installed whole or dropped. Every command is written twice where the program works by changing
things in place: as a function from the old state to the new one, and as a method (often of a class)
that makes the same changes step by step and is proved to land on that function. Beside each main
operation stands an exact outcome, written apart from it over rows, columns and literal texts (the `…Sql`,
`…Reports`, `…Outcomes` and `…Tables` modules): every error it can give and every row it leaves.

| module | part of the program |
|---|---|
| `Prelude`, `Bytes`, `Cells`, `Streams`, `Receipts` | ordering, UTF-8, length framing, SQLite and Rust quoting, snapshot byte stream, sibling receipts |
| `Tables` | the business tables and their event logs |
| `Snapshots`, `SnapshotIdentity`, `SnapshotSizes` | the thirteen-table state snapshot, what it determines and when its sizes fit |
| `Sql`, `Rows` | what `WHERE`, `count(*)`, `UPDATE` and `ORDER BY … LIMIT 1` mean over all rows of a table |
| `TerminalClosure`, `TerminalClosureSql` | the shared terminal write, and the same write as its SQL statements |
| `PreAcceptance`, `PreAcceptanceProofs`, `PreAcceptanceTheorems`, `PreAcceptanceSql`, `PreAcceptanceOutcomes` | offline closure of dispatches refused before acceptance, every answer and every row written |
| `TupleSelection`, `LeaseDiagnostics` | two further eligibility tests, written apart from the validator |
| `DeliveryReconciliation`, `RuntimeRecovery` | the rest of the offline recovery pipeline |
| `RecoverySql` | selection, diagnosis, reconciliation and runtime recovery, every answer over rows |
| `FixtureMigration`, `FixtureMigrationTheorems` | isolated fixture migration with a projected post-state |
| `LegacyOwner`, `LegacyOwnerTheorems` | legacy owner reconciliation with its logical digest |
| `EligibilitySql`, `ExecutionTables` | when the three commands with receipts accept a database, and every outcome of their transactions |
| `OwnerBinding`, `OwnerBindingTheorems`, `OwnerBindingProtocol`, `OwnerBindingReports`, `OwnerBindingChain` | the two-transaction owner-binding remediation |
| `Gateway`, `GatewaySql`, `GatewayAdmission`, `GatewaySender`, `GatewayCleanup` | gateway admission, acceptance sender, cleanup claims |
| `AdmissionLock` | the runtime admission lock file |
| `Placeholders` | environment placeholders in configuration strings |
| `Samples` | concrete databases: one whose fresh manifest is rejected, one that remediation repairs |

`dafny verify dfyconfig.toml` checks everything.

## Results that are false of the code as one would first state them

Each has a lemma at a concrete input where it fails, and a theorem that says exactly when it holds.

| first statement | failing input | exact condition |
|---|---|---|
| A freshly prepared fixture manifest always migrates. SQLite's `quote()` stops at the first NUL of a text and the Rust helper does not. | `Samples.ProjectionCanFail` | `FixtureMigrationTheorems.FreshManifestMigrates`, `ProjectionCommutes` |
| A freshly prepared legacy-owner manifest always reconciles. Preparation does not check the owner's fingerprint as reconciliation does. | `LegacyOwnerTheorems.PreparedThenRejected` | `LegacyOwnerTheorems.FreshManifestReconciles` |
| A batch of open tuples always commits. The final planner comparison fires when a target's task has another acknowledged delivery, and a table CHECK refuses an acknowledgement before the dispatch. | `PreAcceptanceTheorems.CommitCanFail` | `PreAcceptanceTheorems.CommitExactly` |
| A cleanup delete with an outdated revision never succeeds. A deleted outbound id can be reserved again and starts again at revision 0. | `GatewayCleanup.OutdatedDeleteCanSucceed` | `GatewayCleanup.OutdatedDeleteExactly`; never for inbound ids: `InboundOutdatedDeleteFails` |
| Sends equal the stored attempt count. A call may die between recording the attempt and sending. | `GatewaySender.SendsCanFallShort` | the conservation law of `GatewaySender.SendsAreBounded` |
| An admission digest identifies the admission row. NULL and the text `<null>` look alike. | `OwnerBindingChain.NullLooksLikeText` | `OwnerBindingChain.AdmissionDigestExactly` |
| Any crash of a lock acquisition is repaired by the next one. | `AdmissionLock.EmptyLockSticks` | `AdmissionLock.NextAcquisitionRepairs` |

## Model

| member | source | states |
|---|---|---|
| `Bytes.Utf8Injective` | src/owner_binding_remediation.rs:87-95 | two texts with the same bytes are the same text, which every digest of texts relies on |
| `Prelude.TextLessExactly` | src/isolated_fixture_migration.rs:220-262 | the order of texts is by the first character in which they differ, a prefix coming first |
| `Bytes.EncodeCharExactly` | src/owner_binding_remediation.rs:87-95 | each character's bytes are its UTF-8 (section 3 of RFC 3629): lead byte by length, six bits in each further byte |
| `Bytes.FrameAllInjective` | src/legacy_owner_reconciliation.rs:221-228 | a length-prefixed part list cannot be regrouped: equal streams, equal lists |
| `Bytes.HashParts` | src/owner_binding_remediation.rs:87-95 | the accumulator loop hashes the domain label followed by every part behind its length |
| `Bytes.FramedDigestInjective` | src/owner_binding_remediation.rs:87-95 | equal framed digests under one label come from equal part lists |
| `Cells.QuoteExact` | src/isolated_fixture_migration.rs:498-564 | SQLite's quoting keeps a cell exactly up to the first NUL of a text: equal quotes iff equal up to there |
| `Cells.QuotingsAgree` | src/isolated_fixture_migration.rs:476-478 | the Rust helper and SQLite quote a text alike iff it holds no NUL |
| `Cells.UpToNulExactly` | src/isolated_fixture_migration.rs:498-564 | what SQLite's quoting sees is the longest prefix without a NUL |
| `Cells.DoubledExactly` | src/isolated_fixture_migration.rs:476-478 | quoting doubles each quote character and keeps every other |
| `Streams.RunsSplit` | src/isolated_fixture_migration.rs:578-611 | a run of length-framed values ends in only one place although table names are not framed |
| `Streams.BodyInjective` | src/isolated_fixture_migration.rs:578-611 | the stream of names and rows determines every row of every table |
| `Streams.HashTables` | src/isolated_fixture_migration.rs:565-612 | the nested hashing loops produce the header followed by that stream |
| `Snapshots.DigestInjective` | src/isolated_fixture_migration.rs:493-613 | equal snapshot digests mean equal headers and equal tables, value for value |
| `Snapshots.ContentsWide` | src/isolated_fixture_migration.rs:498-564 | every table contributes rows of its declared width |
| `SnapshotIdentity.SnapshotDetermines` | src/isolated_fixture_migration.rs:493-613 | for NUL-free stores, equal snapshots mean equal stores in all thirteen tables |
| `SnapshotIdentity.BusinessDigestDetermines` | src/isolated_fixture_migration.rs:487-491 | the same for the business snapshot that remediation compares |
| `Tables.LatestAfterAppend` | src/terminal_closure.rs:74-177 | appending past the end of one event log moves its latest sequence number and no other's |
| `TerminalClosure.Transaction.Apply` | src/terminal_closure.rs:74-177 | the six guarded writes in order, in every mode, with the first refused guard as the error |
| `TerminalClosureSql.ClosureExactly` | src/terminal_closure.rs:74-177 | in every mode the outcome, error or store, is that of the six SQL statements over whole tables, in order, the first refused one giving the error |
| `TerminalClosureSql.LiveClosureExactly` | src/terminal_closure.rs:104-176 | the live write succeeds iff the event is acceptable, the admission open, the acknowledgement timely and the lease this task's, active and unexpired; then exactly these rows change, otherwise the first refused guard is the error |
| `TerminalClosure.ClosureIsConfined` | src/terminal_closure.rs:74-177 | a closure adds one terminal event, raises the admission revision by one, releases one lease and touches no other task's rows |
| `TerminalClosure.ClosureIsOnce` | src/terminal_closure.rs:74-177 | a closed task cannot be closed again in any mode |
| `PreAcceptance.RemoveTargetsInPlace` | src/offline_preacceptance.rs:63-74 | the in-place removal loop, with its three refusals, equals its specification |
| `PreAcceptance.CollectPending` | src/offline_preacceptance.rs:257-266 | the validation loop returns the tuples still open, or the first error |
| `PreAcceptance.ClosePending` | src/offline_preacceptance.rs:275-286 | each close works on what the one before it left |
| `PreAcceptance.CloseOneInTransaction` | src/offline_preacceptance.rs:591-680 | one close, with every error path, on the transaction |
| `PreAcceptance.RecoverInTransaction` | src/offline_preacceptance.rs:251-292 | the whole command equals its specification: count, planner and final store, or the error |
| `PreAcceptance.ValidateOpenExactly` | src/offline_preacceptance.rs:321-452 | the validator answers "open" iff all open-tuple conditions hold, and "closed" on every closed tuple |
| `PreAcceptanceSql.ValidateExactly` | src/offline_preacceptance.rs:321-581 | the validator's answer for every tuple over rows: open iff dispatched last and never accepted; closed iff this command closed it; not eligible otherwise |
| `PreAcceptanceSql.RecoverOutcomes` | src/offline_preacceptance.rs:251-274 | nothing to do iff every tuple is so closed; a mixture or any other tuple is not eligible |
| `PreAcceptanceSql.ArgumentsChecked` | src/offline_preacceptance.rs:159-173 | no tuples, no time or a repeated tuple is refused before the database is looked at |
| `PreAcceptanceSql.PlannerRows` | src/offline_preacceptance.rs:46-61 | what the planner sets hold, by rows and printed identities |
| `PreAcceptanceOutcomes.CloseOneRefusal` | src/offline_preacceptance.rs:591-680 | the error of an open tuple that cannot be closed: unparsable id, unparsable time, id not canonical, time before the dispatch, in that order |
| `PreAcceptanceOutcomes.CloseOneTable` | src/offline_preacceptance.rs:591-680 | closing any tuple on any state: fenced unless the admission is dispatching, one lease awaits recovery and the task is there; then parsing; then the terminal write, its errors renamed |
| `PreAcceptanceOutcomes.CloseAllRefusal` | src/offline_preacceptance.rs:275-286 | a batch fails with what stops its first tuple that cannot be closed, as it stood at the start |
| `PreAcceptanceOutcomes.RecoverRefusal` | src/offline_preacceptance.rs:251-292 | and so does the whole transaction |
| `PreAcceptanceOutcomes.RemoveTargetsRefusal` | src/offline_preacceptance.rs:63-74 | the planner sets give up their targets only if each is there, once |
| `PreAcceptanceOutcomes.CommittedRows` | src/offline_preacceptance.rs:275-292 | every row of every target of a committed batch, column by column, with the event id generated for it |
| `PreAcceptanceProofs.CloseOneExactly` | src/offline_preacceptance.rs:591-680 | closing an open tuple succeeds iff its id is canonical, the time parses and is not before the dispatch; then the six tables change exactly so |
| `PreAcceptanceProofs.OpenTasksDiffer` | src/offline_preacceptance.rs:366-400 | distinct open tuples belong to different tasks |
| `PreAcceptanceProofs.ClosingIsRecognised` | src/offline_preacceptance.rs:454-581 | the tuple just closed passes the closed-state recogniser |
| `PreAcceptanceProofs.ClosingUntouched` | src/terminal_closure.rs:104-176 | rows of other tasks, and tables the closure never writes, are unchanged |
| `PreAcceptanceProofs.CloseAllExactly` | src/offline_preacceptance.rs:275-286 | no guard is fenced in the middle of a batch: it fails only for a tuple that was not closable at the start, and ends exactly the target tasks |
| `PreAcceptanceTheorems.IdentityInjective` | src/offline_preacceptance.rs:63-74 | the printed identity of a delivery determines delivery, task and attempt |
| `PreAcceptanceTheorems.RemoveTargetsExactly` | src/offline_preacceptance.rs:63-74 | the planner sets shrink by exactly the targets |
| `PreAcceptanceTheorems.FinalCheckExactly` | src/offline_preacceptance.rs:287-290 | the final comparison passes iff no acknowledged delivery of a target task vanishes from the planner |
| `PreAcceptanceTheorems.CommitExactly` | src/offline_preacceptance.rs:251-292 | distinct open tuples commit iff all are closable and no target task has another acknowledged delivery; then planner, targets and other rows are exactly as promised, otherwise the error is the fence |
| `PreAcceptanceTheorems.CommitCanFail` | src/offline_preacceptance.rs:287-290 | a concrete open and closable tuple whose recovery is fenced by another acknowledged delivery of its task |
| `PreAcceptanceTheorems.CommitKeepsAlignment` | src/offline_preacceptance.rs:454-581 | latest sequence number = version + 1 still holds for every task it held for |
| `PreAcceptanceTheorems.RecoveryIsIdempotent` | src/offline_preacceptance.rs:257-272 | after any successful recovery a second run at any time closes nothing and leaves an identical store |
| `TupleSelection.CollectLeaseConflicts` | src/readonly_tuple.rs:183-205 | the lease loop inserts exactly the conflicts of the leases it saw |
| `TupleSelection.SelectInOrder` | src/readonly_tuple.rs:91-126 | the selection loop equals its specification, errors included |
| `TupleSelection.ProveExactly` | src/readonly_tuple.rs:128-279 | on an aligned log the selector accepts a delivery iff the recovery validator calls it open, it was never reaped and its one lease names the admitted runtime |
| `TupleSelection.SelectedIsSole` | src/readonly_tuple.rs:91-126 | a selected tuple is the only acceptable row and no other row was even doubtful |
| `TupleSelection.SelectedIsOpen` | src/selected_preacceptance.rs:89-131 | whatever is selected on an aligned log validates as open |
| `TupleSelection.SelectedRecovers` | src/selected_preacceptance.rs:89-152 | recovery of the selected tuple succeeds iff it is closable and its task has no other acknowledged delivery; then exactly that tuple is closed |
| `TupleSelection.SelectedOnce` | src/selected_preacceptance.rs:89-152 | after the selected tuple is recovered nothing is left to select, so a second run reports none |
| `RecoverySql.ProveTableExactly` | src/readonly_tuple.rs:128-279 | the verdict on every tuple and database over rows, with the exact set of conflicts |
| `RecoverySql.SelectExactly` | src/readonly_tuple.rs:91-126 | the first failing row in key order gives the error; otherwise none, the one accepted row, or several |
| `LeaseDiagnostics.DiagnoseRead` | src/lease_owner_diagnostics.rs:81-289 | the counting loop gives a summary that does not depend on the order of the rows |
| `LeaseDiagnostics.ClassifiersAgree` | src/lease_owner_diagnostics.rs:98-272 | for an unacknowledged delivery: candidate with a named resource iff the selector accepts it and the lease owner is recorded and gone |
| `LeaseDiagnostics.SelectionBoundsDiagnosis` | src/lease_owner_diagnostics.rs:273-289 | when the selector picks a tuple whose owner is gone, the diagnosis is eligible unless some row is broken or has a live owner |
| `RecoverySql.LeaseTableExactly` | src/lease_owner_diagnostics.rs:238-272 | live owner, orphan, candidate or fenced, by the runtime row of the lease's owner |
| `RecoverySql.DiagnosisTableExactly` | src/lease_owner_diagnostics.rs:98-272 | the class of every delivery over rows |
| `RecoverySql.DiagnosisRanks` | src/lease_owner_diagnostics.rs:273-289 | which findings outrank which in the summary |
| `DeliveryReconciliation.ReconcileInTransaction` | src/offline_delivery.rs:154-254 | both loops, the counter and the final check equal their specification |
| `DeliveryReconciliation.SettleAllExactly` | src/offline_delivery.rs:226-248 | the update loop fails only for an untimely row, and acknowledges exactly the targets even when they repeat |
| `DeliveryReconciliation.PlannerConserved` | src/offline_delivery.rs:249-265 | unfinished and awaiting are unchanged and the unacknowledged set loses exactly the targets |
| `DeliveryReconciliation.ReconcileExactly` | src/offline_delivery.rs:154-254 | the complete outcome for every tuple list: work present, untimely, or success with the exact store; the final check never fires |
| `DeliveryReconciliation.ReconcileIsIdempotent` | src/offline_delivery.rs:226-254 | a second run at any time changes nothing |
| `RecoverySql.ReconcileRows` | src/offline_delivery.rs:93-225 | refused for missing arguments, and for work present iff some tuple's rows are not settled |
| `RecoverySql.SettledRowsAre` | src/offline_delivery.rs:226-248 | what a delivery and a disposition become |
| `RuntimeRecovery.StopInTransaction` | src/offline_recovery.rs:280-386 | ordered count checks and the guarded update equal their specification |
| `RecoverySql.StopExactly` | src/offline_recovery.rs:218-386 | for every argument and database: bad arguments, several live owners, wrong identity, already stopped, work present, or the one row stopped |
| `RecoverySql.StopProvenExactly` | src/offline_recovery.rs:39-185 | the proven-stale variant likewise, with the unparsable and the fresh heartbeat |
| `RuntimeRecovery.StaleCommandsCompared` | src/offline_recovery.rs:87-185 | the two stop commands differ only where deliveries or tasks are open and leases, continuations, admissions and queue are not |
| `RuntimeRecovery.OpenTupleBlocks` | src/offline_recovery.rs:324-363 | an open tuple makes stopping the runtime answer "work present" |
| `RuntimeRecovery.ClosedNeedsNoReconciliation` | src/offline_delivery.rs:154-254 | reconciling deliveries that recovery closed is a no-op |
| `RuntimeRecovery.Pipeline` | src/offline_recovery.rs:280-386 | targets that are the only open work: refused before closure; after it, reconciliation is a no-op, the runtime is stopped and none is live |
| `FixtureMigration.EligibleIsConsistent` | src/isolated_fixture_migration.rs:220-362 | the facts found are the two live owners and the single blocked continuation of the store |
| `EligibilitySql.EligibleExactly` | src/isolated_fixture_migration.rs:220-362 | a database is eligible, with these facts, iff its rows say so: owners, continuation, sessions, delivery, response, queue, claims, outbox, binding, and no reference to the stopping runtime |
| `EligibilitySql.IneligibleIsRejected` | src/isolated_fixture_migration.rs:763-878 | preparation succeeds iff the rows say so; otherwise it rejects, and so does a migration without a receipt |
| `EligibilitySql.ReferencesExactly` | src/isolated_fixture_migration.rs:331-337 | references are counted over leases, admissions, queue and claims |
| `EligibilitySql.FingerprintExactly` | src/isolated_fixture_migration.rs:164-169 | a legacy fingerprint, character by character |
| `ExecutionTables.ExecuteExactly` | src/isolated_fixture_migration.rs:1063-1122 | the transaction's outcome on every database and manifest: already migrated iff all nine receipt columns and the state agree; migrated, with exactly these rows, iff every check holds; rejected otherwise |
| `ExecutionTables.OwnerUpdateExactly` | src/isolated_fixture_migration.rs:1124-1137 | the owner update is one guarded statement over the table |
| `ExecutionTables.ContinuationUpdateExactly` | src/isolated_fixture_migration.rs:1139-1153 | the continuation update succeeds iff every column is as loaded, and changes that row only |
| `ExecutionTables.PostExactly` | src/isolated_fixture_migration.rs:1155-1164 | the post-check, row by row |
| `ExecutionTables.PairsExactly` | src/isolated_fixture_migration.rs:615-625 | what the sibling digest covers, pair by pair |
| `FixtureMigration.FixtureTransaction.UpdateOwnerRow` | src/isolated_fixture_migration.rs:1124-1137 | the guarded owner update changes that one row or nothing |
| `FixtureMigration.FixtureTransaction.UpdateContinuationRow` | src/isolated_fixture_migration.rs:1139-1153 | the guarded continuation update changes that one row or nothing |
| `FixtureMigration.FixtureTransaction.Run` | src/isolated_fixture_migration.rs:1063-1122 | the transaction, step by step, equals its specification |
| `FixtureMigrationTheorems.UpdatesSucceed` | src/isolated_fixture_migration.rs:1091-1103 | on an eligible store no guard is refused, the three updates have exactly the stated effect and the post-check passes |
| `FixtureMigrationTheorems.RuntimeLine` | src/isolated_fixture_migration.rs:592-599 | one projected owner line equals the updated row's line iff the row meets a condition on token and stamp |
| `FixtureMigrationTheorems.ProjectionCommutes` | src/isolated_fixture_migration.rs:493-613 | the digest computed in advance is the digest the updates produce iff the store is projectable |
| `FixtureMigrationTheorems.PlainIsProjectable` | src/isolated_fixture_migration.rs:476-478 | NUL-free identifiers and stamp are always projectable |
| `FixtureMigrationTheorems.RejectedUnlessProjectable` | src/isolated_fixture_migration.rs:1097-1099 | a store that is not projectable rejects its own fresh manifest |
| `Samples.ProjectionCanFail` | src/isolated_fixture_migration.rs:476-478 | a concrete eligible database, with a NUL in the active token, whose fresh manifest is rejected |
| `SnapshotSizes.ShortTablesFit` | src/isolated_fixture_migration.rs:606-609 | tables of short values meet the size assumption of the stream |
| `FixtureMigrationTheorems.ManifestIdentified` | src/isolated_fixture_migration.rs:627-662 | an authentic manifest is identified by its digest in every field |
| `FixtureMigrationTheorems.DigestIsFree` | src/isolated_fixture_migration.rs:627-648 | the unique manifest digest never collides with another operation's |
| `FixtureMigrationTheorems.ExecuteKeepsReceiptsSealed` | src/isolated_fixture_migration.rs:1104-1121 | every receipt written comes from a sealed manifest of its own operation |
| `FixtureMigrationTheorems.FreshManifestMigrates` | src/isolated_fixture_migration.rs:878-895 | prepare then migrate on an unchanged database: migrated, with the exact effect, iff projectable; rejected otherwise |
| `FixtureMigrationTheorems.RerunIsAlreadyMigrated` | src/isolated_fixture_migration.rs:1064-1080 | a rerun of any migration that went through changes nothing |
| `FixtureMigrationTheorems.StaleManifestIsRejected` | src/isolated_fixture_migration.rs:1081-1083 | a manifest migrates only the very store it was prepared on |
| `LegacyOwner.HashTables` | src/legacy_owner_reconciliation.rs:371-425 | the hashing loops emit versions, table names, column names and values in order |
| `LegacyOwnerTheorems.PartsInjective` | src/legacy_owner_reconciliation.rs:299-426 | equal logical digests mean equal versions and equal values in all six tables |
| `LegacyOwnerTheorems.ProjectionCommutes` | src/legacy_owner_reconciliation.rs:404-419 | the projected logical digest is the one the update produces iff the store is projectable |
| `LegacyOwnerTheorems.DigestIsFree` | src/legacy_owner_reconciliation.rs:1377-1395 | the unique manifest digest never collides with another operation's |
| `LegacyOwnerTheorems.ReconcileKeepsReceiptsSealed` | src/legacy_owner_reconciliation.rs:1433-1437 | every receipt written comes from a sealed manifest of its own operation |
| `LegacyOwnerTheorems.FreshManifestReconciles` | src/legacy_owner_reconciliation.rs:1419-1438 | a fresh manifest reconciles iff projectable and the owner's fingerprint is a legacy one |
| `LegacyOwnerTheorems.PreparedThenRejected` | src/legacy_owner_reconciliation.rs:1534-1552 | a concrete database that can be prepared and is then rejected |
| `LegacyOwnerTheorems.RerunIsAlreadyStopped` | src/legacy_owner_reconciliation.rs:1421-1427 | a rerun answers "already stopped" and changes nothing |
| `EligibilitySql.QuietExactly` | src/legacy_owner_reconciliation.rs:445-482 | eligible iff one live owner, not of the new kind, and no admission, work, lease, continuation or disposition open |
| `ExecutionTables.ReconcileOwnerExactly` | src/legacy_owner_reconciliation.rs:1377-1438 | the transaction's outcome on every database and manifest |
| `OwnerBindingTheorems.OnlyTwoReferences` | src/owner_binding_remediation.rs:327-332 | the lease and the admission are the only references to the stopping runtime |
| `OwnerBindingTheorems.NeverBothEligible` | src/owner_binding_remediation.rs:202-340 | no state is eligible both for remediation and for fixture migration |
| `OwnerBindingTheorems.RepairBinds` | src/owner_binding_remediation.rs:1329-1338 | the two updates rebind lease and admission and leave no reference to the stopping runtime |
| `OwnerBindingTheorems.RepairedEligibleExactly` | src/owner_binding_remediation.rs:1339-1341 | the repaired store is eligible for migration iff the legacy store met every condition that mentions neither owner |
| `EligibilitySql.LoadFactsExactly` | src/owner_binding_remediation.rs:202-340 | the facts load iff the rows are those of a database still bound to the stopping runtime, by two references |
| `ExecutionTables.BusinessTable` | src/owner_binding_remediation.rs:1306-1370 | the business transaction on every state: facts missing, identity differing from the backup, not otherwise in order, receipt not insertable, or the two updates and the receipt |
| `OwnerBindingProtocol.TxPublishes` | src/owner_binding_remediation.rs:1023-1115 | the publication transaction on a legacy state yields exactly the published state |
| `OwnerBindingProtocol.PublicationFromLegacy` | src/owner_binding_remediation.rs:705-719 | under any weather publication leaves a legacy state alone or publishes it, and proceeds only when published |
| `OwnerBindingReports.LegacyPublicationTable` | src/owner_binding_remediation.rs:626-719 | from a legacy database, for every weather: which error is reported, whether it is published, and whether the run goes on; a lost commit is "not committed" after an error, "ambiguous" after a success, and published is success whatever was seen |
| `OwnerBindingReports.WitnessedPublicationTable` | src/owner_binding_remediation.rs:1003-1022 | with the exact witness nothing is published, and only the two reads can stop the run |
| `OwnerBindingReports.PublishedRepairTable` | src/owner_binding_remediation.rs:1165-1231 | from a published database, for every weather: remediated, adopted, not committed, ambiguous or the transaction's error, and whether the rows are repaired |
| `OwnerBindingReports.LegacyRunTable` | src/owner_binding_remediation.rs:971-1231 | the report and the state left by every run from a legacy database |
| `OwnerBindingReports.PublishedRunTable` | src/owner_binding_remediation.rs:971-1231 | the same from a published database |
| `OwnerBindingReports.DoneRunTable` | src/owner_binding_remediation.rs:971-1231 | the same from a repaired database, which never changes |
| `OwnerBindingReports.LedgerExactly` | src/owner_binding_remediation.rs:512-551 | the ledger is authentic iff each row is its contract entry, successful, and migration 14's has this command's marks |
| `OwnerBindingReports.ForeignIsRefused` | src/owner_binding_remediation.rs:1003-1022 | a database in none of these states is refused as incompatible |
| `OwnerBindingReports.BadBackupIsRefused` | src/owner_binding_remediation.rs:971-1002 | a backup that is not an exact legacy database stops the run |
| `OwnerBindingReports.ReceiptFieldsExactly` | src/owner_binding_remediation.rs:778-830 | a receipt matches iff each of its columns does |
| `OwnerBindingReports.RepeatExactly` | src/owner_binding_remediation.rs:778-880 | none, collision, mismatch or found, for every durable state |
| `OwnerBindingReports.StateExactly` | src/owner_binding_remediation.rs:585-598 | on any state: which rereads count as legacy and which as complete |
| `OwnerBindingReports.PublicationTxTable` | src/owner_binding_remediation.rs:1023-1115 | on any state: what the statements of the publication transaction refuse, and what they leave |
| `OwnerBindingReports.PublicationRollbackTable` | src/owner_binding_remediation.rs:1116-1146 | on any state: a failed publication's error is reported only when the rollback is proven |
| `OwnerBindingReports.PublicationCommitTable` | src/owner_binding_remediation.rs:626-719 | on any state the reread finds: go on, not committed, ambiguous or died |
| `OwnerBindingReports.BusinessRollbackTable` | src/owner_binding_remediation.rs:1196-1211 | on any state: a failed repair's error is reported only when the rollback is proven |
| `OwnerBindingReports.BusinessCommitTable` | src/owner_binding_remediation.rs:1213-1230 | on any state the reread finds: remediated, adopted, not committed or ambiguous |
| `OwnerBindingReports.DriftIsRefused` | src/owner_binding_remediation.rs:1165-1184 | a witnessed database whose receipt does not fit, or whose rows drifted before any receipt, is refused untouched |
| `OwnerBindingReports.FirstLeaseExactly` | src/owner_binding_remediation.rs:831-850 | the lease a receipt is compared with is the first in key order |
| `OwnerBindingReports.FirstAdmissionExactly` | src/owner_binding_remediation.rs:851-878 | the admission likewise, if it decodes |
| `OwnerBindingReports.GuardsExactly` | src/owner_binding_remediation.rs:1329-1338 | both updates are guarded by every column |
| `OwnerBindingProtocol.BusinessExactly` | src/owner_binding_remediation.rs:1306-1370 | on a published state the business transaction succeeds iff the legacy store is otherwise in order, and its effect is the repaired state with its receipt |
| `OwnerBindingProtocol.DoneIsRecognised` | src/owner_binding_remediation.rs:778-880 | in a repaired state the receipt is found and matches what is durable |
| `OwnerBindingProtocol.OneRun` | src/owner_binding_remediation.rs:971-1231 | one run cut off or misled anywhere: stay, publish, or repair with its own stamp; a repaired state never changes |
| `OwnerBindingProtocol.ManyRuns` | src/owner_binding_remediation.rs:971-1231 | any number of runs lead to one of these phases, repaired by exactly one of them |
| `OwnerBindingProtocol.CrashSafe` | src/owner_binding_remediation.rs:971-1231 | after any such runs one calm run answers remediated or already remediated, in a state repaired by one of the runs |
| `OwnerBindingProtocol.RepairIsVisible` | src/owner_binding_remediation.rs:1329-1338 | the repair changes the lease owner, the admission's runtime, revision (by one) and time, and nothing else |
| `OwnerBindingProtocol.ExactlyOnce` | src/owner_binding_remediation.rs:971-1231 | over all runs the business rows change at most once, and exactly once when a calm run has ended |
| `OwnerBindingProtocol.CalmTxPublishes` | src/owner_binding_remediation.rs:1023-1115 | with no boundary refusing and no read failing, every statement of the publication transaction succeeds |
| `OwnerBindingProtocol.SuccessIsDone` | src/owner_binding_remediation.rs:1225-1230 | within the protocol success means that the whole business state is exactly the repaired one |
| `Samples.RemediationIsPossible` | src/owner_binding_remediation.rs:202-340 | a concrete legacy database to which all of these results apply |
| `OwnerBindingProtocol.SoundOutcome` | src/owner_binding_remediation.rs:1165-1231 | from any durable state, with failing reads, opens, begins, commits, rollbacks and boundaries: success means exact witness, one matching receipt, repaired rows; any error but the ambiguous one means unchanged business rows |
| `OwnerBindingChain.LeaseDigestExactly` | src/owner_binding_remediation.rs:385-399 | a lease digest identifies the lease row |
| `OwnerBindingChain.AdmissionDigestExactly` | src/owner_binding_remediation.rs:400-418 | admission digests are equal iff the rows agree once NULL is read as `<null>` and the monitor generation is ignored |
| `OwnerBindingChain.NullLooksLikeText` | src/owner_binding_remediation.rs:408-413 | two rows the digest confuses and the quoted snapshot does not |
| `OwnerBindingChain.OwnerDigestExactly` | src/owner_binding_remediation.rs:350-361 | an owner digest identifies the runtime row |
| `OwnerBindingChain.ContinuationDigestExactly` | src/owner_binding_remediation.rs:362-384 | a continuation digest identifies the continuation row |
| `OwnerBindingChain.ReceiptIdentifies` | src/owner_binding_remediation.rs:475-497 | the same receipt means the same backup, state digests, time and rows (the admission up to `<null>`) |
| `OwnerBindingChain.OperationIdExactly` | src/owner_binding_remediation.rs:97-108 | different arguments are different operations |
| `OwnerBindingChain.AttestedRows` | src/owner_binding_remediation.rs:831-878 | from any state, a successful run leaves the repaired lease as the first lease row and the repaired admission, up to `<null>`, as the first admission row |
| `OwnerBindingChain.RemediatedIsEligible` | src/owner_binding_remediation.rs:1339-1341 | remediation takes references from two to zero and makes exactly the remediated state eligible for migration |
| `OwnerBindingChain.RemediateThenMigrate` | src/isolated_fixture_migration.rs:1063-1122 | remediate, prepare, migrate ends with both owners stopped and the continuation terminal one revision up |
| `OwnerBindingChain.Database.ExecuteBusiness` | src/owner_binding_remediation.rs:1306-1370 | the business statements on the open transaction equal their specification; the durable state is not touched |
| `OwnerBindingChain.Database.Publish` | src/owner_binding_remediation.rs:1003-1164 | the publication half, with begin, commit and rereads, equals its specification |
| `OwnerBindingChain.Database.RepairBindings` | src/owner_binding_remediation.rs:1165-1231 | the business half equals its specification |
| `OwnerBindingChain.Database.Remediate` | src/owner_binding_remediation.rs:971-1231 | the whole command leaves the durable state and gives the report of the specified run |
| `Gateway.GatewayStore.AdmitTaskReady` | src/gateway.rs:288-360 | admission as one transaction equals its specification; an error leaves the state unchanged |
| `GatewaySql.AdmitExactly` | src/gateway.rs:288-360 | for every message and state: inactive runtime, known key, rows in the way, byte ceiling, or the five new rows, column by column |
| `GatewaySql.AgainExactly` | src/gateway.rs:312-327 | a known key: collision, incomplete siblings, or a replay that changes nothing |
| `Gateway.GatewayStore.EnqueueReady` | src/gateway.rs:446-455 | a ready admission of this runtime and revision becomes enqueued, one revision up; any other call changes nothing |
| `Gateway.GatewayStore.RestoreReady` | src/gateway.rs:457-466 | the way back for an enqueued admission |
| `GatewaySql.SwapExactly` | src/gateway.rs:446-466 | both swaps are one guarded update |
| `Gateway.GatewayStore.ReserveOutbound` | src/gateway.rs:375-410 | both rows are new and now there, pending and unattempted; or the identical reservation was there; or nothing happens |
| `GatewaySql.ReserveExactly` | src/gateway.rs:375-410 | for every message and state: the two new rows, the same reservation, a collision or a failed insert |
| `Gateway.GatewayStore.OutboundState` | src/gateway.rs:412-419 | the outbound row, if it belongs to this owner |
| `Gateway.GatewayStore.BeginOutboundAttempt` | src/gateway.rs:421-431 | one more attempt, at most the second, iff owner, revision and phase are as the caller read them |
| `Gateway.GatewayStore.FinishOutbound` | src/gateway.rs:433-444 | settles the attempt iff owner and revision match, keeps a known event id, and never breaks the table CHECKs |
| `GatewaySql.AttemptsExactly` | src/gateway.rs:421-444 | both updates on the row they find, with the CHECK that may refuse the second |
| `GatewaySql.TransitionsAre` | src/gateway.rs:168-184 | the eleven phase changes that are allowed |
| `Gateway.GatewayStore.DeleteCleanup` | src/gateway.rs:506-524 | removes the envelope and its deliveries and nothing else, or nothing at all |
| `Gateway.GatewayStore.DrainCleanup` | src/gateway.rs:534-558 | one claim and then a delete per row read, counted |
| `GatewaySql.ClaimExactly` | src/gateway.rs:492-504 | claimable iff ended a week ago and unclaimed, one's own, or left by a stopped owner for the grace period; what a claim writes |
| `GatewaySql.DeleteExactly` | src/gateway.rs:506-524 | every condition of the delete, and what it removes |
| `GatewayAdmission.OneTaskPerKey` | src/gateway.rs:309-318 | one task per (peer, sender, key), shared by no two envelopes |
| `GatewayAdmission.RunKeepsComplete` | src/gateway.rs:288-360 | over every sequence of admissions, swaps and reservations each inbound envelope keeps its task, queued event, admission and delivery |
| `GatewayAdmission.ReplayAgrees` | src/gateway.rs:312-327 | a replay changes nothing and agrees with the stored envelope on id, correlation id and payload hash |
| `GatewayAdmission.AdmissionIsIdempotent` | src/gateway.rs:288-360 | after any further admissions, swaps and reservations the same message from the same active runtime is a replay that changes nothing |
| `GatewayAdmission.AdmissionStartsTheLog` | src/gateway.rs:328-340 | a new message starts an aligned event log and adds exactly its own task to the planner's unfinished set |
| `GatewayAdmission.SwapRoundTrip` | src/gateway.rs:446-466 | enqueue and restore undo each other but for revision and time; the used revision does not work twice |
| `GatewayAdmission.RetainedInsert` | src/gateway.rs:343-350 | the retained total of no rows is zero, and each row adds its bytes |
| `GatewayAdmission.CeilingExactly` | src/gateway.rs:343-350 | admission stays under the byte ceiling; a reservation adds its bytes regardless, after which no new message is admitted |
| `GatewaySender.FinishSucceeds` | src/gateway.rs:889-922 | the finishing update of a call in flight is never fenced, breaks no CHECK and is an allowed transition |
| `GatewaySender.SendsAreBounded` | src/gateway.rs:818-930 | for every interleaving of calls, crashes, send failures and cleanup deletions: sends + calls about to send + calls lost before sending = stored attempts ≤ 2 between two deletions, one transaction id, one call in flight |
| `GatewaySender.SendsCanFallShort` | src/gateway.rs:877-893 | a concrete run with one attempt, no send and one lost call |
| `GatewaySender.StalledForGood` | src/gateway.rs:864-876 | after such a loss the row never changes again and nothing more is sent |
| `GatewaySender.CallerProgress` | src/gateway.rs:849-888 | in any system an undisturbed call whose row is pending and unattempted, or unknown after one attempt, gets to its send with the attempt stored; on any other row it returns, with success iff the row has settled |
| `GatewaySender.CollectIsDelete` | src/gateway.rs:506-524 | cleanup of the acceptance is the collecting step of the system |
| `GatewaySender.OneAttemptExactly` | src/gateway.rs:849-922 | what one attempt comes to: whether it sends, whether the call starts over, its result, and the row it leaves |
| `GatewaySender.SendOnce` | src/gateway.rs:849-922 | the store operations of one attempt, on the real store, are the five steps of a call of the system, with the call's result |
| `GatewaySender.SendAcceptance` | src/gateway.rs:818-930 | the exact number of sends, the row left and the result, by the row found and the two answers: one send if the first is answered, two if not, ending acknowledged or given up; the whole call is a run of the system |
| `GatewaySender.PhaseChangesAreAllowed` | src/gateway.rs:168-184 | every stored phase change is one `can_transition` allows; revision and attempt move by at most one, and only cleanup removes the row, once it has settled |
| `GatewayCleanup.RevisionsGrow` | src/gateway.rs:492-504 | only a claim changes a claim, and it raises the revision by one |
| `GatewayCleanup.OnlySettledAreDeleted` | src/gateway.rs:506-524 | an envelope goes only with its current owner and revision, after its task's latest event is terminal; its deliveries go with it |
| `GatewayCleanup.LiveClaimStandsThroughout` | src/gateway.rs:492-558 | an envelope of an owner never recorded as stopped is neither re-claimed nor deleted by others, over any run |
| `GatewayCleanup.OutdatedDeleteExactly` | src/gateway.rs:506-524 | over every run of admissions, swaps, reservations, claims, deletes and other work: an outdated delete succeeds iff the id was inserted anew, claimed exactly that often since, last by this owner, and is settled |
| `GatewayCleanup.OutdatedDeleteCanSucceed` | src/gateway.rs:387-398 | a concrete run in which it does: deleted, reserved again, settled, claimed once |
| `GatewayCleanup.InboundOutdatedDeleteFails` | src/gateway.rs:506-524 | for an inbound envelope it never succeeds, over every run whose reservations are of other ids |
| `GatewayCleanup.NeverInsertedTwice` | src/gateway.rs:336-338 | once a message was admitted no message with its id is ever inserted again, even after cleanup |
| `GatewayCleanup.ClaimOutdates` | src/gateway.rs:492-504 | a claim outdates every earlier revision of the rows it took |
| `AdmissionLock.Directory.AcquireLock` | src/runtime_admission.rs:164-258 | the acquisition, stopped after any number of file operations, leaves the directory of that point of its trace |
| `AdmissionLock.AcquireExactly` | src/runtime_admission.rs:164-258 | on every directory: the result and every directory on the way, with the first obstacle (malformed, live, unknown, drifted identity, ambiguous) as the error |
| `AdmissionLock.DroppedExactly` | src/runtime_admission.rs:260-272 | a guard revalidates, and its drop removes the lock, iff the file is the very one it made |
| `AdmissionLock.LiveLockStands` | src/runtime_admission.rs:189-202 | a lock whose process may exist is never displaced |
| `AdmissionLock.RepairExactly` | src/runtime_admission.rs:204-258 | with everybody gone an acquisition succeeds iff the directory is not stuck, and ends with the one new lock |
| `AdmissionLock.CrashPoints` | src/runtime_admission.rs:224-257 | which intermediate directories are stuck: the empty new lock, and in a takeover the filled one until the quarantine is removed |
| `AdmissionLock.EmptyLockSticks` | src/runtime_admission.rs:231-232 | a crash between creating the first lock and filling it stops every later acquisition |
| `AdmissionLock.NextAcquisitionRepairs` | src/runtime_admission.rs:204-258 | the next acquisition with the same identities succeeds iff the crash was at no such point |
| `AdmissionLock.LockIsExclusive` | src/runtime_admission.rs:260-272 | over every run of non-overlapping acquisitions: at most one quarantine file, at most one guard, and it revalidates |
| `AdmissionLock.ReleaseFrees` | src/runtime_admission.rs:164-258 | after a release the next acquisition gets the lock |
| `AdmissionLock.ExitFrees` | src/runtime_admission.rs:189-202 | after the holder is gone its lock can be taken over; while `/proc` cannot be read it cannot |
| `Placeholders.CheckLoop` | src/config.rs:767-807 | the checking loop equals its specification, with the redacted snippet |
| `Placeholders.SubstituteLoop` | src/config.rs:855-896 | the substituting loop equals its specification, first error in scan order |
| `Placeholders.NamesAre` | src/config.rs:767-818 | the marker, and variable names by code point |
| `Placeholders.PrefixFreeExactly` | src/config.rs:774-776 | a literal holds the marker nowhere |
| `Placeholders.FaultIsReported` | src/config.rs:767-896 | both passes stop at the first fault in scan order with exactly its error |
| `Placeholders.FailureHasFault` | src/config.rs:855-896 | and a substitution that fails has such a fault |
| `Placeholders.CheckIsSubstitution` | src/config.rs:767-807 | the check fails exactly where substitution would for other reasons than an unset variable, redacted or not |
| `Placeholders.OneReading` | src/config.rs:767-807 | a text has at most one reading as literals and valid references |
| `Placeholders.PassesAgree` | src/config.rs:855-896 | the check passes iff there is such a reading; substitution succeeds iff moreover every variable is set, with literals and values joined and never rescanned |
| `Placeholders.WholeReferenceExactly` | src/config.rs:811-818 | a whole-value reference is one reference and nothing else, and yields exactly that variable's value |

## Assumptions

- SHA-256 and UUIDv5 (section 5.5 of RFC 9562) are modelled by the hashed byte stream itself, so a digest
  equality is a stream equality. JSON, RFC 3339 times and UUID parsing are parameters (`Tables.Codec`).
- Values are shorter than 2^56 bytes where the snapshot stream is decoded (SQLite stores less than 2^31)
  and shorter than 2^64 bytes where part lists are.
- Integers are unbounded; the one place where the code looks at the 64-bit limit (the admission revision
  in `load_facts`) is modelled.
- Key, uniqueness, foreign-key and CHECK constraints that the proofs use are part of the state
  (`Tables.WellFormed`, map keys) or of the statement that would break them.
- New event ids, nonces and times are parameters; event ids are fresh.

## Left out

- PreAcceptanceTheorems.CommitExactly: delivery and task ids hold no colon (they are UUIDs), since the planner compares printed identities.
- OwnerBinding.ReceiptRepeat: reads "the first row" of the lease and admission tables as the first in key order; the program leaves that order to SQLite.
- FixtureMigration.ResponseValid: when several response receipts match, any valid one suffices; the program looks at one that SQLite picks.
- TerminalClosure.ClosureIsConfined: states nothing about the timestamp text, which the library formats.
- The exact substage of an eligibility failure in remediation.
- GatewayCleanup.InboundOutdatedDeleteFails: reservations present other ids than the inbound envelope's; the program derives them by UUIDv5 from it.
- Gateway runs: other work may change any row, but inserts or deletes no envelope, writes no cleanup column and only appends events.
- `orphaned_preacceptance`, `historical_unknown_abandonment` and `terminal_acknowledged_cleanup`: the same pattern of audit and guarded update, with weaker properties.
- Gateway envelope validation and event encoding, `admit_inbound`, `insert_envelope` and `transition_delivery`, which are not on the modelled path.
- Overlapping lock acquisitions, and a failing (not crashing) removal of the quarantine file.
- Files, sidecars, identities, systemd and `/proc` inspection, manifest publication: only their effect as a check that passed or failed.
- Command-line parsing, configuration range checks, log redaction, status codes, the A2A, ACP, Matrix and observer modules.
