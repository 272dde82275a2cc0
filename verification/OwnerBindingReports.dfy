/**
 * The complete report table of remediation: for every state of the protocol and every weather, what the run
 * reports and where it leaves the database, read off the weather alone; and what it refuses elsewhere.
 */
module OwnerBindingReports {
  import opened Prelude
  import opened Bytes
  import opened Tables
  import opened Snapshots
  import opened OwnerBinding
  import opened OwnerBindingTheorems
  import opened OwnerBindingProtocol
  import FM = FixtureMigration

  // ------------------------------------------------------------ publication

  /** Everything between the begin and the commit that can stop the transaction, in order. */
  ghost function Obstacles(w: Weather): seq<Answer> {
    [w.answer(AfterPublicationBegin), w.answer(AfterWitnessDdl), w.answer(AfterReceiptDdl), w.answer(AfterLedgerInsert),
     if w.readable(PublicationTxRead) then Pass else Reject(Failure("database", "read")),
     w.answer(AfterWitnessInsert), w.answer(BeforePublicationCommit)]
  }

  ghost function FirstStop(answers: seq<Answer>): Answer {
    if answers == [] then Pass else if answers[0] != Pass then answers[0] else FirstStop(answers[1..])
  }

  ghost function Ambiguous(): Report {
    Reported(Err(Failure("unknown-commit", "ambiguous")))
  }

  /** After a rollback the error is reported only when the rollback, the reopening, its boundary and the reread all worked. */
  ghost function RolledBack(w: Weather, f: Failure): Report {
    if !w.reopensPublication then Ambiguous()
    else if w.answer(AfterPublicationReread) == Die then Died
    else if w.answer(AfterPublicationReread) != Pass || !w.rollsBackPublication || !w.readable(PublicationRereadRead) then Ambiguous()
    else Reported(Err(f))
  }

  /** What follows the publication: the run goes on, or ends with a report. */
  datatype Verdict = GoesOn | Ends(report: Report)

  /** After the commit the reread decides: published is success whatever was seen; not published is "not committed" only after an error. */
  ghost function CommitVerdict(w: Weather): Verdict {
    if w.publication.seen == SeenNothing then Ends(Died)
    else if !w.reopensPublication then Ends(Ambiguous())
    else if w.answer(AfterPublicationReread) == Die then Ends(Died)
    else if w.answer(AfterPublicationReread) != Pass || !w.readable(PublicationRereadRead) then Ends(Ambiguous())
    else if w.publication.applied then GoesOn
    else if w.publication.seen == SeenOk then Ends(Ambiguous())
    else Ends(Reported(Err(Failure("unknown-commit", "not-committed"))))
  }

  /** From a legacy database: whether it is published, and how the run continues. */
  ghost function LegacyTable(w: Weather): (bool, Verdict) {
    if !w.readable(LedgerRead) then (false, Ends(Reported(Err(Failure("migration", "ledger")))))
    else if !w.readable(LiveRead) then (false, Ends(Reported(Err(Failure("database", "read")))))
    else if !w.beginsPublication then (false, Ends(Reported(Err(Failure("migration", "busy")))))
    else match FirstStop(Obstacles(w))
      case Die => (false, Ends(Died))
      case Reject(f) => (false, Ends(RolledBack(w, f)))
      case Pass => (w.publication.applied, CommitVerdict(w))
  }

  /** From a database with the exact witness nothing is published. */
  ghost function WitnessedTable(w: Weather): Verdict {
    if !w.readable(LedgerRead) then Ends(Reported(Err(Failure("migration", "ledger"))))
    else if !w.readable(LiveRead) then Ends(Reported(Err(Failure("migration", "compatibility"))))
    else GoesOn
  }

  ghost predicate StepIs(step: Step, v: Verdict) {
    match v
    case GoesOn => step.Proceed?
    case Ends(report) => step.Halt? && step.report == report
  }

  lemma StopsUnfold(w: Weather)
    ensures FirstStop(Obstacles(w)) ==
      if w.answer(AfterPublicationBegin) != Pass then w.answer(AfterPublicationBegin)
      else if w.answer(AfterWitnessDdl) != Pass then w.answer(AfterWitnessDdl)
      else if w.answer(AfterReceiptDdl) != Pass then w.answer(AfterReceiptDdl)
      else if w.answer(AfterLedgerInsert) != Pass then w.answer(AfterLedgerInsert)
      else if !w.readable(PublicationTxRead) then Reject(Failure("database", "read"))
      else if w.answer(AfterWitnessInsert) != Pass then w.answer(AfterWitnessInsert)
      else w.answer(BeforePublicationCommit)
  {
    var o := Obstacles(w);
    assert o[1..][1..] == o[2..] && o[2..][1..] == o[3..] && o[3..][1..] == o[4..];
    assert o[4..][1..] == o[5..] && o[5..][1..] == o[6..] && o[6..][1..] == [];
    assert o[1..][0] == o[1] && o[2..][0] == o[2] && o[3..][0] == o[3] && o[4..][0] == o[4] && o[5..][0] == o[5] && o[6..][0] == o[6];
    hide Obstacles;
    FirstUnfolds(o);
    FirstUnfolds(o[1..]);
    FirstUnfolds(o[2..]);
    FirstUnfolds(o[3..]);
    FirstUnfolds(o[4..]);
    FirstUnfolds(o[5..]);
    FirstUnfolds(o[6..]);
  }

  lemma FirstUnfolds(a: seq<Answer>)
    requires a != []
    ensures FirstStop(a) == if a[0] != Pass then a[0] else FirstStop(a[1..])
    ensures FirstStop([]) == Pass
  {
  }

  ghost function TxStop(w: Weather): Answer {
    if w.answer(AfterPublicationBegin) != Pass then w.answer(AfterPublicationBegin)
    else if w.answer(AfterWitnessDdl) != Pass then w.answer(AfterWitnessDdl)
    else if w.answer(AfterReceiptDdl) != Pass then w.answer(AfterReceiptDdl)
    else if w.answer(AfterLedgerInsert) != Pass then w.answer(AfterLedgerInsert)
    else if !w.readable(PublicationTxRead) then Reject(Failure("database", "read"))
    else w.answer(AfterWitnessInsert)
  }

  /** On a legacy state only a boundary or the read can stop the transaction. */
  lemma TxStopsExactly(env: Env, d: Durable, w: Weather)
    requires Ready(env) && LegacyPhase(env, d)
    ensures PublicationTx(env, TheBackup(env), d, w).Ok? <==> TxStop(w) == Pass
    ensures TxStop(w) == Die ==> PublicationTx(env, TheBackup(env), d, w) == Err(StopDied)
    ensures TxStop(w).Reject? ==> PublicationTx(env, TheBackup(env), d, w) == Err(StopFailed(TxStop(w).failure))
  {
    hide BusinessDigest, ReadBackup, InsertLedgerRow, LedgerAuthentic, ExpectedWitness;
    BackupMeans(env);
    var d1 := d.(schema := d.schema.(witnessTable := Exact), witnessRow := None);
    var d2 := d1.(schema := Schema(Exact, Exact, 0), receipts := map[]);
    LedgerStops(env, d2, w);
  }

  lemma LedgerStops(env: Env, d: Durable, w: Weather)
    requires ProperContract(env.contract) && LedgerAuthentic(d.ledger, env.contract, VERSION - 1)
    ensures InsertLedgerRow(env, d, w) == match w.answer(AfterLedgerInsert)
      case Pass => InsertLedgerRow(env, d, w)
      case Reject(f) => Err(StopFailed(f))
      case Die => Err(StopDied)
    ensures w.answer(AfterLedgerInsert) == Pass ==> InsertLedgerRow(env, d, w).Ok? && InsertLedgerRow(env, d, w).value.business == d.business
  {
    EntryIs(env.contract, VERSION - 1);
    var e := env.contract[VERSION - 1];
    var ledger := d.ledger + [LedgerRow(e.version, e.description, true, e.checksum, -1, true)];
    assert LedgerAuthentic(ledger, env.contract, VERSION) by {
      forall i | 0 <= i < VERSION
        ensures RowAuthentic(ledger[i], env.contract[i])
      {
        if i < VERSION - 1 { assert RowAuthentic(d.ledger[i], env.contract[i]); }
      }
    }
  }

  /** The publication half, from a legacy database, for every weather. */
  lemma LegacyPublicationTable(env: Env, d: Durable, w: Weather)
    requires Ready(env) && LegacyPhase(env, d)
    ensures var step := Publication(env, TheBackup(env), d, w); var (published, verdict) := LegacyTable(w);
      StepIs(step, verdict) && (if published then PublishedPhase(env, step.d) else step.d == d)
  {
    hide BusinessDigest, ReadBackup, TheBackup, LedgerAuthentic, ExpectedWitness, PublicationTx, LegacyPhase, PublishedPhase, Obstacles, FirstStop;
    hide LegacyAbsence, SchemaAuthentic, WitnessExact;
    var b := TheBackup(env);
    StatesDiffer(env, d);
    LegacyLatest(env, d);
    StopsUnfold(w);
    TxStopsExactly(env, d, w);
    var tx := PublicationTx(env, b, d, w);
    if tx.Ok? {
      TxPublishes(env, d, w);
      StatesDiffer(env, tx.value);
    }
  }

  lemma WitnessedPublicationTable(env: Env, d: Durable, w: Weather)
    requires Ready(env) && Witnessed(env, d)
    ensures var step := Publication(env, TheBackup(env), d, w); step.d == d && StepIs(step, WitnessedTable(w))
  {
    hide BusinessDigest, ReadBackup, ExpectedWitness;
    LatestVersionIs(env, d, VERSION);
  }

  // --------------------------------------------------------------- business

  /** Why the reread after the business transaction cannot tell, if it cannot. */
  ghost function Unreread(w: Weather): Option<Report> {
    if !w.reopensBusiness || !w.readable(BusinessRereadRead) then Some(Ambiguous())
    else match w.answer(AfterBusinessReread)
      case Die => Some(Died)
      case Reject(_) => Some(Ambiguous())
      case Pass => None
  }

  /** A transaction that failed with `f` was rolled back; nothing is repaired. */
  ghost function BusinessFailed(w: Weather, f: Failure): Report {
    if Unreread(w).Some? then Unreread(w).value else if w.rollsBackBusiness then Reported(Err(f)) else Ambiguous()
  }

  /** From a published database: whether it is repaired, and the report. */
  ghost function PublishedTable(w: Weather, orderly: bool): (bool, Report) {
    if !w.readable(CurrentRead) then (false, Reported(Err(Failure("database", "read"))))
    else if !w.beginsBusiness then (false, Reported(Err(Failure("database", "busy"))))
    else if !w.readable(BusinessTxRead) then (false, BusinessFailed(w, Failure("database", "read")))
    else if !orderly then (false, BusinessFailed(w, Failure("cas", "post-state")))
    else match w.answer(BeforeBusinessCommit)
      case Die => (false, Died)
      case Reject(f) => (false, Reported(Err(f)))
      case Pass =>
        (w.business.applied,
         if w.business.seen == SeenNothing then Died
         else if Unreread(w).Some? then Unreread(w).value
         else if !w.business.applied then Reported(Err(Failure("unknown-commit", "not-committed")))
         else if w.business.seen == SeenOk && !w.resultLost then Reported(Ok(Remediated))
         else Reported(Ok(Adopted)))
  }

  lemma PublishedIsUnreceipted(env: Env, d: Durable)
    requires Ready(env) && PublishedPhase(env, d)
    ensures ReceiptRepeat(env, TheBackup(env), d) == Ok(false) && BusinessDigest(d.business) == TheBackup(env).business && SchemaAuthentic(env, d)
  {
    hide BusinessDigest, ReadBackup, ReceiptMatches, OperationId, LedgerAuthentic, ExpectedWitness;
    BackupMeans(env);
  }

  lemma DoneIsReceipted(env: Env, d: Durable, stamp: string)
    requires Ready(env) && DonePhase(env, d, stamp)
    ensures ReceiptRepeat(env, TheBackup(env), d) == Ok(true) && SchemaAuthentic(env, d)
  {
    hide ReceiptRepeat, BusinessDigest, ReadBackup, RepairedAt, ReceiptAt, ExpectedWitness, LedgerAuthentic;
    DoneIsRecognised(env, d, stamp);
    DoneIsWitnessed(env, d, stamp);
  }

  lemma PublishedRepairTable(env: Env, d: Durable, w: Weather)
    requires Ready(env) && PublishedPhase(env, d)
    ensures var r := Repair(env, TheBackup(env), d, w); var (repaired, report) := PublishedTable(w, Orderly(env));
      r.1 == report && (if repaired then DonePhase(env, r.0, w.stamp) else r.0 == d)
  {
    hide BusinessDigest, ReadBackup, TheBackup, ExecuteBusiness, ReceiptRepeat, DonePhase, PublishedPhase, Orderly, SchemaAuthentic;
    PublishedIsUnreceipted(env, d);
    BusinessExactly(env, d, w.stamp);
    if Orderly(env) {
      DoneIsReceipted(env, ExecuteBusiness(env, TheBackup(env), d, w.stamp).value, w.stamp);
    }
  }

  // ------------------------------------------------------------ whole runs

  /** What stops a run before it looks at the live database. */
  ghost function Prevented(w: Weather): Option<Report> {
    if !w.readable(BackupRead) then Some(Reported(Err(Failure("database", "read"))))
    else match w.answer(BeforePublication)
      case Die => Some(Died)
      case Reject(f) => Some(Reported(Err(f)))
      case Pass => if w.opens then None else Some(Reported(Err(Failure("database", "connect"))))
  }

  lemma RunUnfolds(env: Env, d: Durable, w: Weather)
    requires Ready(env)
    ensures Prevented(w).Some? ==> Run(env, d, w) == (d, Prevented(w).value)
    ensures Prevented(w).None? ==> Run(env, d, w) == Continue(env, TheBackup(env), Publication(env, TheBackup(env), d, w), w)
  {
    hide ReadBackup, Publication, Repair;
  }

  /** How far a run takes the database. */
  datatype Progress = Unchanged | PublishedNow | RepairedNow

  ghost predicate Reaches(env: Env, before: Durable, after: Durable, progress: Progress, stamp: string)
    requires Ready(env)
  {
    match progress
    case Unchanged => after == before
    case PublishedNow => PublishedPhase(env, after)
    case RepairedNow => DonePhase(env, after, stamp)
  }

  /** From a legacy database. */
  ghost function LegacyReport(w: Weather, orderly: bool): (Progress, Report) {
    var (published, verdict) := LegacyTable(w);
    if Prevented(w).Some? then (Unchanged, Prevented(w).value)
    else if verdict.Ends? then (if published then PublishedNow else Unchanged, verdict.report)
    else (if PublishedTable(w, orderly).0 then RepairedNow else PublishedNow, PublishedTable(w, orderly).1)
  }

  /** From a published database. */
  ghost function PublishedReport(w: Weather, orderly: bool): (Progress, Report) {
    if Prevented(w).Some? then (Unchanged, Prevented(w).value)
    else if WitnessedTable(w).Ends? then (Unchanged, WitnessedTable(w).report)
    else (if PublishedTable(w, orderly).0 then RepairedNow else Unchanged, PublishedTable(w, orderly).1)
  }

  /** From a repaired database, which no run changes. */
  ghost function DoneReport(w: Weather): Report {
    if Prevented(w).Some? then Prevented(w).value
    else if WitnessedTable(w).Ends? then WitnessedTable(w).report
    else if w.readable(CurrentRead) && w.closes then Reported(Ok(AlreadyRemediated))
    else Reported(Err(Failure("database", "read")))
  }

  lemma PublishedWhenGoingOn(w: Weather)
    ensures LegacyTable(w).1.GoesOn? ==> LegacyTable(w).0
  {
  }

  /** Every run from a legacy database: its report, and the state it leaves. */
  lemma LegacyRunTable(env: Env, d: Durable, w: Weather)
    requires Ready(env) && LegacyPhase(env, d)
    ensures Run(env, d, w).1 == LegacyReport(w, Orderly(env)).1
    ensures Reaches(env, d, Run(env, d, w).0, LegacyReport(w, Orderly(env)).0, w.stamp)
  {
    hide Run, Publication, Repair, LegacyTable, PublishedTable, Prevented, LegacyPhase, PublishedPhase, DonePhase, TheBackup, ReadBackup, Orderly;
    RunUnfolds(env, d, w);
    LegacyPublicationTable(env, d, w);
    PublishedWhenGoingOn(w);
    var step := Publication(env, TheBackup(env), d, w);
    if LegacyTable(w).1.GoesOn? {
      PublishedRepairTable(env, step.d, w);
    }
  }

  /** Every run from a published database. */
  lemma PublishedRunTable(env: Env, d: Durable, w: Weather)
    requires Ready(env) && PublishedPhase(env, d)
    ensures Run(env, d, w).1 == PublishedReport(w, Orderly(env)).1
    ensures Reaches(env, d, Run(env, d, w).0, PublishedReport(w, Orderly(env)).0, w.stamp)
  {
    hide Run, Publication, Repair, WitnessedTable, PublishedTable, Prevented, PublishedPhase, DonePhase, TheBackup, ReadBackup, Orderly, Witnessed;
    RunUnfolds(env, d, w);
    PhaseIsWitnessed(env, d);
    WitnessedPublicationTable(env, d, w);
    PublishedRepairTable(env, d, w);
  }

  /** Every run from a repaired database. */
  lemma DoneRunTable(env: Env, d: Durable, stamp: string, w: Weather)
    requires Ready(env) && DonePhase(env, d, stamp)
    ensures Run(env, d, w) == (d, DoneReport(w))
  {
    hide Run, Publication, Repair, WitnessedTable, Prevented, DonePhase, TheBackup, ReadBackup, Witnessed;
    RunUnfolds(env, d, w);
    DoneIsWitnessed(env, d, stamp);
    WitnessedPublicationTable(env, d, w);
    RepairFromDone(env, d, stamp, w);
  }

  // ------------------------------------------------------- what is refused

  /** A ledger row is what the contract says, and the row of migration 14 was written by this command. */
  ghost predicate LedgerRowFits(row: LedgerRow, e: ContractEntry) {
    && row.version == e.version && row.description == e.description && row.checksum == e.checksum && row.success == true
    && (row.version == 14 ==> row.executionTime == -1 && row.canonicalTime == true)
  }

  lemma LedgerExactly(ledger: seq<LedgerRow>, contract: seq<ContractEntry>, n: nat)
    ensures LedgerAuthentic(ledger, contract, n) <==>
      |ledger| == n <= |contract| && forall i :: 0 <= i < |ledger| ==> LedgerRowFits(ledger[i], contract[i])
  {
    forall row, e
      ensures RowAuthentic(row, e) <==> LedgerRowFits(row, e)
    {
    }
  }

  lemma TablesExactly(s: Schema)
    ensures TablesAuthentic(s) <==> s == Schema(Exact, Exact, 0)
    ensures Objects(s) == 0 <==> s == Schema(Missing, Missing, 0)
  {
  }

  /** Version 13, no tables, and the business rows of the backup as far as a digest can tell. */
  ghost predicate LegacyTwin(env: Env, d: Durable) {
    && Latest(d.ledger) == 13 && LedgerAuthentic(d.ledger, env.contract, 13) && d.schema == Schema(Missing, Missing, 0)
    && BusinessDigest(d.business) == BusinessDigest(env.retained.business)
  }

  /** Version 14 with exact tables and the witness of these arguments and this backup. */
  ghost predicate WitnessedFor(env: Env, d: Durable) {
    && Latest(d.ledger) == 14 && LedgerAuthentic(d.ledger, env.contract, 14) && d.schema == Schema(Exact, Exact, 0)
    && d.witnessRow == Some(ExpectedWitness(env, BusinessDigest(env.retained.business)))
  }

  /** A database that is neither the legacy one nor witnessed for these very arguments and this backup is refused untouched. */
  lemma ForeignIsRefused(env: Env, d: Durable, w: Weather)
    requires Ready(env) && Prevented(w).None? && w.readable(LedgerRead) && w.readable(LiveRead)
    requires !LegacyTwin(env, d) && !WitnessedFor(env, d)
    ensures Run(env, d, w) == (d, Reported(Err(Failure("migration", "compatibility"))))
  {
    hide ReadBackup, Repair, BusinessDigest, LedgerAuthentic, ExpectedWitness, Run;
    RunUnfolds(env, d, w);
    BackupMeans(env);
    TablesExactly(d.schema);
  }

  /** A backup that is not a legacy database with legacy facts is refused before the live one is opened. */
  lemma BadBackupIsRefused(env: Env, d: Durable, w: Weather)
    requires w.readable(BackupRead)
    requires !(LedgerAuthentic(env.retained.ledger, env.contract, 13) && env.retained.schema == Schema(Missing, Missing, 0)) || LoadFacts(env.retained.business).None?
    ensures Run(env, d, w) == (d, Reported(Err(Failure("backup", "source-binding"))))
  {
    hide Publication, Repair, BusinessDigest, LedgerAuthentic, LoadFacts;
    TablesExactly(env.retained.schema);
  }

  // --------------------------------------------------------------- receipts

  /** The receipt of this operation, field by field, for the state it is found in. */
  ghost predicate ReceiptFields(env: Env, b: Backup, d: Durable, r: Receipt) {
    var f := b.facts;
    && r.snapshot == env.args.snapshot && r.sourceSet == env.args.sourceSet
    && r.pre == b.business && r.post == BusinessDigest(d.business)
    && r.active == OwnerDigest(f.active, f.activeRow) && r.stopping == OwnerDigest(f.stopping, f.stoppingRow)
    && r.continuation == ContinuationDigest(f.task, f.continuation)
    && r.leaseBefore == LeaseDigest(f.continuation.resource, f.lease)
    && r.leaseAfter == LeaseDigest(f.continuation.resource, f.lease.(owner := f.active))
    && r.admissionBefore == AdmissionDigest(f.task, f.admission)
    && r.admissionAfter == AdmissionDigest(f.task, f.admission.(runtime := Some(f.active), revision := f.admission.revision + 1, updatedAt := r.timestamp))
    && r.siblings == SiblingDigest(d.receipts, OperationId(env.args))
    && r.digest == ReceiptDigest(OperationId(env.args), r)
  }

  lemma SealIgnoresDigest(operation: string, r: Receipt, digest: string)
    ensures ReceiptDigest(operation, r.(digest := digest)) == ReceiptDigest(operation, r)
  {
  }

  lemma ReceiptFieldsExactly(env: Env, b: Backup, d: Durable, r: Receipt)
    ensures ReceiptMatches(env, b, d, r) <==> ReceiptFields(env, b, d, r) && RowsRepaired(d.business, b.facts, r.timestamp)
  {
    hide BusinessDigest, OwnerDigest, ContinuationDigest, LeaseDigest, AdmissionDigest, SiblingDigest, OperationId, ReceiptDigest, RowsRepaired;
    var siblings := SiblingDigest(d.receipts, OperationId(env.args));
    var u := UnsignedReceipt(env.args, b.facts, b.business, BusinessDigest(d.business), siblings, r.timestamp);
    SealIgnoresDigest(OperationId(env.args), u, r.digest);
    assert ReceiptFields(env, b, d, r) ==> r == u.(digest := r.digest);
  }

  /** Whether the receipt is found, for every durable state. */
  lemma RepeatExactly(env: Env, b: Backup, d: Durable)
    ensures ReceiptRepeat(env, b, d) ==
      if d.receipts == map[] then Ok(false)
      else if d.receipts.Keys != {OperationId(env.args)} then Err(Failure("receipt", "collision"))
      else if ReceiptFields(env, b, d, d.receipts[OperationId(env.args)]) && RowsRepaired(d.business, b.facts, d.receipts[OperationId(env.args)].timestamp) then Ok(true)
      else Err(Failure("receipt", "mismatch"))
  {
    hide ReceiptMatches, ReceiptFields, RowsRepaired, OperationId;
    var op := OperationId(env.args);
    if op in d.receipts {
      ReceiptFieldsExactly(env, b, d, d.receipts[op]);
      assert |d.receipts| == |d.receipts.Keys|;
      if |d.receipts.Keys| == 1 { SingletonIsUnique(d.receipts.Keys); }
    }
  }

  // ------------------------------------------------ each part, on any state

  /** Version 13, neither table, and these business rows. */
  ghost predicate LegacyAt(env: Env, d: Durable, business: string) {
    LedgerAuthentic(d.ledger, env.contract, 13) && d.schema == Schema(Missing, Missing, 0) && BusinessDigest(d.business) == business
  }

  /** Version 14, both tables, the exact witness, these business rows and no receipt. */
  ghost predicate CompleteAt(env: Env, d: Durable, business: string) {
    && LedgerAuthentic(d.ledger, env.contract, 14) && d.schema == Schema(Exact, Exact, 0)
    && d.witnessRow == Some(ExpectedWitness(env, business)) && BusinessDigest(d.business) == business && |d.receipts| == 0
  }

  lemma StateExactly(env: Env, b: Backup, d: Durable)
    ensures LegacyAbsence(env, d, b.business) <==> LegacyAt(env, d, b.business)
    ensures PublicationStateOf(env, b, d) ==
      if LegacyAt(env, d, b.business) then LegacyState else if CompleteAt(env, d, b.business) then CompleteState else OtherState
  {
    hide LedgerAuthentic, BusinessDigest, ExpectedWitness;
    TablesExactly(d.schema);
  }

  /** After a failed publication transaction the error is reported only when the reread finds the legacy database. */
  lemma PublicationRollbackTable(env: Env, b: Backup, d: Durable, w: Weather, f: Failure)
    ensures AfterPublicationRollback(env, b, d, w, f) ==
      Halt(d, if w.reopensPublication && w.answer(AfterPublicationReread) == Die then Died
              else if w.reopensPublication && w.answer(AfterPublicationReread) == Pass && w.rollsBackPublication
                      && w.readable(PublicationRereadRead) && LegacyAt(env, d, b.business) then Reported(Err(f))
              else Ambiguous())
  {
    hide LegacyAbsence, LegacyAt;
    StateExactly(env, b, d);
  }

  /** After the commit, whatever the reread finds. */
  lemma PublicationCommitTable(env: Env, b: Backup, d: Durable, w: Weather)
    ensures FinishPublication(env, b, d, w) ==
      if w.publication.seen == SeenNothing || (w.reopensPublication && w.answer(AfterPublicationReread) == Die) then Halt(d, Died)
      else if !w.reopensPublication || w.answer(AfterPublicationReread) != Pass || !w.readable(PublicationRereadRead) then Halt(d, Ambiguous())
      else if LegacyAt(env, d, b.business) then
        Halt(d, if w.publication.seen == SeenOk then Ambiguous() else Reported(Err(Failure("unknown-commit", "not-committed"))))
      else if CompleteAt(env, d, b.business) then Proceed(d)
      else Halt(d, Ambiguous())
  {
    hide PublicationStateOf, LegacyAt, CompleteAt, ClassifyPublication, FinishPublication;
    StateExactly(env, b, d);
    FinishUnfolds(env, b, d, w);
    ClassifiedExactly(d, w.publication.seen, PublicationStateOf(env, b, d));
  }

  lemma FinishUnfolds(env: Env, b: Backup, d: Durable, w: Weather)
    ensures FinishPublication(env, b, d, w) ==
      if w.publication.seen == SeenNothing || (w.reopensPublication && w.answer(AfterPublicationReread) == Die) then Halt(d, Died)
      else if !w.reopensPublication || w.answer(AfterPublicationReread) != Pass || !w.readable(PublicationRereadRead) then Halt(d, Ambiguous())
      else Classified(d, w.publication.seen, PublicationStateOf(env, b, d))
  {
    hide PublicationStateOf;
  }

  lemma ClassifiedExactly(d: Durable, seen: Seen, state: PublicationState)
    ensures Classified(d, seen, state) == match state
      case CompleteState => Proceed(d)
      case LegacyState => Halt(d, if seen == SeenOk then Ambiguous() else Reported(Err(Failure("unknown-commit", "not-committed"))))
      case OtherState => Halt(d, Ambiguous())
  {
  }

  ghost function Classified(d: Durable, seen: Seen, state: PublicationState): Step {
    match ClassifyPublication(seen, state) case Ok(_) => Proceed(d) case Err(f) => Halt(d, Reported(Err(f)))
  }

  /** The statements of the publication transaction on any state: what each refuses, in order. */
  lemma PublicationTxTable(env: Env, b: Backup, d: Durable, w: Weather)
    requires FirstStop(Obstacles(w)) == Pass
    ensures d.schema.witnessTable != Missing || d.schema.receiptTable != Missing ==>
      PublicationTx(env, b, d, w) == Err(StopFailed(Failure("migration", "apply")))
    ensures d.schema == Schema(Missing, Missing, d.schema.strays) && d.schema.strays != 0 ==>
      PublicationTx(env, b, d, w) == Err(StopFailed(Failure("migration", "compatibility")))
    ensures d.schema == Schema(Missing, Missing, 0) && (forall i :: 0 <= i < |env.contract| ==> env.contract[i].version != 14) ==>
      PublicationTx(env, b, d, w) == Err(StopFailed(Failure("migration", "compatibility")))
    ensures forall i :: d.schema == Schema(Missing, Missing, 0) && FirstEntry(env.contract, i) ==>
      var e := env.contract[i];
      var ledger := d.ledger + [LedgerRow(14, e.description, true, e.checksum, -1, true)];
      PublicationTx(env, b, d, w) ==
        if !LedgerAuthentic(ledger, env.contract, 14) || BusinessDigest(d.business) != b.business
        then Err(StopFailed(Failure("migration", "compatibility")))
        else Ok(Durable(d.business, ledger, Schema(Exact, Exact, 0), Some(ExpectedWitness(env, b.business)), map[]))
  {
    hide LedgerAuthentic, BusinessDigest, ExpectedWitness, FirstStop, Obstacles;
    StopsUnfold(w);
    TablesExactly(d.schema);
    EntryExactly(env.contract);
  }

  ghost predicate FirstEntry(contract: seq<ContractEntry>, i: int) {
    0 <= i < |contract| && contract[i].version == 14 && forall j :: 0 <= j < i ==> contract[j].version != 14
  }

  lemma {:induction false} EntryExactly(contract: seq<ContractEntry>)
    ensures (forall i :: 0 <= i < |contract| ==> contract[i].version != 14) ==> Entry(contract) == None
    ensures forall i :: FirstEntry(contract, i) ==> Entry(contract) == Some(contract[i])
  {
    if contract != [] && contract[0].version != 14 {
      EntryExactly(contract[1..]);
      forall i | FirstEntry(contract, i)
        ensures FirstEntry(contract[1..], i - 1) && contract[1..][i - 1] == contract[i]
      {
      }
    }
  }

  /** The reread after the business transaction: what it cannot tell. */
  ghost function UnrereadAt(env: Env, d: Durable, w: Weather): Option<Report> {
    if !(LedgerAuthentic(d.ledger, env.contract, 14) && d.schema == Schema(Exact, Exact, 0)) then Some(Ambiguous()) else Unreread(w)
  }

  lemma RereadExactly(env: Env, b: Backup, d: Durable, w: Weather)
    ensures UnrereadAt(env, d, w) == None ==>
      BusinessReread(env, b, d, w) == if ReceiptRepeat(env, b, d).Ok? then Ok(ReceiptRepeat(env, b, d).value) else Err(StopFailed(Failure("unknown-commit", "ambiguous")))
    ensures UnrereadAt(env, d, w) != None ==> BusinessReread(env, b, d, w).Err? && ReportOf(BusinessReread(env, b, d, w).error) == UnrereadAt(env, d, w).value
  {
    hide ReceiptRepeat, LedgerAuthentic;
    TablesExactly(d.schema);
  }

  lemma BusinessRollbackTable(env: Env, b: Backup, d: Durable, w: Weather, f: Failure)
    ensures AfterBusinessRollback(env, b, d, w, f) ==
      if UnrereadAt(env, d, w) != None then UnrereadAt(env, d, w).value
      else if ReceiptRepeat(env, b, d).Ok? && !ReceiptRepeat(env, b, d).value && w.rollsBackBusiness && BusinessDigest(d.business) == b.business
      then Reported(Err(f))
      else Ambiguous()
  {
    hide ReceiptRepeat, UnrereadAt, BusinessReread, BusinessDigest;
    RereadExactly(env, b, d, w);
  }

  lemma BusinessCommitTable(env: Env, b: Backup, d: Durable, w: Weather)
    ensures FinishBusiness(env, b, d, w) ==
      if w.business.seen == SeenNothing then Died
      else if UnrereadAt(env, d, w) != None then UnrereadAt(env, d, w).value
      else if ReceiptRepeat(env, b, d).Err? then Ambiguous()
      else if ReceiptRepeat(env, b, d).value then Reported(Ok(if w.business.seen == SeenOk && !w.resultLost then Remediated else Adopted))
      else if BusinessDigest(d.business) == b.business then Reported(Err(Failure("unknown-commit", "not-committed")))
      else Ambiguous()
  {
    hide ReceiptRepeat, UnrereadAt, BusinessReread, BusinessDigest;
    RereadExactly(env, b, d, w);
  }

  /** A witnessed database whose receipt does not fit, or whose rows drifted before any receipt, is refused untouched. */
  lemma DriftIsRefused(env: Env, d: Durable, w: Weather)
    requires Ready(env) && Prevented(w).None? && w.readable(LedgerRead) && w.readable(LiveRead) && w.readable(CurrentRead)
    requires WitnessedFor(env, d)
    ensures ReceiptRepeat(env, TheBackup(env), d).Err? ==> Run(env, d, w) == (d, Reported(Err(ReceiptRepeat(env, TheBackup(env), d).error)))
    ensures d.receipts == map[] && BusinessDigest(d.business) != BusinessDigest(env.retained.business) ==>
      Run(env, d, w) == (d, Reported(Err(Failure("receipt", "post-state"))))
  {
    hide ReadBackup, BusinessDigest, LedgerAuthentic, ExpectedWitness, Run, ReceiptMatches, OperationId;
    RunUnfolds(env, d, w);
    BackupMeans(env);
    TablesExactly(d.schema);
  }

  /** The lease that the receipt is compared with: the first in key order. */
  lemma FirstLeaseExactly(db: Store, k: string)
    requires k in db.leases && forall j :: j in db.leases && j != k ==> TextLess(k, j)
    ensures FirstLease(db) == Some((k, db.leases[k]))
  {
    TextLessIsTotalOrder();
    hide Ordered, TextLess;
    LeastIsFirst(db.leases.Keys, k);
  }

  /** The admission: the first in key order, if it decodes. */
  lemma FirstAdmissionExactly(db: Store, k: string)
    requires k in db.admissions && forall j :: j in db.admissions && j != k ==> TextLess(k, j)
    ensures FirstAdmission(db) ==
      if db.admissions[k].runtime != None && db.admissions[k].monitorGeneration == None then Some((k, db.admissions[k])) else None
  {
    TextLessIsTotalOrder();
    hide Ordered, TextLess;
    LeastIsFirst(db.admissions.Keys, k);
  }

  lemma LeastIsFirst(s: set<string>, k: string)
    requires TotalOrder(TextLess) && k in s && forall j :: j in s && j != k ==> TextLess(k, j)
    ensures Ordered(s, TextLess) != [] && Ordered(s, TextLess)[0] == k
  {
    hide TextLess;
    var r := Ordered(s, TextLess);
    assert k in r && r[0] in s;
    var i :| 0 <= i < |r| && r[i] == k;
    assert i == 0;
  }

  /** The guards of the two updates look at every column. */
  lemma GuardsExactly(db: Store, f: Facts)
    ensures LeaseUnchanged(db, f) <==> exists k :: k == f.continuation.resource && k in db.leases && LeaseColumns(db.leases[k], f.lease)
    ensures AdmissionUnchanged(db, f) <==> exists k :: k == f.task && k in db.admissions && AdmissionColumns(db.admissions[k], f.admission)
  {
  }

  ghost predicate LeaseColumns(l: Lease, m: Lease) {
    && l.task == m.task && l.owner == m.owner && l.fence == m.fence && l.state == m.state
    && l.acquiredAt == m.acquiredAt && l.heartbeatAt == m.heartbeatAt && l.expiresAt == m.expiresAt
  }

  ghost predicate AdmissionColumns(a: Admission, c: Admission) {
    && a.state == c.state && a.revision == c.revision && a.runtime == c.runtime && a.replyRoom == c.replyRoom
    && a.replyThreadRoot == c.replyThreadRoot && a.replyEventId == c.replyEventId && a.monitorRoom == c.monitorRoom
    && a.monitorGeneration == c.monitorGeneration && a.renderVersion == c.renderVersion && a.createdAt == c.createdAt && a.updatedAt == c.updatedAt
  }
}
