/**
 * Owner-binding remediation: a publication transaction (schema, ledger row, witness) and a business
 * transaction (two compare-and-swap updates and a receipt), each commit settled by a fresh reread.
 */
module OwnerBinding {
  import opened Prelude
  import opened Bytes
  import opened Tables
  import opened Snapshots
  import Receipts
  import FM = FixtureMigration

  datatype Failure = Failure(cause: string, substage: string)

  const AMBIGUOUS: Failure := Failure("unknown-commit", "ambiguous")
  const NOT_COMMITTED: Failure := Failure("unknown-commit", "not-committed")
  const INCOMPATIBLE: Failure := Failure("migration", "compatibility")
  const APPLY: Failure := Failure("migration", "apply")
  const UNREADABLE: Failure := Failure("database", "read")

  datatype Args = Args(snapshot: string, sourceSet: string, liveSourceSet: string)

  function OperationId(args: Args): string {
    FramedDigest("GGT050-OWNER-BINDING-REMEDIATION-V2" + [0 as char], [args.snapshot, args.sourceSet, args.liveSourceSet])
  }

  // ------------------------------------------------------------------ facts

  datatype Facts = Facts(
    active: string, activeRow: Runtime, stopping: string, stoppingRow: Runtime, task: string, continuation: Continuation,
    lease: Lease, admission: Admission)

  const MAX: int := 0x7fff_ffff_ffff_ffff

  /** One lease and one admission, both still bound to the stopping runtime and nothing else bound to it. */
  predicate LegacyBound(db: Store, stopping: string, task: string, c: Continuation) {
    && FM.Continued(c) && |db.leases| == 1 && |db.admissions| == 1
    && FM.BoundTo(db, stopping, task, c)
    && db.admissions[task].monitorGeneration.None? && db.admissions[task].revision != MAX
    && FM.References(db, stopping) == 2
  }

  /** `load_facts`. A NULL runtime and a non-NULL monitor generation both fail to decode. */
  function LoadFacts(db: Store): Option<Facts> {
    var owners := FM.FindOwners(db);
    if owners.None? || |db.continuations.Keys| != 1 then
      None
    else
      FM.OwnersExist(db);
      var o, task := owners.value, Only(db.continuations.Keys);
      var c := db.continuations[task];
      if !LegacyBound(db, o.stopping, task, c) then None
      else Some(Facts(o.active, db.runtimes[o.active], o.stopping, db.runtimes[o.stopping], task, c,
                      db.leases[c.resource], db.admissions[task]))
  }

  // ---------------------------------------------------------------- digests

  function OwnerDigest(token: string, r: Runtime): string {
    FramedDigest("GGT050-OWNER-V1", FM.OwnerTexts(token, r))
  }

  function ContinuationDigest(task: string, c: Continuation): string {
    FramedDigest("GGT050-CONTINUATION-V1", FM.ContinuationTexts(task, c))
  }

  function LeaseTexts(resource: string, l: Lease): seq<string> {
    [resource, l.task, l.owner, Decimal(l.fence), LeaseText(l.state), l.acquiredAt, l.heartbeatAt, l.expiresAt]
  }

  function LeaseDigest(resource: string, l: Lease): string {
    FramedDigest("GGT050-LEASE-V1", LeaseTexts(resource, l))
  }

  /** `unwrap_or("<null>")`. */
  function OrNull(o: Option<string>): string {
    if o.Some? then o.value else "<null>"
  }

  function AdmissionTexts(task: string, a: Admission): seq<string> {
    [task, AdmissionText(a.state), Decimal(a.revision), OrNull(a.runtime), OrNull(a.replyRoom), OrNull(a.replyThreadRoot),
     OrNull(a.replyEventId), OrNull(a.monitorRoom), "<null>", OrNull(a.renderVersion), a.createdAt, a.updatedAt]
  }

  function AdmissionDigest(task: string, a: Admission): string {
    FramedDigest("GGT050-ADMISSION-V1", AdmissionTexts(task, a))
  }

  // ---------------------------------------------------------- durable state

  datatype ContractEntry = ContractEntry(version: int, description: string, checksum: string)

  datatype LedgerRow = LedgerRow(
    version: int, description: string, success: bool, checksum: string, executionTime: int, canonicalTime: bool)

  datatype TableState = Missing | Exact | Altered

  /** The two tables of migration 14 and any other schema object whose name starts like theirs. */
  datatype Schema = Schema(witnessTable: TableState, receiptTable: TableState, strays: nat)

  datatype Witness = Witness(
    operation: string, snapshot: string, sourceSet: string, liveSourceSet: string, checksum: string,
    retained: string, migrated: string, digest: string)

  datatype Receipt = Receipt(
    snapshot: string, sourceSet: string, pre: string, post: string, active: string, stopping: string, continuation: string,
    leaseBefore: string, leaseAfter: string, admissionBefore: string, admissionAfter: string, siblings: string,
    timestamp: string, digest: string)

  /** What survives a crash. `ledger` is in version order; a missing table has no rows. */
  datatype Durable = Durable(
    business: Store, ledger: seq<LedgerRow>, schema: Schema, witnessRow: Option<Witness>, receipts: map<string, Receipt>)

  datatype Env = Env(args: Args, contract: seq<ContractEntry>, checksum: string, retained: Durable, codec: Codec)

  const VERSION: int := 14

  predicate RowAuthentic(row: LedgerRow, entry: ContractEntry) {
    && row.version == entry.version && row.description == entry.description && row.success && row.checksum == entry.checksum
    && (row.version == VERSION ==> row.executionTime == -1 && row.canonicalTime)
  }

  /** `authenticate_migration_ledger`. */
  predicate LedgerAuthentic(ledger: seq<LedgerRow>, contract: seq<ContractEntry>, versions: nat) {
    && versions <= |contract| && |ledger| == versions
    && forall i :: 0 <= i < versions ==> RowAuthentic(ledger[i], contract[i])
  }

  function Latest(ledger: seq<LedgerRow>): int {
    if ledger == [] then 0 else ledger[|ledger| - 1].version
  }

  function Present(t: TableState): nat {
    if t.Missing? then 0 else 1
  }

  function Objects(s: Schema): nat {
    Present(s.witnessTable) + Present(s.receiptTable) + s.strays
  }

  predicate TablesAuthentic(s: Schema) {
    s.witnessTable.Exact? && s.receiptTable.Exact? && Objects(s) == 2
  }

  predicate SchemaAuthentic(env: Env, d: Durable) {
    LedgerAuthentic(d.ledger, env.contract, VERSION) && TablesAuthentic(d.schema)
  }

  /** `exact_legacy_absence`. */
  predicate LegacyAbsence(env: Env, d: Durable, business: string) {
    LedgerAuthentic(d.ledger, env.contract, VERSION - 1) && Objects(d.schema) == 0 && BusinessDigest(d.business) == business
  }

  function ExpectedWitness(env: Env, business: string): Witness {
    var op, a := OperationId(env.args), env.args;
    Witness(op, a.snapshot, a.sourceSet, a.liveSourceSet, env.checksum, business, business,
      FramedDigest("GGT050-OWNER-BINDING-WITNESS-V2",
        ["2", op, a.snapshot, a.sourceSet, a.liveSourceSet, "14", env.checksum, business, business]))
  }

  predicate WitnessExact(env: Env, d: Durable, business: string) {
    d.witnessRow == Some(ExpectedWitness(env, business))
  }

  function ReceiptTexts(operation: string, r: Receipt): seq<string> {
    [operation, "1", r.snapshot, r.sourceSet, r.pre, r.post, r.active, r.stopping, r.continuation, r.leaseBefore,
     r.leaseAfter, r.admissionBefore, r.admissionAfter, r.siblings, r.timestamp, "remediated"]
  }

  function ReceiptDigest(operation: string, r: Receipt): string {
    FramedDigest("GGT050-OWNER-BINDING-RECEIPT-V1", ReceiptTexts(operation, r))
  }

  function Digests(receipts: map<string, Receipt>): map<string, string> {
    map op | op in receipts :: receipts[op].digest
  }

  function SiblingDigest(receipts: map<string, Receipt>, operation: string): string {
    FramedDigest("GGT050-OWNER-BINDING-SIBLINGS-V1", Receipts.Siblings(Digests(receipts), operation))
  }

  // ----------------------------------------------------------------- backup

  /** What the run knows from the retained backup: its business digest and its facts. */
  datatype Backup = Backup(business: string, facts: Facts)

  function ReadBackup(env: Env): Result<Backup, Failure> {
    var business := BusinessDigest(env.retained.business);
    if !LegacyAbsence(env, env.retained, business) then Err(Failure("backup", "source-binding")) else
    var facts := LoadFacts(env.retained.business);
    if facts.None? then Err(Failure("backup", "source-binding")) else Ok(Backup(business, facts.value))
  }

  // ----------------------------------------------------------------- repair

  function LeaseAfter(f: Facts): Lease {
    f.lease.(owner := f.active)
  }

  function AdmissionAfter(f: Facts, stamp: string): Admission {
    f.admission.(runtime := Some(f.active), revision := f.admission.revision + 1, updatedAt := stamp)
  }

  /** The two compare-and-swap updates. */
  function Repaired(db: Store, f: Facts, stamp: string): Store {
    db.(leases := db.leases[f.continuation.resource := LeaseAfter(f)],
        admissions := db.admissions[f.task := AdmissionAfter(f, stamp)])
  }

  predicate SameFacts(f: Facts, g: Facts) {
    && OwnerDigest(f.active, f.activeRow) == OwnerDigest(g.active, g.activeRow)
    && OwnerDigest(f.stopping, f.stoppingRow) == OwnerDigest(g.stopping, g.stoppingRow)
    && ContinuationDigest(f.task, f.continuation) == ContinuationDigest(g.task, g.continuation)
    && LeaseDigest(f.continuation.resource, f.lease) == LeaseDigest(g.continuation.resource, g.lease)
    && AdmissionDigest(f.task, f.admission) == AdmissionDigest(g.task, g.admission)
  }

  function UnsignedReceipt(args: Args, f: Facts, pre: string, post: string, siblings: string, stamp: string): Receipt {
    Receipt(args.snapshot, args.sourceSet, pre, post, OwnerDigest(f.active, f.activeRow), OwnerDigest(f.stopping, f.stoppingRow),
      ContinuationDigest(f.task, f.continuation), LeaseDigest(f.continuation.resource, f.lease),
      LeaseDigest(f.continuation.resource, LeaseAfter(f)), AdmissionDigest(f.task, f.admission),
      AdmissionDigest(f.task, AdmissionAfter(f, stamp)), siblings, stamp, "")
  }

  function SignedReceipt(args: Args, f: Facts, pre: string, post: string, siblings: string, stamp: string): Receipt {
    var r := UnsignedReceipt(args, f, pre, post, siblings, stamp);
    r.(digest := ReceiptDigest(OperationId(args), r))
  }

  /** The primary key, the UNIQUE digest and the UNIQUE pair of backup digests. */
  predicate Insertable(receipts: map<string, Receipt>, operation: string, r: Receipt) {
    && operation !in receipts
    && forall op :: op in receipts ==>
         receipts[op].digest != r.digest && !(receipts[op].snapshot == r.snapshot && receipts[op].sourceSet == r.sourceSet)
  }

  /** The guard of the lease update: every column still as loaded. */
  predicate LeaseUnchanged(db: Store, f: Facts) {
    f.continuation.resource in db.leases && db.leases[f.continuation.resource] == f.lease
  }

  predicate AdmissionUnchanged(db: Store, f: Facts) {
    f.task in db.admissions && db.admissions[f.task] == f.admission
  }

  /** `execute_business`, on the transaction's copy. */
  function ExecuteBusiness(env: Env, b: Backup, d: Durable, stamp: string): Result<Durable, Failure> {
    var facts := LoadFacts(d.business);
    if facts.None? then Err(Failure("eligibility", "facts"))
    else if !SameFacts(facts.value, b.facts) then Err(Failure("eligibility", "owner-identity"))
    else
      var f := facts.value;
      var after := Repaired(d.business, f, stamp);
      if !LeaseUnchanged(d.business, f) then Err(Failure("cas", "lease"))
      else if !AdmissionUnchanged(d.business, f) then Err(Failure("cas", "admission"))
      else if FM.Eligible(after, env.codec).None? then Err(Failure("cas", "post-state"))
      else
        var op := OperationId(env.args);
        var r := SignedReceipt(env.args, f, b.business, BusinessDigest(after), SiblingDigest(d.receipts, op), stamp);
        if !Insertable(d.receipts, op, r) then Err(Failure("cas", "receipt"))
        else Ok(d.(business := after, receipts := d.receipts[op := r]))
  }

  /** `fetch_one` of a table: its first row, if it decodes. */
  function FirstLease(db: Store): Option<(string, Lease)> {
    TextLessIsTotalOrder();
    var keys := Ordered(db.leases.Keys, TextLess);
    if keys == [] then None else Some((keys[0], db.leases[keys[0]]))
  }

  function FirstAdmission(db: Store): Option<(string, Admission)> {
    TextLessIsTotalOrder();
    var keys := Ordered(db.admissions.Keys, TextLess);
    if keys == [] then None else
    var a := db.admissions[keys[0]];
    if a.runtime.None? || a.monitorGeneration.Some? then None else Some((keys[0], a))
  }

  predicate RowsRepaired(db: Store, f: Facts, stamp: string) {
    var lease, admission := FirstLease(db), FirstAdmission(db);
    && lease.Some? && LeaseDigest(lease.value.0, lease.value.1) == LeaseDigest(f.continuation.resource, LeaseAfter(f))
    && admission.Some? && AdmissionDigest(admission.value.0, admission.value.1) == AdmissionDigest(f.task, AdmissionAfter(f, stamp))
  }

  predicate ReceiptMatches(env: Env, b: Backup, d: Durable, r: Receipt) {
    var op := OperationId(env.args);
    && r == SignedReceipt(env.args, b.facts, b.business, BusinessDigest(d.business), SiblingDigest(d.receipts, op), r.timestamp)
    && RowsRepaired(d.business, b.facts, r.timestamp)
  }

  /** `receipt_repeat`: whether the one receipt of this operation is there and describes what is durable. */
  function ReceiptRepeat(env: Env, b: Backup, d: Durable): Result<bool, Failure> {
    var op := OperationId(env.args);
    if op !in d.receipts then
      if d.receipts != map[] then Err(Failure("receipt", "collision")) else Ok(false)
    else if |d.receipts| != 1 then Err(Failure("receipt", "collision"))
    else if !ReceiptMatches(env, b, d, d.receipts[op]) then Err(Failure("receipt", "mismatch"))
    else Ok(true)
  }

  // ---------------------------------------------------------------- weather

  datatype Boundary =
    | BeforePublication | AfterPublicationBegin | AfterWitnessDdl | AfterReceiptDdl | AfterLedgerInsert
    | AfterWitnessInsert | BeforePublicationCommit | AfterPublicationReread | BeforeBusinessCommit | AfterBusinessReread

  /** A boundary check passes, fails, or the process dies there. */
  datatype Answer = Pass | Reject(failure: Failure) | Die

  /** What the process learns of a commit; `SeenNothing` is a crash while it runs. */
  datatype Seen = SeenOk | SeenError | SeenUnavailable | SeenNothing

  datatype Commit = Commit(applied: bool, seen: Seen)

  /** Where a run reads the database. */
  datatype ReadPoint =
    | BackupRead | LedgerRead | LiveRead | PublicationTxRead | PublicationRereadRead | CurrentRead | BusinessTxRead | BusinessRereadRead

  /** Everything outside the program's control during one run. */
  datatype Weather = Weather(
    answer: Boundary -> Answer, readable: ReadPoint -> bool, opens: bool, reopensPublication: bool, reopensBusiness: bool,
    beginsPublication: bool, beginsBusiness: bool, rollsBackPublication: bool, rollsBackBusiness: bool,
    publication: Commit, business: Commit, closes: bool, resultLost: bool, stamp: string)

  datatype Outcome = Remediated | AlreadyRemediated | Adopted

  datatype Report = Reported(result: Result<Outcome, Failure>) | Died

  datatype Stop = StopFailed(failure: Failure) | StopDied

  function Gate(w: Weather, at: Boundary): Result<(), Stop> {
    match w.answer(at)
    case Pass => Ok(())
    case Reject(f) => Err(StopFailed(f))
    case Die => Err(StopDied)
  }

  // ------------------------------------------------------------ publication

  function Entry(contract: seq<ContractEntry>): Option<ContractEntry> {
    if contract == [] then None
    else if contract[0].version == VERSION then Some(contract[0])
    else Entry(contract[1..])
  }

  // The statements of the publication transaction, each followed by its checks and its boundary.

  function CreateWitnessTable(d: Durable, w: Weather): Result<Durable, Stop> {
    if !d.schema.witnessTable.Missing? then Err(StopFailed(APPLY)) else
    var _ :- Gate(w, AfterWitnessDdl);
    Ok(d.(schema := d.schema.(witnessTable := Exact), witnessRow := None))
  }

  function CreateReceiptTable(d: Durable, w: Weather): Result<Durable, Stop> {
    if !d.schema.receiptTable.Missing? then Err(StopFailed(APPLY)) else
    var _ :- Gate(w, AfterReceiptDdl);
    var next := d.(schema := d.schema.(receiptTable := Exact), receipts := map[]);
    if TablesAuthentic(next.schema) then Ok(next) else Err(StopFailed(INCOMPATIBLE))
  }

  function InsertLedgerRow(env: Env, d: Durable, w: Weather): Result<Durable, Stop> {
    var entry := Entry(env.contract);
    if entry.None? then Err(StopFailed(INCOMPATIBLE)) else
    var e := entry.value;
    var _ :- Gate(w, AfterLedgerInsert);
    var next := d.(ledger := d.ledger + [LedgerRow(e.version, e.description, true, e.checksum, -1, true)]);
    if LedgerAuthentic(next.ledger, env.contract, VERSION) then Ok(next) else Err(StopFailed(INCOMPATIBLE))
  }

  function InsertWitness(env: Env, b: Backup, d: Durable, w: Weather): Result<Durable, Stop> {
    if !w.readable(PublicationTxRead) then Err(StopFailed(UNREADABLE))
    else if BusinessDigest(d.business) != b.business then Err(StopFailed(INCOMPATIBLE)) else
    var _ :- Gate(w, AfterWitnessInsert);
    Ok(d.(witnessRow := Some(ExpectedWitness(env, b.business))))
  }

  /** The publication transaction up to its commit, on the private copy. */
  function PublicationTx(env: Env, b: Backup, d: Durable, w: Weather): Result<Durable, Stop> {
    var _ :- Gate(w, AfterPublicationBegin);
    var d1 :- CreateWitnessTable(d, w);
    var d2 :- CreateReceiptTable(d1, w);
    var d3 :- InsertLedgerRow(env, d2, w);
    InsertWitness(env, b, d3, w)
  }

  datatype Step = Proceed(d: Durable) | Halt(d: Durable, report: Report)

  function Fail(d: Durable, f: Failure): Step {
    Halt(d, Reported(Err(f)))
  }

  /** A reopened connection and its boundary; any refusal leaves the commit ambiguous. */
  function Reopen(w: Weather, reopens: bool, at: Boundary): Result<(), Stop> {
    if !reopens then Err(StopFailed(AMBIGUOUS)) else
    match w.answer(at)
    case Pass => Ok(())
    case Reject(_) => Err(StopFailed(AMBIGUOUS))
    case Die => Err(StopDied)
  }

  function Stopped(d: Durable, s: Stop): Step {
    match s case StopFailed(f) => Fail(d, f) case StopDied => Halt(d, Died)
  }

  /** After an error inside the publication transaction: report it only if the rollback is proven. */
  function AfterPublicationRollback(env: Env, b: Backup, d: Durable, w: Weather, error: Failure): Step {
    match Reopen(w, w.reopensPublication, AfterPublicationReread)
    case Err(stop) => Stopped(d, stop)
    case Ok(_) =>
      if w.rollsBackPublication && w.readable(PublicationRereadRead) && LegacyAbsence(env, d, b.business) then Fail(d, error) else Fail(d, AMBIGUOUS)
  }

  datatype PublicationState = LegacyState | CompleteState | OtherState

  function PublicationStateOf(env: Env, b: Backup, d: Durable): PublicationState {
    if LegacyAbsence(env, d, b.business) then LegacyState
    else if SchemaAuthentic(env, d) && WitnessExact(env, d, b.business) && BusinessDigest(d.business) == b.business && d.receipts == map[]
    then CompleteState
    else OtherState
  }

  /** `classify_publication`. */
  function ClassifyPublication(seen: Seen, state: PublicationState): Result<(), Failure> {
    match state
    case CompleteState => Ok(())
    case LegacyState => if seen.SeenOk? then Err(AMBIGUOUS) else Err(NOT_COMMITTED)
    case OtherState => Err(AMBIGUOUS)
  }

  function FinishPublication(env: Env, b: Backup, d: Durable, w: Weather): Step {
    if w.publication.seen.SeenNothing? then Halt(d, Died) else
    match Reopen(w, w.reopensPublication, AfterPublicationReread)
    case Err(stop) => Stopped(d, stop)
    case Ok(_) =>
      match ClassifyPublication(w.publication.seen, if w.readable(PublicationRereadRead) then PublicationStateOf(env, b, d) else OtherState)
      case Ok(_) => Proceed(d)
      case Err(f) => Fail(d, f)
  }

  function Publish(env: Env, b: Backup, d: Durable, w: Weather): Step {
    match PublicationTx(env, b, d, w)
    case Err(StopDied) => Halt(d, Died)
    case Err(StopFailed(f)) => AfterPublicationRollback(env, b, d, w, f)
    case Ok(published) =>
      match w.answer(BeforePublicationCommit)
      case Die => Halt(d, Died)
      case Reject(f) => AfterPublicationRollback(env, b, d, w, f)
      case Pass => FinishPublication(env, b, if w.publication.applied then published else d, w)
  }

  /** The first half of `remediate_paths_opening`: leave the database at version 14 with the exact witness. */
  function Publication(env: Env, b: Backup, d: Durable, w: Weather): Step {
    if !w.readable(LedgerRead) then
      Fail(d, Failure("migration", "ledger"))
    else if Latest(d.ledger) == VERSION - 1 then
      if !w.readable(LiveRead) then Fail(d, UNREADABLE)
      else if !LegacyAbsence(env, d, b.business) then Fail(d, INCOMPATIBLE)
      else if !w.beginsPublication then Fail(d, Failure("migration", "busy"))
      else Publish(env, b, d, w)
    else if Latest(d.ledger) == VERSION && w.readable(LiveRead) && SchemaAuthentic(env, d) && WitnessExact(env, d, b.business) then
      Proceed(d)
    else
      Fail(d, INCOMPATIBLE)
  }

  // --------------------------------------------------------------- business

  /** `fresh_business_reread`: whether the receipt is there, or why that cannot be told. */
  function BusinessReread(env: Env, b: Backup, d: Durable, w: Weather): Result<bool, Stop> {
    if !w.reopensBusiness || !w.readable(BusinessRereadRead) || !SchemaAuthentic(env, d) then Err(StopFailed(AMBIGUOUS)) else
    var _ :- Reopen(w, true, AfterBusinessReread);
    match ReceiptRepeat(env, b, d)
    case Err(_) => Err(StopFailed(AMBIGUOUS))
    case Ok(found) => Ok(found)
  }

  function ReportOf(s: Stop): Report {
    match s case StopFailed(f) => Reported(Err(f)) case StopDied => Died
  }

  function AfterBusinessRollback(env: Env, b: Backup, d: Durable, w: Weather, error: Failure): Report {
    match BusinessReread(env, b, d, w)
    case Err(stop) => ReportOf(stop)
    case Ok(found) =>
      if w.rollsBackBusiness && !found && BusinessDigest(d.business) == b.business then Reported(Err(error))
      else Reported(Err(AMBIGUOUS))
  }

  function FinishBusiness(env: Env, b: Backup, d: Durable, w: Weather): Report {
    if w.business.seen.SeenNothing? then Died else
    match BusinessReread(env, b, d, w)
    case Err(stop) => ReportOf(stop)
    case Ok(found) =>
      if found then Reported(Ok(if !w.business.seen.SeenOk? || w.resultLost then Adopted else Remediated))
      else if BusinessDigest(d.business) == b.business then Reported(Err(NOT_COMMITTED))
      else Reported(Err(AMBIGUOUS))
  }

  function BusinessTx(env: Env, b: Backup, d: Durable, w: Weather): Result<Durable, Failure> {
    if w.readable(BusinessTxRead) then ExecuteBusiness(env, b, d, w.stamp) else Err(UNREADABLE)
  }

  /** The second half of `remediate_paths_opening`. */
  function Repair(env: Env, b: Backup, d: Durable, w: Weather): (Durable, Report) {
    if !w.readable(CurrentRead) then (d, Reported(Err(UNREADABLE))) else
    match ReceiptRepeat(env, b, d)
    case Err(f) => (d, Reported(Err(f)))
    case Ok(true) => (d, Reported(if w.closes then Ok(AlreadyRemediated) else Err(UNREADABLE)))
    case Ok(false) =>
      if BusinessDigest(d.business) != b.business then (d, Reported(Err(Failure("receipt", "post-state"))))
      else if !w.beginsBusiness then (d, Reported(Err(Failure("database", "busy"))))
      else
        match BusinessTx(env, b, d, w)
        case Err(f) => (d, AfterBusinessRollback(env, b, d, w, f))
        case Ok(repaired) =>
          match w.answer(BeforeBusinessCommit)
          case Die => (d, Died)
          case Reject(f) => (d, Reported(Err(f)))
          case Pass =>
            var after := if w.business.applied then repaired else d;
            (after, FinishBusiness(env, b, after, w))
  }

  /** `remediate_paths_opening`: the durable state a run leaves and what it reports. */
  function Run(env: Env, d: Durable, w: Weather): (Durable, Report) {
    if !w.readable(BackupRead) then (d, Reported(Err(UNREADABLE))) else
    match ReadBackup(env)
    case Err(f) => (d, Reported(Err(f)))
    case Ok(b) =>
      match w.answer(BeforePublication)
      case Die => (d, Died)
      case Reject(f) => (d, Reported(Err(f)))
      case Pass =>
        if !w.opens then (d, Reported(Err(Failure("database", "connect")))) else
        match Publication(env, b, d, w)
        case Halt(after, report) => (after, report)
        case Proceed(after) => Repair(env, b, after, w)
  }
}
