/** Remediation over whole sequences of runs, each cut off or misled at any point. */
module OwnerBindingProtocol {
  import opened Prelude
  import opened Bytes
  import opened Tables
  import opened Snapshots
  import opened OwnerBinding
  import opened OwnerBindingTheorems
  import Receipts
  import FM = FixtureMigration

  // ----------------------------------------------------------------- phases

  ghost predicate ProperContract(contract: seq<ContractEntry>) {
    |contract| >= VERSION && forall i :: 0 <= i < |contract| ==> contract[i].version == i + 1
  }

  /** The backup is a legacy database with legacy facts. */
  ghost predicate Ready(env: Env) {
    ProperContract(env.contract) && ReadBackup(env).Ok?
  }

  ghost function TheBackup(env: Env): Backup
    requires Ready(env)
  {
    ReadBackup(env).value
  }

  /** The backup meets every eligibility condition of the later migration that mentions neither owner. */
  ghost predicate Orderly(env: Env)
    requires Ready(env)
  {
    FM.Downstream(env.retained.business, TheBackup(env).facts.task, TheBackup(env).facts.continuation, env.codec)
  }

  /** Nothing done yet: version 13, no tables, and the business rows of the backup. */
  ghost predicate LegacyPhase(env: Env, d: Durable) {
    && LedgerAuthentic(d.ledger, env.contract, VERSION - 1) && Objects(d.schema) == 0 && d.receipts == map[]
    && d.business == env.retained.business
  }

  ghost predicate Witnessed(env: Env, d: Durable)
    requires Ready(env)
  {
    SchemaAuthentic(env, d) && WitnessExact(env, d, TheBackup(env).business)
  }

  /** Published: version 14 with the exact witness, business rows still those of the backup. */
  ghost predicate PublishedPhase(env: Env, d: Durable)
    requires Ready(env)
  {
    Witnessed(env, d) && d.receipts == map[] && d.business == env.retained.business
  }

  ghost function RepairedAt(env: Env, stamp: string): Store
    requires Ready(env)
  {
    Repaired(env.retained.business, TheBackup(env).facts, stamp)
  }

  ghost function ReceiptAt(env: Env, stamp: string): Receipt
    requires Ready(env)
  {
    SignedReceipt(env.args, TheBackup(env).facts, TheBackup(env).business, BusinessDigest(RepairedAt(env, stamp)),
                  SiblingDigest(map[], OperationId(env.args)), stamp)
  }

  /** Repaired by the run that carried `stamp`. */
  ghost predicate DonePhase(env: Env, d: Durable, stamp: string)
    requires Ready(env)
  {
    && Witnessed(env, d) && d.business == RepairedAt(env, stamp)
    && d.receipts == map[OperationId(env.args) := ReceiptAt(env, stamp)]
  }

  lemma BackupMeans(env: Env)
    requires Ready(env)
    ensures TheBackup(env).business == BusinessDigest(env.retained.business)
    ensures LoadFacts(env.retained.business) == Some(TheBackup(env).facts)
    ensures Loaded(env.retained.business, TheBackup(env).facts)
  {
    hide LoadFacts, Loaded, BusinessDigest, LegacyAbsence;
    LoadFactsMeans(env.retained.business);
  }

  lemma {:induction false} EntryIs(contract: seq<ContractEntry>, k: nat)
    requires k < |contract| && contract[k].version == VERSION
    requires forall i :: 0 <= i < k ==> contract[i].version != VERSION
    ensures Entry(contract) == Some(contract[k])
  {
    if k > 0 {
      EntryIs(contract[1..], k - 1);
    }
  }

  lemma LatestVersionIs(env: Env, d: Durable, n: nat)
    requires ProperContract(env.contract) && LedgerAuthentic(d.ledger, env.contract, n) && n > 0
    ensures Latest(d.ledger) == n
  {
  }

  // ------------------------------------------------------------ publication

  /** From a legacy state the transaction can only produce the published state, and nothing but a boundary stops it. */
  lemma TxPublishes(env: Env, d: Durable, w: Weather)
    requires Ready(env) && LegacyPhase(env, d) && PublicationTx(env, TheBackup(env), d, w).Ok?
    ensures PublishedPhase(env, PublicationTx(env, TheBackup(env), d, w).value)
  {
    hide BusinessDigest, ReadBackup, LedgerAuthentic, ExpectedWitness;
  }

  // In calm weather each statement of the transaction succeeds.

  lemma CalmTables(d: Durable, w: Weather)
    requires Objects(d.schema) == 0 && forall at :: w.answer(at) == Pass
    ensures CreateWitnessTable(d, w) == Ok(d.(schema := d.schema.(witnessTable := Exact), witnessRow := None))
    ensures var d1 := d.(schema := d.schema.(witnessTable := Exact), witnessRow := None);
      CreateReceiptTable(d1, w) == Ok(d1.(schema := Schema(Exact, Exact, 0), receipts := map[]))
  {
  }

  lemma CalmLedger(env: Env, d: Durable, w: Weather)
    requires ProperContract(env.contract) && LedgerAuthentic(d.ledger, env.contract, VERSION - 1) && forall at :: w.answer(at) == Pass
    ensures InsertLedgerRow(env, d, w).Ok? && InsertLedgerRow(env, d, w).value.business == d.business
  {
    EntryIs(env.contract, VERSION - 1);
    var e := env.contract[VERSION - 1];
    var ledger := d.ledger + [LedgerRow(e.version, e.description, true, e.checksum, -1, true)];
    assert LedgerAuthentic(ledger, env.contract, VERSION) by {
      forall i | 0 <= i < VERSION
        ensures RowAuthentic(ledger[i], env.contract[i])
      {
        if i < VERSION - 1 { assert RowAuthentic(d.ledger[i], env.contract[i]); }
      }
    }
  }

  lemma CalmWitness(env: Env, b: Backup, d: Durable, w: Weather)
    requires BusinessDigest(d.business) == b.business && w.readable(PublicationTxRead) && forall at :: w.answer(at) == Pass
    ensures InsertWitness(env, b, d, w).Ok?
  {
    hide BusinessDigest, ExpectedWitness;
  }

  lemma CalmTxPublishes(env: Env, d: Durable, w: Weather)
    requires Ready(env) && LegacyPhase(env, d) && (forall at :: w.answer(at) == Pass) && w.readable(PublicationTxRead)
    ensures PublicationTx(env, TheBackup(env), d, w).Ok?
  {
    hide BusinessDigest, ReadBackup, CreateWitnessTable, CreateReceiptTable, InsertLedgerRow, InsertWitness, LedgerAuthentic;
    BackupMeans(env);
    CalmTables(d, w);
    var d1 := d.(schema := d.schema.(witnessTable := Exact), witnessRow := None);
    var d2 := d1.(schema := Schema(Exact, Exact, 0), receipts := map[]);
    CalmLedger(env, d2, w);
    var d3 := InsertLedgerRow(env, d2, w).value;
    CalmWitness(env, TheBackup(env), d3, w);
    assert Gate(w, AfterPublicationBegin) == Ok(());
  }

  lemma StatesDiffer(env: Env, d: Durable)
    requires Ready(env)
    ensures LegacyPhase(env, d) ==> LegacyAbsence(env, d, TheBackup(env).business) && !SchemaAuthentic(env, d)
    ensures PublishedPhase(env, d) ==> PublicationStateOf(env, TheBackup(env), d) == CompleteState
  {
    hide BusinessDigest, RowAuthentic, ExpectedWitness;
    BackupMeans(env);
  }

  /** Publication leaves a legacy state alone or publishes it; it proceeds only when it is published. */
  lemma PublicationFromLegacy(env: Env, d: Durable, w: Weather)
    requires Ready(env) && LegacyPhase(env, d)
    ensures var step := Publication(env, TheBackup(env), d, w);
      && (step.d == d || PublishedPhase(env, step.d))
      && (step.Proceed? ==> PublishedPhase(env, step.d))
      && (step.Halt? ==> forall o :: step.report != Reported(Ok(o)))
  {
    hide BusinessDigest, ReadBackup, LedgerAuthentic, ExpectedWitness, PublicationTx, LegacyPhase, PublishedPhase;
    var b := TheBackup(env);
    StatesDiffer(env, d);
    assert Latest(d.ledger) == VERSION - 1 by { LegacyLatest(env, d); }
    var tx := PublicationTx(env, b, d, w);
    if tx.Ok? {
      TxPublishes(env, d, w);
      StatesDiffer(env, tx.value);
      assert PublicationStateOf(env, b, d) == LegacyState;
    }
  }

  lemma LegacyLatest(env: Env, d: Durable)
    requires Ready(env) && LegacyPhase(env, d)
    ensures Latest(d.ledger) == VERSION - 1
  {
    hide ReadBackup, BusinessDigest;
    LatestVersionIs(env, d, VERSION - 1);
  }

  /** A witnessed state needs no publication: the run proceeds with it as it is, unless a read fails. */
  lemma WitnessedProceeds(env: Env, d: Durable, w: Weather)
    requires Ready(env) && Witnessed(env, d)
    ensures Publication(env, TheBackup(env), d, w).d == d
    ensures w.readable(LedgerRead) && w.readable(LiveRead) ==> Publication(env, TheBackup(env), d, w).Proceed?
  {
    hide BusinessDigest, ReadBackup, ExpectedWitness;
    LatestVersionIs(env, d, VERSION);
  }

  // --------------------------------------------------------------- business

  lemma FirstRows(db: Store, k: string, l: Lease, t: string, a: Admission)
    requires db.leases == map[k := l] && db.admissions == map[t := a] && a.runtime.Some? && a.monitorGeneration.None?
    ensures FirstLease(db) == Some((k, l)) && FirstAdmission(db) == Some((t, a))
  {
  }

  lemma RepairedRows(db: Store, f: Facts, stamp: string)
    requires Loaded(db, f)
    ensures RowsRepaired(Repaired(db, f, stamp), f, stamp)
  {
    hide LeaseDigest, AdmissionDigest, Loaded, FM.References, FM.BoundTo, FirstLease, FirstAdmission, Repaired;
    var after := Repaired(db, f, stamp);
    RepairBinds(db, f, stamp);
    Undecorated(db, f);
    FirstRows(after, f.continuation.resource, LeaseAfter(f), f.task, AdmissionAfter(f, stamp));
  }

  lemma Undecorated(db: Store, f: Facts)
    requires Loaded(db, f)
    ensures f.admission.monitorGeneration.None?
  {
  }

  lemma NoSiblings(receipts: map<string, Receipt>, op: string)
    requires receipts.Keys <= {op}
    ensures SiblingDigest(receipts, op) == SiblingDigest(map[], op)
  {
    hide FramedDigest, Receipts.Siblings;
    Receipts.OwnIsSkipped(Digests(receipts), Digests(map[]), op);
  }

  /** In a repaired state the receipt is found and matches. */
  lemma DoneIsRecognised(env: Env, d: Durable, stamp: string)
    requires Ready(env) && DonePhase(env, d, stamp)
    ensures ReceiptRepeat(env, TheBackup(env), d) == Ok(true)
  {
    hide BusinessDigest, ReadBackup, SiblingDigest, SignedReceipt, Repaired, RowsRepaired, OperationId, Witnessed, Loaded;
    BackupMeans(env);
    NoSiblings(d.receipts, OperationId(env.args));
    RepairedRows(env.retained.business, TheBackup(env).facts, stamp);
    SignedStamp(env.args, TheBackup(env).facts, TheBackup(env).business, BusinessDigest(RepairedAt(env, stamp)),
                SiblingDigest(map[], OperationId(env.args)), stamp);
  }

  lemma SignedStamp(args: Args, f: Facts, pre: string, post: string, siblings: string, stamp: string)
    ensures SignedReceipt(args, f, pre, post, siblings, stamp).timestamp == stamp
  {
  }

  /** The business transaction on a published state succeeds exactly when the legacy store is otherwise in order. */
  lemma BusinessExactly(env: Env, d: Durable, stamp: string)
    requires Ready(env) && PublishedPhase(env, d)
    ensures ExecuteBusiness(env, TheBackup(env), d, stamp).Ok? <==> Orderly(env)
    ensures ExecuteBusiness(env, TheBackup(env), d, stamp).Ok? ==> DonePhase(env, ExecuteBusiness(env, TheBackup(env), d, stamp).value, stamp)
    ensures !Orderly(env) ==> ExecuteBusiness(env, TheBackup(env), d, stamp) == Err(Failure("cas", "post-state"))
  {
    hide BusinessDigest, ReadBackup, SiblingDigest, SignedReceipt, Repaired, OperationId, Loaded, LoadFacts, FM.Eligible, FM.Downstream,
      OwnerDigest, ContinuationDigest, LeaseDigest, AdmissionDigest, LedgerAuthentic, TablesAuthentic, ExpectedWitness;
    BackupMeans(env);
    GuardsHold(env.retained.business, TheBackup(env).facts);
    RepairedEligibleExactly(env.retained.business, TheBackup(env).facts, stamp, env.codec);
    assert d.receipts[OperationId(env.args) := ReceiptAt(env, stamp)] == map[OperationId(env.args) := ReceiptAt(env, stamp)];
  }

  ghost predicate Done(env: Env, d: Durable)
    requires Ready(env)
  {
    exists stamp :: DonePhase(env, d, stamp)
  }

  lemma RepairShape(env: Env, b: Backup, d: Durable, w: Weather)
    ensures var r := Repair(env, b, d, w);
      r.0 == d || (ExecuteBusiness(env, b, d, w.stamp).Ok? && r.0 == ExecuteBusiness(env, b, d, w.stamp).value)
  {
    hide BusinessDigest, ExecuteBusiness, ReceiptRepeat, FinishBusiness, AfterBusinessRollback;
  }

  /** Repair leaves a published state alone or repairs it once, with this run's stamp. */
  lemma RepairFromPublished(env: Env, d: Durable, w: Weather)
    requires Ready(env) && PublishedPhase(env, d)
    ensures var r := Repair(env, TheBackup(env), d, w); r.0 == d || DonePhase(env, r.0, w.stamp)
  {
    hide Repair, BusinessDigest, TheBackup, ReadBackup, ExecuteBusiness, PublishedPhase, DonePhase, Orderly;
    RepairShape(env, TheBackup(env), d, w);
    BusinessExactly(env, d, w.stamp);
  }

  lemma RepairFromDone(env: Env, d: Durable, stamp: string, w: Weather)
    requires Ready(env) && DonePhase(env, d, stamp)
    ensures Repair(env, TheBackup(env), d, w)
         == (d, Reported(if w.readable(CurrentRead) && w.closes then Ok(AlreadyRemediated) else Err(UNREADABLE)))
  {
    hide BusinessDigest, ReadBackup, ExecuteBusiness, ReceiptRepeat, DonePhase, BusinessReread;
    DoneIsRecognised(env, d, stamp);
  }

  // ------------------------------------------------------------ whole runs

  ghost predicate InProtocol(env: Env, d: Durable)
    requires Ready(env)
  {
    LegacyPhase(env, d) || PublishedPhase(env, d) || Done(env, d)
  }

  /** A run that gets as far as the database. */
  ghost predicate Starts(w: Weather) {
    w.readable(BackupRead) && w.answer(BeforePublication) == Pass && w.opens
  }

  ghost function Continue(env: Env, b: Backup, step: Step, w: Weather): (Durable, Report) {
    match step
    case Halt(after, report) => (after, report)
    case Proceed(after) => Repair(env, b, after, w)
  }

  lemma RunIs(env: Env, d: Durable, w: Weather)
    requires Ready(env)
    ensures !Starts(w) ==> Run(env, d, w).0 == d && forall o :: Run(env, d, w).1 != Reported(Ok(o))
    ensures Starts(w) ==> Run(env, d, w) == Continue(env, TheBackup(env), Publication(env, TheBackup(env), d, w), w)
  {
    hide ReadBackup, Publication, Repair;
  }

  lemma RunFromLegacy(env: Env, d: Durable, w: Weather)
    requires Ready(env) && LegacyPhase(env, d)
    ensures var after := Run(env, d, w).0; after == d || PublishedPhase(env, after) || DonePhase(env, after, w.stamp)
  {
    hide LegacyPhase, PublishedPhase, DonePhase, Publication, Repair, Run, TheBackup, ReadBackup;
    RunIs(env, d, w);
    PublicationFromLegacy(env, d, w);
    var step := Publication(env, TheBackup(env), d, w);
    if step.Proceed? { RepairFromPublished(env, step.d, w); }
  }

  lemma RunFromPublished(env: Env, d: Durable, w: Weather)
    requires Ready(env) && PublishedPhase(env, d)
    ensures var after := Run(env, d, w).0; after == d || DonePhase(env, after, w.stamp)
  {
    hide PublishedPhase, DonePhase, Publication, Repair, Run, TheBackup, ReadBackup, Witnessed;
    RunIs(env, d, w);
    PhaseIsWitnessed(env, d);
    WitnessedProceeds(env, d, w);
    RepairFromPublished(env, d, w);
  }

  lemma RunFromDone(env: Env, d: Durable, stamp: string, w: Weather)
    requires Ready(env) && DonePhase(env, d, stamp)
    ensures Run(env, d, w).0 == d
  {
    hide DonePhase, Publication, Repair, Run, TheBackup, ReadBackup, Witnessed;
    RunIs(env, d, w);
    DoneIsWitnessed(env, d, stamp);
    WitnessedProceeds(env, d, w);
    RepairFromDone(env, d, stamp, w);
  }

  /**
   * One run under any weather: a legacy state stays, is published, or is repaired; a published state stays
   * or is repaired; a repaired state never changes again. A repair carries the stamp of the run that made it.
   */
  lemma OneRun(env: Env, d: Durable, w: Weather)
    requires Ready(env) && InProtocol(env, d)
    ensures var after := Run(env, d, w).0;
      && (after == d || PublishedPhase(env, after) || DonePhase(env, after, w.stamp))
      && (Done(env, d) ==> after == d)
      && InProtocol(env, after)
  {
    hide LegacyPhase, PublishedPhase, DonePhase, Run, ReadBackup;
    if LegacyPhase(env, d) { RunFromLegacy(env, d, w); }
    if PublishedPhase(env, d) { RunFromPublished(env, d, w); }
    if Done(env, d) {
      var stamp :| DonePhase(env, d, stamp);
      RunFromDone(env, d, stamp, w);
    }
  }

  lemma PhaseIsWitnessed(env: Env, d: Durable)
    requires Ready(env) && PublishedPhase(env, d)
    ensures Witnessed(env, d)
  {
  }

  lemma DoneIsWitnessed(env: Env, d: Durable, stamp: string)
    requires Ready(env) && DonePhase(env, d, stamp)
    ensures Witnessed(env, d)
  {
  }

  /** Any number of runs with the same arguments, each under its own weather. */
  function RunAll(env: Env, d: Durable, ws: seq<Weather>): Durable
    decreases ws
  {
    if ws == [] then d else RunAll(env, Run(env, d, ws[0]).0, ws[1..])
  }

  /** Where any runs lead: as before, published, or repaired by exactly one of them, the one numbered `maker`. */
  ghost predicate LeadsTo(env: Env, d: Durable, ws: seq<Weather>, last: Durable, maker: int)
    requires Ready(env)
  {
    && -1 <= maker < |ws|
    && (maker == -1 ==> last == d || PublishedPhase(env, last))
    && (maker >= 0 ==> DonePhase(env, last, ws[maker].stamp))
    && (Done(env, d) ==> last == d)
  }

  lemma {:induction false} ManyRuns(env: Env, d: Durable, ws: seq<Weather>) returns (last: Durable, maker: int)
    requires Ready(env) && InProtocol(env, d)
    ensures last == RunAll(env, d, ws) && InProtocol(env, last) && LeadsTo(env, d, ws, last, maker)
    decreases ws
  {
    hide Run, LegacyPhase, PublishedPhase, DonePhase, InProtocol, ReadBackup;
    last, maker := d, -1;
    if ws != [] {
      var next := Run(env, d, ws[0]).0;
      OneRun(env, d, ws[0]);
      last, maker := ManyRuns(env, next, ws[1..]);
      if DonePhase(env, next, ws[0].stamp) {
        assert Done(env, next);
        maker := 0;
      } else if maker >= 0 {
        maker := maker + 1;
      }
    }
  }

  /** A run in which nothing goes wrong. */
  ghost predicate Calm(w: Weather) {
    && (forall at :: w.answer(at) == Pass) && (forall at :: w.readable(at))
    && w.opens && w.reopensPublication && w.reopensBusiness && w.beginsPublication && w.beginsBusiness && w.closes
    && w.publication == Commit(true, SeenOk) && w.business == Commit(true, SeenOk) && !w.resultLost
  }

  lemma CalmPublication(env: Env, d: Durable, w: Weather)
    requires Ready(env) && LegacyPhase(env, d) && Calm(w)
    ensures var step := Publication(env, TheBackup(env), d, w); step.Proceed? && PublishedPhase(env, step.d)
  {
    hide BusinessDigest, ReadBackup, LedgerAuthentic, ExpectedWitness, PublicationTx, LegacyPhase, PublishedPhase;
    var b := TheBackup(env);
    StatesDiffer(env, d);
    LegacyLatest(env, d);
    CalmTxPublishes(env, d, w);
    TxPublishes(env, d, w);
    StatesDiffer(env, PublicationTx(env, b, d, w).value);
  }

  lemma CalmRepair(env: Env, d: Durable, w: Weather)
    requires Ready(env) && PublishedPhase(env, d) && Calm(w)
    requires Orderly(env)
    ensures var r := Repair(env, TheBackup(env), d, w); DonePhase(env, r.0, w.stamp) && r.1 == Reported(Ok(Remediated))
  {
    hide BusinessDigest, ReadBackup, ExecuteBusiness, DonePhase, Orderly, ReceiptMatches, Witnessed, SchemaAuthentic;
    BackupMeans(env);
    BusinessExactly(env, d, w.stamp);
    var repaired := ExecuteBusiness(env, TheBackup(env), d, w.stamp).value;
    DoneIsRecognised(env, repaired, w.stamp);
    DoneIsWitnessed(env, repaired, w.stamp);
    assert SchemaAuthentic(env, repaired) by { WitnessedSchema(env, repaired); }
  }

  lemma WitnessedSchema(env: Env, d: Durable)
    requires Ready(env) && Witnessed(env, d)
    ensures SchemaAuthentic(env, d)
  {
  }

  /**
   * Crash-safe at-most-once remediation. Start from a legacy database; let any number of runs be cut off or
   * misled anywhere; then one calm run succeeds. Overall the lease was rebound and the admission revision
   * raised exactly once, by one run, and no other business row changed.
   */
  lemma CrashSafe(env: Env, d: Durable, ws: seq<Weather>, calm: Weather)
    requires Ready(env) && LegacyPhase(env, d) && Calm(calm)
    requires Orderly(env)
    ensures var last := Run(env, RunAll(env, d, ws), calm);
      && last.1 in {Reported(Ok(Remediated)), Reported(Ok(AlreadyRemediated))}
      && (exists i :: 0 <= i <= |ws| && DonePhase(env, last.0, (ws + [calm])[i].stamp))
  {
    hide Run, LegacyPhase, PublishedPhase, DonePhase, Orderly, ReadBackup, TheBackup, Calm;
    var before, maker := ManyRuns(env, d, ws);
    if maker >= 0 {
      CalmWhenDone(env, before, ws[maker].stamp, calm);
      assert (ws + [calm])[maker] == ws[maker];
    } else {
      CalmWhenNotDone(env, before, calm);
      assert (ws + [calm])[|ws|] == calm;
    }
  }

  lemma CalmWhenDone(env: Env, d: Durable, stamp: string, w: Weather)
    requires Ready(env) && DonePhase(env, d, stamp) && Calm(w)
    ensures Run(env, d, w) == (d, Reported(Ok(AlreadyRemediated)))
  {
    hide DonePhase, Publication, Repair, ReadBackup, TheBackup, Run, Witnessed;
    RunIs(env, d, w);
    DoneIsWitnessed(env, d, stamp);
    WitnessedProceeds(env, d, w);
    RepairFromDone(env, d, stamp, w);
  }

  lemma CalmWhenNotDone(env: Env, d: Durable, w: Weather)
    requires Ready(env) && (LegacyPhase(env, d) || PublishedPhase(env, d)) && Calm(w)
    requires Orderly(env)
    ensures var r := Run(env, d, w); DonePhase(env, r.0, w.stamp) && r.1 == Reported(Ok(Remediated))
  {
    hide LegacyPhase, PublishedPhase, DonePhase, Publication, Repair, ReadBackup, TheBackup, Orderly, Run, Witnessed;
    RunIs(env, d, w);
    if LegacyPhase(env, d) {
      CalmPublication(env, d, w);
      CalmRepair(env, Publication(env, TheBackup(env), d, w).d, w);
    } else {
      PhaseIsWitnessed(env, d);
      WitnessedProceeds(env, d, w);
      CalmRepair(env, d, w);
    }
  }

  // ------------------------------------------------------- counting repairs

  /** How many of the runs changed the business rows. */
  function Repairs(env: Env, d: Durable, ws: seq<Weather>): nat
    decreases ws
  {
    if ws == [] then 0
    else
      var next := Run(env, d, ws[0]).0;
      (if next.business != d.business then 1 else 0) + Repairs(env, next, ws[1..])
  }

  /** A repaired store differs from the legacy one in the lease owner and the admission, and nowhere else. */
  lemma RepairIsVisible(env: Env, stamp: string)
    requires Ready(env)
    ensures var f, before, after := TheBackup(env).facts, env.retained.business, RepairedAt(env, stamp);
      && f.continuation.resource in before.leases && f.task in before.admissions
      && before.leases[f.continuation.resource].owner == f.stopping != f.active
      && after == before.(
           leases := before.leases[f.continuation.resource := before.leases[f.continuation.resource].(owner := f.active)],
           admissions := before.admissions[f.task := before.admissions[f.task].(
             runtime := Some(f.active), revision := before.admissions[f.task].revision + 1, updatedAt := stamp)])
      && after != before
  {
    hide ReadBackup, BusinessDigest, FM.FindOwners, FM.References, LoadFacts;
    BackupMeans(env);
    var f, before, after := TheBackup(env).facts, env.retained.business, RepairedAt(env, stamp);
    assert after.leases[f.continuation.resource].owner == f.active;
  }

  lemma BusinessOfPhases(env: Env, d: Durable)
    requires Ready(env)
    ensures LegacyPhase(env, d) || PublishedPhase(env, d) ==> d.business == env.retained.business
    ensures Done(env, d) ==> d.business != env.retained.business
  {
    hide ReadBackup, BusinessDigest, Witnessed, RepairedAt, ReceiptAt, OperationId;
    if Done(env, d) {
      var stamp :| DonePhase(env, d, stamp);
      RepairIsVisible(env, stamp);
    }
  }

  lemma {:induction false} RepairsCounted(env: Env, d: Durable, ws: seq<Weather>)
    requires Ready(env) && InProtocol(env, d)
    ensures Repairs(env, d, ws) == if d.business != RunAll(env, d, ws).business then 1 else 0
    decreases ws
  {
    hide Run, LegacyPhase, PublishedPhase, DonePhase, ReadBackup;
    if ws != [] {
      var next := Run(env, d, ws[0]).0;
      OneRun(env, d, ws[0]);
      RepairsCounted(env, next, ws[1..]);
      var last, maker := ManyRuns(env, next, ws[1..]);
      BusinessOfPhases(env, d);
      BusinessOfPhases(env, next);
      BusinessOfPhases(env, last);
    }
  }

  /** However many runs there are, at most one of them changes the business rows, and after a calm one exactly one has. */
  lemma ExactlyOnce(env: Env, d: Durable, ws: seq<Weather>, calm: Weather)
    requires Ready(env) && LegacyPhase(env, d) && Calm(calm)
    requires Orderly(env)
    ensures Repairs(env, d, ws) <= 1
    ensures Repairs(env, d, ws) + Repairs(env, RunAll(env, d, ws), [calm]) == 1
  {
    hide Run, LegacyPhase, PublishedPhase, DonePhase, ReadBackup, Orderly, Calm, Repairs, RunAll;
    var before, maker := ManyRuns(env, d, ws);
    RepairsCounted(env, d, ws);
    RepairsCounted(env, before, [calm]);
    CrashSafe(env, d, ws, calm);
    var after := Run(env, before, calm).0;
    assert RunAll(env, before, [calm]) == after by { OneMore(env, before, calm); }
    assert Done(env, after);
    BusinessOfPhases(env, d);
    BusinessOfPhases(env, before);
    BusinessOfPhases(env, after);
    if Done(env, before) {
      OneRun(env, before, calm);
    }
  }

  lemma OneMore(env: Env, d: Durable, w: Weather)
    ensures RunAll(env, d, [w]) == Run(env, d, w).0
  {
    hide Run;
    assert RunAll(env, Run(env, d, w).0, [w][1..]) == Run(env, d, w).0;
  }

  // ---------------------------------------------------------- sound outcomes

  /** What a successful run has proved about the durable state. */
  ghost predicate Attested(env: Env, d: Durable) {
    && ReadBackup(env).Ok?
    && var b, op := ReadBackup(env).value, OperationId(env.args);
    && SchemaAuthentic(env, d) && WitnessExact(env, d, b.business)
    && d.receipts.Keys == {op} && ReceiptMatches(env, b, d, d.receipts[op])
  }

  lemma RepeatMeans(env: Env, b: Backup, d: Durable)
    ensures ReceiptRepeat(env, b, d) == Ok(true) ==>
      d.receipts.Keys == {OperationId(env.args)} && ReceiptMatches(env, b, d, d.receipts[OperationId(env.args)])
    ensures ReceiptRepeat(env, b, d) == Ok(false) ==> d.receipts == map[]
  {
    hide ReceiptMatches, OperationId;
    if ReceiptRepeat(env, b, d) == Ok(true) {
      SingletonIsUnique(d.receipts.Keys);
    }
  }

  lemma ProceedMeans(env: Env, b: Backup, d: Durable, w: Weather)
    ensures var step := Publication(env, b, d, w);
      && step.d.business == d.business
      && (step.Proceed? ==> SchemaAuthentic(env, step.d) && WitnessExact(env, step.d, b.business))
      && (step.Halt? ==> !Succeeded(step.report))
  {
    hide BusinessDigest, LedgerAuthentic, ExpectedWitness, PublicationTx, TablesAuthentic;
    TxKeepsBusiness(env, b, d, w);
  }

  lemma TxKeepsBusiness(env: Env, b: Backup, d: Durable, w: Weather)
    ensures PublicationTx(env, b, d, w).Ok? ==> PublicationTx(env, b, d, w).value.business == d.business
  {
    hide BusinessDigest, LedgerAuthentic, ExpectedWitness, TablesAuthentic;
  }

  lemma ExecuteKeepsRest(env: Env, b: Backup, d: Durable, stamp: string)
    requires ExecuteBusiness(env, b, d, stamp).Ok?
    ensures var after := ExecuteBusiness(env, b, d, stamp).value;
      after.ledger == d.ledger && after.schema == d.schema && after.witnessRow == d.witnessRow
      && OperationId(env.args) in after.receipts
  {
    hide BusinessDigest, LoadFacts, SameFacts, Repaired, FM.Eligible, SignedReceipt, Insertable, OperationId, SiblingDigest;
  }

  ghost predicate Succeeded(report: Report) {
    report.Reported? && report.result.Ok?
  }

  /** An error that claims to know what happened. */
  ghost predicate FailedSurely(report: Report) {
    report.Reported? && report.result.Err? && report.result.error != AMBIGUOUS
  }

  lemma RereadMeans(env: Env, b: Backup, d: Durable, w: Weather, error: Failure)
    ensures Succeeded(FinishBusiness(env, b, d, w)) ==> ReceiptRepeat(env, b, d) == Ok(true)
    ensures FailedSurely(FinishBusiness(env, b, d, w)) ==> ReceiptRepeat(env, b, d) == Ok(false)
    ensures !Succeeded(AfterBusinessRollback(env, b, d, w, error))
  {
    hide BusinessDigest, ReceiptRepeat, SchemaAuthentic;
  }

  /** Either nothing changed and success can only mean that the receipt was there, or the commit was settled by its reread. */
  lemma RepairCases(env: Env, b: Backup, d: Durable, w: Weather)
    ensures var r, tx := Repair(env, b, d, w), BusinessTx(env, b, d, w);
      || (r.0 == d && (Succeeded(r.1) ==> ReceiptRepeat(env, b, d) == Ok(true)))
      || (tx.Ok? && r.0 == (if w.business.applied then tx.value else d) && r.1 == FinishBusiness(env, b, r.0, w))
  {
    hide BusinessDigest, BusinessTx, ReceiptRepeat, FinishBusiness, AfterBusinessRollback;
    var tx := BusinessTx(env, b, d, w);
    if tx.Err? { RereadMeans(env, b, d, w, tx.error); }
  }

  lemma TxKeepsRest(env: Env, b: Backup, d: Durable, w: Weather)
    requires BusinessTx(env, b, d, w).Ok?
    ensures var after := BusinessTx(env, b, d, w).value;
      after.ledger == d.ledger && after.schema == d.schema && after.witnessRow == d.witnessRow && OperationId(env.args) in after.receipts
  {
    hide ExecuteBusiness, OperationId;
    ExecuteKeepsRest(env, b, d, w.stamp);
  }

  lemma RepairMeans(env: Env, b: Backup, d: Durable, w: Weather)
    ensures var r := Repair(env, b, d, w);
      && r.0.ledger == d.ledger && r.0.schema == d.schema && r.0.witnessRow == d.witnessRow
      && (Succeeded(r.1) ==> ReceiptRepeat(env, b, r.0) == Ok(true))
      && (FailedSurely(r.1) ==> r.0 == d)
  {
    hide Repair, BusinessTx, ReceiptRepeat, OperationId, FinishBusiness, Succeeded, FailedSurely;
    var r, tx := Repair(env, b, d, w), BusinessTx(env, b, d, w);
    RepairCases(env, b, d, w);
    if tx.Ok? {
      TxKeepsRest(env, b, d, w);
      RepeatMeans(env, b, r.0);
      RereadMeans(env, b, r.0, w, AMBIGUOUS);
    }
  }

  /**
   * Sound outcomes, from any durable state and under any weather. Success means the exact witness, exactly one
   * receipt, matching what is durable, and the repaired rows. Any error but the ambiguous one means that the
   * business rows are those from before the run.
   */
  lemma SoundOutcome(env: Env, d: Durable, w: Weather)
    ensures var r := Run(env, d, w);
      && (Succeeded(r.1) ==> Attested(env, r.0))
      && (FailedSurely(r.1) ==> r.0.business == d.business)
  {
    hide BusinessDigest, ReadBackup, Publication, Repair, ReceiptMatches, LedgerAuthentic, TablesAuthentic, ExpectedWitness, OperationId, ReceiptRepeat;
    if ReadBackup(env).Ok? && Starts(w) {
      var b := ReadBackup(env).value;
      var step := Publication(env, b, d, w);
      ProceedMeans(env, b, d, w);
      if step.Proceed? {
        RepairMeans(env, b, step.d, w);
        RepeatMeans(env, b, Repair(env, b, step.d, w).0);
      }
    }
  }

  /** Within the protocol success says more: the whole durable business state is exactly the repaired one. */
  lemma SuccessIsDone(env: Env, d: Durable, w: Weather)
    requires Ready(env) && InProtocol(env, d) && Succeeded(Run(env, d, w).1)
    ensures Done(env, Run(env, d, w).0)
  {
    hide Run, ReadBackup, DonePhase, Attested, LegacyPhase, PublishedPhase;
    SoundOutcome(env, d, w);
    OneRun(env, d, w);
    AttestedHasReceipt(env, Run(env, d, w).0);
  }

  lemma AttestedHasReceipt(env: Env, d: Durable)
    requires Ready(env) && Attested(env, d)
    ensures !LegacyPhase(env, d) && !PublishedPhase(env, d)
  {
    hide ReadBackup, OperationId, SchemaAuthentic, WitnessExact, ReceiptMatches, LedgerAuthentic;
    assert OperationId(env.args) in d.receipts;
  }
}
