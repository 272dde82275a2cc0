/** What the selector, the diagnosis, the delivery reconciliation and the runtime recovery decide, row by row. */
module RecoverySql {
  import opened Prelude
  import opened Tables
  import opened Sql
  import opened Rows
  import P = PreAcceptance
  import Q = PreAcceptanceSql
  import TS = TupleSelection
  import LD = LeaseDiagnostics
  import DR = DeliveryReconciliation
  import RR = RuntimeRecovery

  // ----------------------------------------------------------- reconciliation

  ghost function OpenQueueOf(task: string): (string, Work) -> bool {
    (k: string, w: Work) => w.task == task && w.state != WorkCompleted && w.state != WorkExpired && w.state != WorkSuperseded
  }

  ghost function OpenLeaseOf(task: string): (string, Lease) -> bool {
    (k: string, l: Lease) => l.task == task && (l.state == LeaseActive || l.state == LeaseRecovery)
  }

  ghost function OpenContinuationOf(task: string): (string, Continuation) -> bool {
    (k: string, c: Continuation) => k == task && c.state != ContinuationTerminal
  }

  /** Every check of the first loop of `reconcile_tx_inner`. */
  ghost predicate SettledRows(db: Store, t: P.Tuple) {
    && t.delivery in db.deliveries && db.deliveries[t.delivery].task == t.task && db.deliveries[t.delivery].attempt == t.attempt
    && TaskEnded(db.events, t.task)
    && t.task in db.admissions && db.admissions[t.task].state == AdmissionTerminal
    && Count(db.queue, OpenQueueOf(t.task)) == 0 && Count(db.leases, OpenLeaseOf(t.task)) == 0 && Count(db.continuations, OpenContinuationOf(t.task)) == 0
    && t.delivery in db.dispositions && db.dispositions[t.delivery].task == t.task && db.dispositions[t.delivery].attempt == t.attempt
  }

  lemma SettledExactly(db: Store, t: P.Tuple)
    ensures DR.Settled(db, t) <==> SettledRows(db, t)
  {
    hide Finished, TaskEnded;
    FinishedExactly(db.events, t.task);
    Nothing(db.queue, OpenQueueOf(t.task));
    Nothing(db.leases, OpenLeaseOf(t.task));
    Nothing(db.continuations, OpenContinuationOf(t.task));
    assert forall k :: k in db.leases ==> db.leases[k].state == LeaseReleased || db.leases[k].state == LeaseActive || db.leases[k].state == LeaseRecovery;
  }

  /** `reconcile`, with the refusals over rows. */
  lemma ReconcileRows(db: Store, tuples: seq<P.Tuple>, now: string)
    ensures tuples == [] || now == "" ==> DR.Reconcile(db, tuples, now) == Err(DR.BadArguments)
    ensures tuples != [] && now != "" && (exists i :: 0 <= i < |tuples| && !SettledRows(db, tuples[i])) ==> DR.Reconcile(db, tuples, now) == Err(DR.WorkPresent)
    ensures tuples != [] && now != "" && (forall i :: 0 <= i < |tuples| ==> SettledRows(db, tuples[i])) ==>
      DR.Reconcile(db, tuples, now) != Err(DR.WorkPresent)
  {
    hide DR.Settled, SettledRows, DR.Reconcile;
    forall i | 0 <= i < |tuples|
      ensures DR.Settled(db, tuples[i]) <==> SettledRows(db, tuples[i])
    {
      SettledExactly(db, tuples[i]);
    }
    if tuples != [] && now != "" {
      DR.ReconcileExactly(db, tuples, now);
    } else {
      NoArguments(db, tuples, now);
    }
  }

  lemma NoArguments(db: Store, tuples: seq<P.Tuple>, now: string)
    requires tuples == [] || now == ""
    ensures DR.Reconcile(db, tuples, now) == Err(DR.BadArguments)
  {
  }

  /** What each row becomes: acknowledged at `now` if it was not, and terminal with its reason if it was not. */
  lemma SettledRowsAre(d: Delivery, p: Disposition, now: string)
    ensures DR.AcknowledgeRow(d, now) == if d.acknowledgedAt == None then d.(acknowledgedAt := Some(now)) else d
    ensures DR.SettleRow(p) ==
      if p.state in {DispositionPrepared, DispositionAcknowledged, DispositionUnknown} then p.(state := DispositionTerminal, reason := Some("offline_reconciled")) else p
  {
  }

  // --------------------------------------------------------- runtime recovery

  ghost function LiveRuntime(): (string, Runtime) -> bool {
    (k: string, r: Runtime) => r.state == OwnerActive || r.state == OwnerStopping
  }

  ghost function OpenAdmission(): (string, Admission) -> bool {
    (k: string, a: Admission) => a.state != AdmissionTerminal && a.state != AdmissionRecovery
  }

  ghost function OpenQueue(): (string, Work) -> bool {
    (k: string, w: Work) => w.state != WorkCompleted && w.state != WorkExpired && w.state != WorkSuperseded
  }

  ghost function OpenLease(): (string, Lease) -> bool {
    (k: string, l: Lease) => l.state == LeaseActive || l.state == LeaseRecovery
  }

  ghost function OpenContinuation(): (string, Continuation) -> bool {
    (k: string, c: Continuation) => c.state != ContinuationTerminal
  }

  /** `deliveries d LEFT JOIN delivery_dispositions p`: not acknowledged, without disposition, or with an open one. */
  ghost function OpenDelivery(db: Store): (string, Delivery) -> bool {
    (k: string, d: Delivery) => d.acknowledgedAt == None || k !in db.dispositions || db.dispositions[k].state != DispositionTerminal
  }

  ghost function UnendedTask(db: Store): (string, Task) -> bool {
    (k: string, t: Task) => !TaskEnded(db.events, k)
  }

  ghost predicate NoOpenRows(db: Store) {
    Count(db.leases, OpenLease()) == 0 && Count(db.continuations, OpenContinuation()) == 0
    && Count(db.admissions, OpenAdmission()) == 0 && Count(db.queue, OpenQueue()) == 0
  }

  lemma OpenRowsExactly(db: Store)
    ensures NoOpenRows(db) <==> RR.LeasesOver(db) && RR.ContinuationsOver(db) && RR.AdmissionsOver(db) && RR.QueueOver(db)
  {
    Nothing(db.leases, OpenLease());
    Nothing(db.continuations, OpenContinuation());
    Nothing(db.admissions, OpenAdmission());
    Nothing(db.queue, OpenQueue());
    assert forall k :: k in db.leases ==> db.leases[k].state == LeaseReleased || db.leases[k].state == LeaseActive || db.leases[k].state == LeaseRecovery;
  }

  lemma DeliveriesExactly(db: Store)
    ensures Count(db.deliveries, OpenDelivery(db)) == 0 <==> RR.DeliveriesOver(db)
  {
    Nothing(db.deliveries, OpenDelivery(db));
  }

  lemma TasksExactly(db: Store)
    ensures Count(db.tasks, UnendedTask(db)) == 0 <==> Unfinished(db) == {}
  {
    hide TaskEnded, Unfinished;
    Nothing(db.tasks, UnendedTask(db));
    PlannerExactly(db);
  }

  lemma LiveExactly(db: Store)
    ensures Count(db.runtimes, LiveRuntime()) == |LiveOwners(db)|
  {
    assert Where(db.runtimes, LiveRuntime()) == LiveOwners(db);
  }

  /** `recover_stale_runtime` for every argument and database: which check refuses, or what it leaves. */
  lemma StopExactly(db: Store, token: string, fingerprint: string, now: string)
    requires WellFormed(db)
    ensures RR.StopRuntime(db, token, fingerprint, now) ==
      if token == "" || fingerprint == "" || now == "" then Err(RR.StaleArguments)
      else if Count(db.runtimes, LiveRuntime()) > 1 then Err(RR.MultipleOwners)
      else if !(token in db.runtimes && db.runtimes[token].fingerprint == fingerprint) then Err(RR.OwnerIdentity)
      else if db.runtimes[token].state == OwnerStopped then Ok((RR.AlreadyStopped, db))
      else if !NoOpenRows(db) || Count(db.deliveries, OpenDelivery(db)) != 0 || Count(db.tasks, UnendedTask(db)) != 0 then Err(RR.StaleWorkPresent)
      else Ok((RR.RuntimeRecovered, db.(runtimes := db.runtimes[token := db.runtimes[token].(state := OwnerStopped, heartbeatAt := now)])))
  {
    hide NoOpenRows, RR.LeasesOver, RR.ContinuationsOver, RR.AdmissionsOver, RR.QueueOver, RR.DeliveriesOver, Count, RR.PlannerEmpty, LiveOwners, WellFormed, Unfinished;
    OpenRowsExactly(db);
    DeliveriesExactly(db);
    TasksExactly(db);
    LiveExactly(db);
    EmptyPlanner(db);
  }

  lemma EmptyPlanner(db: Store)
    requires WellFormed(db)
    ensures RR.DeliveriesOver(db) && Unfinished(db) == {} ==> RR.PlannerEmpty(db)
    ensures RR.PlannerEmpty(db) ==> Unfinished(db) == {}
  {
    hide Finished;
    if RR.DeliveriesOver(db) && Unfinished(db) == {} { RR.NothingPlanned(db); }
  }

  /** The proven-stale variant: the owner must be live, alone, and last heard of strictly before now. */
  lemma StopProvenExactly(db: Store, token: string, fingerprint: string, now: string, codec: Codec)
    ensures RR.StopProvenStale(db, token, fingerprint, now, codec) ==
      if token == "" || fingerprint == "" || now == "" || codec.parseTime(now) == None then Err(RR.StaleArguments)
      else if token !in db.runtimes then Err(RR.OwnerIdentity)
      else if codec.parseTime(db.runtimes[token].heartbeatAt) == None then Err(RR.StaleDatabase)
      else if db.runtimes[token].fingerprint != fingerprint || db.runtimes[token].state == OwnerStopped then Err(RR.OwnerIdentity)
      else if Count(db.runtimes, LiveRuntime()) != 1 then Err(RR.MultipleOwners)
      else if !(codec.parseTime(db.runtimes[token].heartbeatAt).value.nanoseconds < codec.parseTime(now).value.nanoseconds) then Err(RR.NotStale)
      else if !NoOpenRows(db) then Err(RR.StaleWorkPresent)
      else Ok((RR.RuntimeRecovered, db.(runtimes := db.runtimes[token :=
        db.runtimes[token].(state := OwnerStopped, heartbeatAt := codec.formatTime(codec.parseTime(now).value))])))
  {
    hide NoOpenRows, RR.LeasesOver, RR.ContinuationsOver, RR.AdmissionsOver, RR.QueueOver, Count, LiveOwners;
    OpenRowsExactly(db);
    LiveExactly(db);
  }

  // -------------------------------------------------------------- selection

  ghost predicate Unusable(k: string, l: Lease) {
    k == "" || l.owner == "" || l.fence <= 0 || l.expiresAt == ""
  }

  ghost predicate RecoveryLeaseOf(db: Store, task: string, k: string) {
    k in db.leases && db.leases[k].task == task && db.leases[k].state == LeaseRecovery
  }

  /** Which conflicts the rows show before the planner is asked. */
  ghost predicate Shows(db: Store, task: string, runtime: Option<string>, c: TS.Cause) {
    match c
    case AdmissionRuntimeMissing => runtime == None
    case LeaseIdentityInvalid => exists k :: RecoveryLeaseOf(db, task, k) && Unusable(k, db.leases[k])
    case LeaseOwnerMismatch => runtime != None && exists k :: RecoveryLeaseOf(db, task, k) && !Unusable(k, db.leases[k]) && db.leases[k].owner != runtime.value
    case LeaseCardinality => Count(db.leases, OfTask(task)) != 1
    case PlannerParity => false
  }

  lemma OneConflict(db: Store, task: string, runtime: Option<string>, c: TS.Cause)
    ensures c in TS.EarlyConflicts(db, task, runtime) <==> Shows(db, task, runtime, c)
  {
    LeaseCount(db, task);
    LeaseConflictsExactly(db, task, runtime, c);
    hide TS.LeaseConflicts, RecoveryLeaseOf, Unusable, LeasesOf;
    match c {
      case AdmissionRuntimeMissing =>
      case LeaseIdentityInvalid =>
      case LeaseOwnerMismatch =>
      case LeaseCardinality =>
      case PlannerParity =>
    }
  }

  lemma ConflictsExactly(db: Store, task: string, runtime: Option<string>)
    ensures forall c :: c in TS.EarlyConflicts(db, task, runtime) <==> Shows(db, task, runtime, c)
  {
    hide TS.EarlyConflicts, Shows;
    forall c
      ensures c in TS.EarlyConflicts(db, task, runtime) <==> Shows(db, task, runtime, c)
    {
      OneConflict(db, task, runtime, c);
    }
  }

  lemma LeaseConflictsExactly(db: Store, task: string, runtime: Option<string>, c: TS.Cause)
    ensures c in TS.LeaseConflicts(db, P.RecoveryLeases(db, task), runtime) <==>
      exists k :: RecoveryLeaseOf(db, task, k) &&
        ((c == TS.LeaseIdentityInvalid && Unusable(k, db.leases[k]))
         || (c == TS.LeaseOwnerMismatch && !Unusable(k, db.leases[k]) && runtime != None && db.leases[k].owner != runtime.value))
  {
    forall k | RecoveryLeaseOf(db, task, k)
      ensures c in TS.LeaseConflict(k, db.leases[k], runtime) <==>
        ((c == TS.LeaseIdentityInvalid && Unusable(k, db.leases[k]))
         || (c == TS.LeaseOwnerMismatch && !Unusable(k, db.leases[k]) && runtime != None && db.leases[k].owner != runtime.value))
    {
    }
    assert forall k :: k in P.RecoveryLeases(db, task) <==> RecoveryLeaseOf(db, task, k);
  }

  ghost predicate CleanDisposition(db: Store, t: P.Tuple) {
    && t.delivery in db.dispositions && db.dispositions[t.delivery].task == t.task && db.dispositions[t.delivery].attempt == t.attempt
    && db.dispositions[t.delivery].state == DispositionPrepared
    && db.dispositions[t.delivery].session == None && db.dispositions[t.delivery].child == None && db.dispositions[t.delivery].reapStatus == None
  }

  ghost predicate InPlanner(db: Store, t: P.Tuple) {
    && t.task in db.tasks && !TaskEnded(db.events, t.task)
    && t.delivery in db.deliveries && db.deliveries[t.delivery].acknowledgedAt == None
  }

  /** The verdict on one tuple whose log ends at `n`. */
  ghost function ProveTable(db: Store, t: P.Tuple, n: int, codec: Codec): Result<bool, TS.SelectionError>
    requires LastEvent(db.events, t.task, n)
  {
    var e := db.events[EventKey(t.task, n)];
    if e.status != Dispatched then Ok(false)
    else if codec.decode(e.payload) != DispatchedTo(t.delivery, t.attempt) then Err(TS.MalformedRow)
    else if !(t.task in db.admissions && db.admissions[t.task].state == AdmissionDispatching && db.admissions[t.task].revision >= 0) then Ok(false)
    else
      var conflicts := set c | c in {TS.AdmissionRuntimeMissing, TS.LeaseIdentityInvalid, TS.LeaseOwnerMismatch, TS.LeaseCardinality}
                                && Shows(db, t.task, db.admissions[t.task].runtime, c);
      var found := exists k :: RecoveryLeaseOf(db, t.task, k);
      if !found && conflicts == {} then Ok(false)
      else if !CleanDisposition(db, t) || !NothingWaits(db, t.task) then if conflicts == {} then Ok(false) else Err(TS.Conflicting(conflicts))
      else if conflicts == {} && InPlanner(db, t) then Ok(true)
      else Err(TS.Conflicting(conflicts + if InPlanner(db, t) then {} else {TS.PlannerParity}))
  }

  lemma ConflictSet(db: Store, task: string, runtime: Option<string>)
    ensures TS.EarlyConflicts(db, task, runtime) ==
      set c | c in {TS.AdmissionRuntimeMissing, TS.LeaseIdentityInvalid, TS.LeaseOwnerMismatch, TS.LeaseCardinality} && Shows(db, task, runtime, c)
  {
    hide TS.EarlyConflicts;
    ConflictsExactly(db, task, runtime);
    forall c
      ensures Shows(db, task, runtime, c) ==> c in {TS.AdmissionRuntimeMissing, TS.LeaseIdentityInvalid, TS.LeaseOwnerMismatch, TS.LeaseCardinality}
    {
      match c { case AdmissionRuntimeMissing => case LeaseIdentityInvalid => case LeaseOwnerMismatch => case LeaseCardinality => case PlannerParity => }
    }
  }

  lemma PlannedExactly(db: Store, t: P.Tuple)
    ensures TS.Planned(db, t) <==> InPlanner(db, t)
  {
    hide TaskEnded, Unfinished, Unacknowledged, Awaiting;
    PlannerExactly(db);
  }

  /** `prove_candidate` for every tuple and database. */
  lemma ProveTableExactly(db: Store, t: P.Tuple, codec: Codec)
    ensures (forall k :: k in db.events ==> k.task != t.task) ==> TS.Prove(db, t, codec) == Err(TS.Nonterminal)
    ensures forall n :: LastEvent(db.events, t.task, n) ==> TS.Prove(db, t, codec) == ProveTable(db, t, n, codec)
  {
    hide TS.EarlyConflicts, TS.Planned, InPlanner, Shows, NothingWaits, P.NothingQueued;
    forall n | LastEvent(db.events, t.task, n)
      ensures TS.Prove(db, t, codec) == ProveTable(db, t, n, codec)
    {
      LastEventExactly(db.events, t.task, n);
      PlannedExactly(db, t);
      NothingQueuedExactly(db, t.task);
      RecoveryExactly(db, t.task);
      if t.task in db.admissions { ConflictSet(db, t.task, db.admissions[t.task].runtime); }
    }
  }

  lemma NothingQueuedExactly(db: Store, task: string)
    ensures P.NothingQueued(db, task) <==> NothingWaits(db, task)
  {
    NothingWaitsExactly(db, task);
  }

  lemma RecoveryExactly(db: Store, task: string)
    ensures P.RecoveryLeases(db, task) != {} <==> exists k :: RecoveryLeaseOf(db, task, k)
  {
    if P.RecoveryLeases(db, task) != {} {
      var k :| k in P.RecoveryLeases(db, task);
      assert RecoveryLeaseOf(db, task, k);
    }
    if exists k :: RecoveryLeaseOf(db, task, k) {
      var k :| RecoveryLeaseOf(db, task, k);
      assert k in P.RecoveryLeases(db, task);
    }
  }

  /** What a row that makes the selection fail is answered with. */
  ghost function RowError(db: Store, d: string, codec: Codec): Option<TS.SelectionError>
    requires d in db.deliveries
  {
    var row := db.deliveries[d];
    if row.acknowledgedAt != None then None
    else if row.attempt <= 0 then Some(TS.MalformedRow)
    else match TS.Prove(db, P.Tuple(d, row.task, row.attempt), codec)
      case Err(e) => Some(e)
      case Ok(_) => None
  }

  ghost predicate Accepts(db: Store, d: string, codec: Codec) {
    && d in db.deliveries && db.deliveries[d].acknowledgedAt == None && db.deliveries[d].attempt > 0
    && TS.Prove(db, P.Tuple(d, db.deliveries[d].task, db.deliveries[d].attempt), codec) == Ok(true)
  }

  /** The first row in key order that fails decides. */
  ghost predicate FirstFailure(db: Store, d: string, codec: Codec) {
    && d in db.deliveries && RowError(db, d, codec) != None
    && forall e :: e in db.deliveries && TextLess(e, d) ==> RowError(db, e, codec) == None
  }

  lemma {:induction false} CandidatesFail(db: Store, rows: seq<string>, codec: Codec, i: nat)
    requires forall d :: d in rows ==> d in db.deliveries
    requires i < |rows| && RowError(db, rows[i], codec) != None && forall j :: 0 <= j < i ==> RowError(db, rows[j], codec) == None
    ensures TS.Candidates(db, rows, codec) == Err(RowError(db, rows[i], codec).value)
  {
    hide TS.Prove;
    if i > 0 { CandidatesFail(db, rows[1..], codec, i - 1); }
  }

  lemma {:induction false} CandidatesAre(db: Store, rows: seq<string>, codec: Codec) returns (found: seq<string>)
    requires forall d :: d in rows ==> d in db.deliveries
    requires forall i, j :: 0 <= i < j < |rows| ==> rows[i] != rows[j]
    requires forall d :: d in rows ==> RowError(db, d, codec) == None
    ensures forall d :: d in found <==> d in rows && Accepts(db, d, codec)
    ensures forall i, j :: 0 <= i < j < |found| ==> found[i] != found[j]
    ensures TS.Candidates(db, rows, codec).Ok? && |TS.Candidates(db, rows, codec).value| == |found|
    ensures forall i :: 0 <= i < |found| ==> TS.Candidates(db, rows, codec).value[i] == TS.TupleOf(db, found[i])
  {
    hide TS.Prove;
    if rows == [] {
      found := [];
    } else {
      assert RowError(db, rows[0], codec) == None;
      assert rows[0] !in rows[1..];
      found := CandidatesAre(db, rows[1..], codec);
      if Accepts(db, rows[0], codec) { found := [rows[0]] + found; }
    }
  }

  lemma SelectFails(db: Store, codec: Codec, d: string)
    requires FirstFailure(db, d, codec)
    ensures TS.Select(db, codec) == Err(RowError(db, d, codec).value)
  {
    TextLessIsTotalOrder();
    hide TS.Prove, RowError, TS.Candidates, Ordered, TextLess;
    var rows := Ordered(db.deliveries.Keys, TextLess);
    assert TS.Rows(db) == rows;
    var i :| 0 <= i < |rows| && rows[i] == d;
    assert forall j :: 0 <= j < i ==> TextLess(rows[j], rows[i]) && rows[j] in db.deliveries;
    CandidatesFail(db, rows, codec, i);
  }

  ghost predicate NoFailure(db: Store, codec: Codec) {
    forall d :: d in db.deliveries ==> RowError(db, d, codec) == None
  }

  lemma SelectChooses(db: Store, codec: Codec) returns (found: seq<string>)
    requires NoFailure(db, codec)
    ensures forall d :: d in found <==> Accepts(db, d, codec)
    ensures forall i, j :: 0 <= i < j < |found| ==> found[i] != found[j]
    ensures |found| == 0 ==> TS.Select(db, codec) == Err(TS.NothingFound)
    ensures |found| == 1 ==> found[0] in db.deliveries && TS.Select(db, codec) == Ok(TS.TupleOf(db, found[0]))
    ensures |found| > 1 ==> TS.Select(db, codec) == Err(TS.SeveralFound)
  {
    AcceptedExist(db, codec);
    hide TS.Prove, RowError, TS.Candidates, Accepts;
    found := CandidatesAre(db, TS.Rows(db), codec);
    if |found| == 1 { assert found[0] in found; }
  }

  /** `select_tx` for every database: the first error in key order; otherwise none, the one, or several. */
  lemma SelectExactly(db: Store, codec: Codec)
    ensures forall d :: FirstFailure(db, d, codec) ==> TS.Select(db, codec) == Err(RowError(db, d, codec).value)
    ensures NoFailure(db, codec) ==>
      && ((forall d :: !Accepts(db, d, codec)) ==> TS.Select(db, codec) == Err(TS.NothingFound))
      && (forall d :: Accepts(db, d, codec) && (forall e :: Accepts(db, e, codec) ==> e == d) ==>
            TS.Select(db, codec) == Ok(P.Tuple(d, db.deliveries[d].task, db.deliveries[d].attempt)))
      && (forall d, e :: Accepts(db, d, codec) && Accepts(db, e, codec) && d != e ==> TS.Select(db, codec) == Err(TS.SeveralFound))
  {
    AcceptedExist(db, codec);
    hide TS.Select, RowError, Accepts, NoFailure;
    forall d | FirstFailure(db, d, codec)
      ensures TS.Select(db, codec) == Err(RowError(db, d, codec).value)
    {
      SelectFails(db, codec, d);
    }
    if NoFailure(db, codec) {
      var found := SelectChooses(db, codec);
      assert |found| > 0 ==> found[0] in found;
      assert |found| > 1 ==> found[1] in found;
    }
  }

  lemma AcceptedExist(db: Store, codec: Codec)
    ensures forall d :: Accepts(db, d, codec) ==> d in db.deliveries
  {
  }

  // --------------------------------------------------------------- diagnosis

  /** The lease decides: whose runtime is live, recorded, or unknown. */
  ghost function LeaseTable(db: Store, runtime: Option<string>, l: Lease): LD.Class {
    if l.owner == "" || l.fence <= 0 || l.expiresAt == "" then LD.FencedRow
    else if l.owner !in db.runtimes then if runtime != None && l.state == LeaseRecovery then LD.Orphan else LD.FencedRow
    else match db.runtimes[l.owner].state
      case OwnerActive => LD.LiveOwner
      case OwnerStopping => LD.LiveOwner
      case OwnerStopped => if runtime == Some(l.owner) && l.state == LeaseRecovery then LD.Candidate else LD.FencedRow
  }

  lemma LeaseTableExactly(db: Store, runtime: Option<string>, l: Lease)
    ensures LD.ClassifyLease(db, runtime, l) == LeaseTable(db, runtime, l)
  {
  }

  /** The verdict on one delivery whose task's log ends at `n`, and whose task has the one lease `k`, if it has one only. */
  ghost function DiagnosisTable(db: Store, d: string, n: int, codec: Codec): LD.Class
    requires d in db.deliveries && LastEvent(db.events, db.deliveries[d].task, n)
  {
    var row := db.deliveries[d];
    var e, t := db.events[EventKey(row.task, n)], P.Tuple(d, row.task, row.attempt);
    if row.acknowledgedAt != None then LD.Skipped
    else if !(row.task in db.admissions && db.admissions[row.task].state == AdmissionDispatching && db.admissions[row.task].revision >= 0) then LD.Skipped
    else if !(e.status == Dispatched && codec.decode(e.payload) == DispatchedTo(d, row.attempt)) then LD.Broken
    else if !CleanDisposition(db, t) || !NothingWaits(db, row.task) || !InPlanner(db, t) || Count(db.leases, OfTask(row.task)) != 1 then LD.FencedRow
    else
      var k :| k in db.leases && db.leases[k].task == row.task;
      LeaseTable(db, db.admissions[row.task].runtime, db.leases[k])
  }

  lemma OneLeaseOf(db: Store, task: string)
    requires Count(db.leases, OfTask(task)) == 1
    ensures |LeasesOf(db, task)| == 1
    ensures forall k :: k in db.leases && db.leases[k].task == task ==> k == Only(LeasesOf(db, task))
    ensures Only(LeasesOf(db, task)) in db.leases && db.leases[Only(LeasesOf(db, task))].task == task
  {
    LeaseCount(db, task);
    assert Only(LeasesOf(db, task)) in LeasesOf(db, task);
    assert forall k :: k in db.leases && db.leases[k].task == task ==> k in LeasesOf(db, task);
  }

  /** The classification of every delivery; one whose task has no event is passed over. */
  lemma DiagnosisTableExactly(db: Store, d: string, codec: Codec)
    requires d in db.deliveries
    ensures (forall k :: k in db.events ==> k.task != db.deliveries[d].task) ==> LD.Classify(db, d, codec) == LD.Skipped
    ensures forall n :: LastEvent(db.events, db.deliveries[d].task, n) ==> LD.Classify(db, d, codec) == DiagnosisTable(db, d, n, codec)
  {
    hide TS.Planned, InPlanner, NothingWaits, P.NothingQueued, LD.ClassifyLease, LeaseTable, LeasesOf;
    var row := db.deliveries[d];
    var t := P.Tuple(d, row.task, row.attempt);
    forall n | LastEvent(db.events, row.task, n)
      ensures LD.Classify(db, d, codec) == DiagnosisTable(db, d, n, codec)
    {
      LastEventExactly(db.events, row.task, n);
      PlannedExactly(db, t);
      NothingQueuedExactly(db, row.task);
      LeaseCount(db, row.task);
      if Count(db.leases, OfTask(row.task)) == 1 {
        OneLeaseOf(db, row.task);
        if row.task in db.admissions {
          LeaseTableExactly(db, db.admissions[row.task].runtime, db.leases[Only(LeasesOf(db, row.task))]);
        }
      }
    }
  }

  ghost predicate Occurs(db: Store, c: LD.Class, codec: Codec) {
    exists d :: d in db.deliveries && LD.Classify(db, d, codec) == c
  }

  ghost predicate IsCandidate(db: Store, d: string, codec: Codec) {
    d in db.deliveries && LD.Classify(db, d, codec) == LD.Candidate
  }

  /** Which findings outrank which: a broken row, a live owner, candidates, an orphan, a fenced row. */
  lemma DiagnosisRanks(db: Store, codec: Codec)
    ensures Occurs(db, LD.Broken, codec) ==> LD.Diagnosis(db, codec) == LD.MalformedDatabase
    ensures !Occurs(db, LD.Broken, codec) && Occurs(db, LD.LiveOwner, codec) ==> LD.Diagnosis(db, codec) == LD.ActiveOwner
    ensures !Occurs(db, LD.Broken, codec) && !Occurs(db, LD.LiveOwner, codec) ==>
      && (forall d, e :: IsCandidate(db, d, codec) && IsCandidate(db, e, codec) && d != e ==> LD.Diagnosis(db, codec) == LD.Multiple)
      && (forall d :: IsCandidate(db, d, codec) && (forall e :: IsCandidate(db, e, codec) ==> e == d) ==> LD.Diagnosis(db, codec) == LD.Eligible)
      && (!Occurs(db, LD.Candidate, codec) ==>
            && (Occurs(db, LD.Orphan, codec) ==> LD.Diagnosis(db, codec) == LD.NonActionableOrphan)
            && (!Occurs(db, LD.Orphan, codec) && Occurs(db, LD.FencedRow, codec) ==> LD.Diagnosis(db, codec) == LD.FencedOnly)
            && (!Occurs(db, LD.Orphan, codec) && !Occurs(db, LD.FencedRow, codec) ==> LD.Diagnosis(db, codec) == LD.Empty))
  {
    hide LD.Classify;
    forall c: LD.Class
      ensures LD.Members(db, c, codec) != {} <==> Occurs(db, c, codec)
    {
      if d :| d in db.deliveries && LD.Classify(db, d, codec) == c {
        assert d in LD.Members(db, c, codec);
      }
    }
    var found := LD.Members(db, LD.Candidate, codec);
    assert forall d :: d in found <==> IsCandidate(db, d, codec);
    OneOrSeveral(found);
  }

  lemma OneOrSeveral(s: set<string>)
    ensures forall d, e :: d in s && e in s && d != e ==> |s| > 1
    ensures forall d :: d in s && (forall e :: e in s ==> e == d) ==> |s| == 1
  {
    forall d, e | d in s && e in s && d != e
      ensures |s| > 1
    {
      assert e in s - {d} && |s - {d}| == |s| - 1;
    }
    forall d | d in s && (forall e :: e in s ==> e == d)
      ensures |s| == 1
    {
      assert s == {d};
    }
  }
}
