/** The terminal write as its SQL statements, and the proof that the model of `apply` is exactly that. */
module TerminalClosureSql {
  import opened Prelude
  import opened Tables
  import opened Sql
  import TC = TerminalClosure

  // `WHERE` of each statement, over any row of its table.

  ghost function VersionWhere(c: TC.Context, version: int): (string, Task) -> bool {
    (k: string, t: Task) => k == c.task && t.version == version
  }

  ghost function AdmissionWhere(c: TC.Context): (string, Admission) -> bool {
    (k: string, a: Admission) =>
      k == c.task && match c.admission {
        case LiveAdmission => a.state == AdmissionEnqueued || a.state == AdmissionDispatching || a.state == AdmissionRunning
        case OfflineAdmission(owner, revision) => a.state == AdmissionDispatching && a.revision == revision && a.runtime == owner
      }
  }

  /** The delivery that the statement names: by the task's continuation, or outright. */
  ghost predicate Names(db: Store, c: TC.Context, k: string) {
    match c.delivery
    case LiveContinuation => c.task in db.continuations && db.continuations[c.task].delivery == k
    case OfflineExact(d, _) => d == k
  }

  ghost function DeliveryWhere(db: Store, c: TC.Context): (string, Delivery) -> bool {
    (k: string, d: Delivery) =>
      Names(db, c, k) && d.task == c.task && d.acknowledgedAt == None && (c.delivery.OfflineExact? ==> d.attempt == c.delivery.attempt)
  }

  ghost function DispositionWhere(db: Store, c: TC.Context): (string, Disposition) -> bool {
    (k: string, p: Disposition) =>
      Names(db, c, k) && p.task == c.task && match c.delivery {
        case LiveContinuation => p.state == DispositionPrepared || p.state == DispositionAcknowledged || p.state == DispositionUnknown
        case OfflineExact(_, attempt) => p.attempt == attempt && p.state == DispositionPrepared && p.session == None && p.child == None
      }
  }

  ghost function LeaseWhere(c: TC.Context, mode: TC.LeaseMode): (string, Lease) -> bool {
    (k: string, l: Lease) =>
      k == c.resource && l.task == c.task && match mode {
        case LiveActive(owner, fence, now) => l.owner == owner && l.fence == fence && l.state == LeaseActive && TextLess(now, l.expiresAt)
        case OfflineRecoveryNeeded(owner, fence, expiry) => l.owner == owner && l.fence == fence && l.state == LeaseRecovery && l.expiresAt == expiry
      }
  }

  // `SET` of each statement.

  ghost function VersionSet(): Task -> Task {
    (t: Task) => t.(version := t.version + 1)
  }

  ghost function AdmissionSet(c: TC.Context): Admission -> Admission {
    (a: Admission) => a.(state := AdmissionTerminal, revision := a.revision + 1, updatedAt := c.now)
  }

  ghost function DeliverySet(c: TC.Context): Delivery -> Delivery {
    (d: Delivery) => d.(acknowledgedAt := Some(c.now))
  }

  ghost function Reason(c: TC.Context): Option<string> {
    if c.delivery.LiveContinuation? then None
    else if c.reason.Some? then c.reason
    else Some("pre_acceptance_auth_failure")
  }

  ghost function DispositionSet(c: TC.Context): Disposition -> Disposition {
    (p: Disposition) => p.(state := DispositionTerminal, reason := Reason(c))
  }

  ghost function LeaseSet(c: TC.Context, mode: TC.LeaseMode): Lease -> Lease {
    (l: Lease) =>
      if mode.LiveActive? then l.(state := LeaseReleased, heartbeatAt := mode.now, expiresAt := mode.now)
      else l.(state := LeaseReleased, heartbeatAt := c.now)
  }

  // The statements, in order.

  ghost function Tasks(db: Store, c: TC.Context): map<string, Task> {
    if c.version.LiveAlreadyAdvanced? then db.tasks
    else Update(db.tasks, VersionWhere(c, c.version.version), VersionSet())
  }

  ghost predicate EventAccepted(db: Store, c: TC.Context) {
    && c.task in db.tasks && c.event.at >= 1
    && forall k :: k in db.events ==> k != EventKey(c.task, c.event.at) && db.events[k].id != c.event.id
  }

  ghost function Admissions(db: Store, c: TC.Context): map<string, Admission> {
    Update(db.admissions, AdmissionWhere(c), AdmissionSet(c))
  }

  /** The CHECK that an acknowledgement is not before its dispatch. */
  ghost predicate Timely(db: Store, c: TC.Context) {
    forall k :: k in db.deliveries && DeliveryWhere(db, c)(k, db.deliveries[k]) ==> !TextLess(c.now, db.deliveries[k].dispatchedAt)
  }

  ghost function Deliveries(db: Store, c: TC.Context): map<string, Delivery> {
    Update(db.deliveries, DeliveryWhere(db, c), DeliverySet(c))
  }

  ghost function Dispositions(db: Store, c: TC.Context): map<string, Disposition> {
    Update(db.dispositions, DispositionWhere(db, c), DispositionSet(c))
  }

  ghost function Leases(db: Store, c: TC.Context, mode: TC.LeaseMode): map<string, Lease> {
    Update(db.leases, LeaseWhere(c, mode), LeaseSet(c, mode))
  }

  /** `apply` as a script of statements: the first that is refused gives the error. */
  ghost function Script(db: Store, c: TC.Context, mode: TC.LeaseMode): Result<Store, TC.ClosureError> {
    if c.event.task != c.task || c.event.status == Queued || c.event.status == Dispatched || c.event.status == Running then Err(TC.Malformed)
    else if c.version.OfflineExpected? && Count(db.tasks, VersionWhere(c, c.version.version)) != 1 then Err(TC.Fenced)
    else if !EventAccepted(db, c) then Err(TC.DatabaseFailed)
    else if Count(db.admissions, AdmissionWhere(c)) != 1 then Err(if c.admission.LiveAdmission? then TC.AdmissionStale else TC.Fenced)
    else if !Timely(db, c) then Err(TC.DatabaseFailed)
    else if c.delivery.OfflineExact? && (Count(db.deliveries, DeliveryWhere(db, c)) != 1 || Count(db.dispositions, DispositionWhere(db, c)) != 1) then Err(TC.Fenced)
    else if Count(db.leases, LeaseWhere(c, mode)) != 1 then Err(TC.Fenced)
    else Ok(db.(
      tasks := Tasks(db, c),
      events := db.events[EventKey(c.task, c.event.at) := Event(c.event.id, c.event.status, c.event.timestamp, c.event.payload)],
      admissions := Admissions(db, c), deliveries := Deliveries(db, c), dispositions := Dispositions(db, c), leases := Leases(db, c, mode)))
  }

  // ------------------------------------------------------------- statement by statement

  lemma VersionStatement(db: Store, c: TC.Context)
    ensures TC.AdvanceVersion(db.tasks, c) ==
      if c.version.OfflineExpected? && Count(db.tasks, VersionWhere(c, c.version.version)) != 1 then Err(TC.Fenced) else Ok(Tasks(db, c))
    ensures c.task in db.tasks <==> c.task in Tasks(db, c)
  {
    if c.version.OfflineExpected? {
      ByKey(db.tasks, VersionWhere(c, c.version.version), VersionSet(), c.task);
    }
  }

  lemma EventStatement(db: Store, c: TC.Context)
    ensures TC.InsertEvent(Tasks(db, c), db.events, c) ==
      if !EventAccepted(db, c) then Err(TC.DatabaseFailed)
      else Ok(db.events[EventKey(c.task, c.event.at) := Event(c.event.id, c.event.status, c.event.timestamp, c.event.payload)])
  {
    VersionStatement(db, c);
  }

  lemma AdmissionStatement(db: Store, c: TC.Context)
    ensures TC.CloseAdmission(db.admissions, c) ==
      if Count(db.admissions, AdmissionWhere(c)) != 1 then Err(if c.admission.LiveAdmission? then TC.AdmissionStale else TC.Fenced)
      else Ok(Admissions(db, c))
  {
    ByKey(db.admissions, AdmissionWhere(c), AdmissionSet(c), c.task);
  }

  lemma DeliveryStatement(db: Store, c: TC.Context)
    ensures TC.Acknowledge(db.deliveries, TC.Bound(db.continuations, c), c) ==
      if !Timely(db, c) then Err(TC.DatabaseFailed)
      else if c.delivery.OfflineExact? && Count(db.deliveries, DeliveryWhere(db, c)) != 1 then Err(TC.Fenced)
      else Ok(Deliveries(db, c))
  {
    var bound := TC.Bound(db.continuations, c);
    if bound.Some? {
      ByKey(db.deliveries, DeliveryWhere(db, c), DeliverySet(c), bound.value);
    } else {
      NothingBound(db.deliveries, DeliveryWhere(db, c), DeliverySet(c));
    }
  }

  lemma NothingBound<V(!new)>(m: map<string, V>, p: (string, V) -> bool, f: V -> V)
    requires forall k, v :: !p(k, v)
    ensures Count(m, p) == 0 && Update(m, p, f) == m
  {
    assert Where(m, p) == {};
  }

  lemma DispositionStatement(db: Store, c: TC.Context)
    ensures TC.CloseDisposition(db.dispositions, TC.Bound(db.continuations, c), c) ==
      if c.delivery.OfflineExact? && Count(db.dispositions, DispositionWhere(db, c)) != 1 then Err(TC.Fenced) else Ok(Dispositions(db, c))
  {
    var bound := TC.Bound(db.continuations, c);
    if bound.Some? {
      ByKey(db.dispositions, DispositionWhere(db, c), DispositionSet(c), bound.value);
    } else {
      NothingBound(db.dispositions, DispositionWhere(db, c), DispositionSet(c));
    }
  }

  lemma LeaseStatement(db: Store, c: TC.Context, mode: TC.LeaseMode)
    ensures TC.ReleaseLease(db.leases, c, mode) == if Count(db.leases, LeaseWhere(c, mode)) != 1 then Err(TC.Fenced) else Ok(Leases(db, c, mode))
  {
    ByKey(db.leases, LeaseWhere(c, mode), LeaseSet(c, mode), c.resource);
  }

  /** In every combination of modes the terminal write has exactly the outcome of its SQL statements: error or store. */
  lemma ClosureExactly(db: Store, c: TC.Context, mode: TC.LeaseMode)
    ensures TC.Closure(db, c, mode) == Script(db, c, mode)
  {
    hide TC.AdvanceVersion, TC.InsertEvent, TC.CloseAdmission, TC.Acknowledge, TC.CloseDisposition, TC.ReleaseLease,
      Count, Update, EventAccepted, Timely, Tasks, Admissions, Deliveries, Dispositions, Leases;
    VersionStatement(db, c);
    EventStatement(db, c);
    AdmissionStatement(db, c);
    DeliveryStatement(db, c);
    DispositionStatement(db, c);
    LeaseStatement(db, c, mode);
  }

  // ------------------------------------------------------------ live closure

  ghost predicate LiveContext(c: TC.Context, mode: TC.LeaseMode) {
    c.version == TC.LiveAlreadyAdvanced && c.admission == TC.LiveAdmission && c.delivery == TC.LiveContinuation && mode.LiveActive?
  }

  /** The lease that a running task holds: its own, active, and not expired. */
  ghost predicate LeaseStands(db: Store, c: TC.Context, mode: TC.LeaseMode)
    requires mode.LiveActive?
  {
    && c.resource in db.leases && db.leases[c.resource].task == c.task && db.leases[c.resource].owner == mode.owner
    && db.leases[c.resource].fence == mode.fence && db.leases[c.resource].state == LeaseActive
    && TextLess(mode.now, db.leases[c.resource].expiresAt)
  }

  /** The delivery of the task's continuation, if it is there and belongs to the task. */
  ghost predicate Continues(db: Store, c: TC.Context, d: string) {
    c.task in db.continuations && db.continuations[c.task].delivery == d
  }

  ghost predicate LiveGuards(db: Store, c: TC.Context, mode: TC.LeaseMode)
    requires mode.LiveActive?
  {
    && c.event.task == c.task && c.event.status !in {Queued, Dispatched, Running} && EventAccepted(db, c)
    && c.task in db.admissions && db.admissions[c.task].state in {AdmissionEnqueued, AdmissionDispatching, AdmissionRunning}
    && (forall d :: d in db.deliveries && Continues(db, c, d) && db.deliveries[d].task == c.task && db.deliveries[d].acknowledgedAt == None ==>
          !TextLess(c.now, db.deliveries[d].dispatchedAt))
    && LeaseStands(db, c, mode)
  }

  ghost function LiveDelivery(db: Store, c: TC.Context, d: string): Delivery
    requires d in db.deliveries
  {
    if Continues(db, c, d) && db.deliveries[d].task == c.task && db.deliveries[d].acknowledgedAt == None
    then db.deliveries[d].(acknowledgedAt := Some(c.now)) else db.deliveries[d]
  }

  ghost function LiveDisposition(db: Store, c: TC.Context, d: string): Disposition
    requires d in db.dispositions
  {
    if Continues(db, c, d) && db.dispositions[d].task == c.task && db.dispositions[d].state != DispositionTerminal
    then db.dispositions[d].(state := DispositionTerminal, reason := None) else db.dispositions[d]
  }

  /** The store after a live closure: which rows change, and to what. */
  ghost predicate LivelyClosed(db: Store, c: TC.Context, mode: TC.LeaseMode, after: Store)
    requires LiveContext(c, mode) && LiveGuards(db, c, mode)
  {
    && after == db.(events := after.events, admissions := after.admissions, deliveries := after.deliveries,
                    dispositions := after.dispositions, leases := after.leases)
    && after.events == db.events[EventKey(c.task, c.event.at) := Event(c.event.id, c.event.status, c.event.timestamp, c.event.payload)]
    && after.admissions == db.admissions[c.task :=
         db.admissions[c.task].(state := AdmissionTerminal, revision := db.admissions[c.task].revision + 1, updatedAt := c.now)]
    && after.leases == db.leases[c.resource := db.leases[c.resource].(state := LeaseReleased, heartbeatAt := mode.now, expiresAt := mode.now)]
    && after.deliveries == (map d | d in db.deliveries :: LiveDelivery(db, c, d))
    && after.dispositions == (map d | d in db.dispositions :: LiveDisposition(db, c, d))
  }

  lemma LiveRows(db: Store, c: TC.Context, mode: TC.LeaseMode)
    requires LiveContext(c, mode)
    ensures Count(db.leases, LeaseWhere(c, mode)) == 1 <==> LeaseStands(db, c, mode)
    ensures LeaseStands(db, c, mode) ==>
      Leases(db, c, mode) == db.leases[c.resource := db.leases[c.resource].(state := LeaseReleased, heartbeatAt := mode.now, expiresAt := mode.now)]
    ensures Count(db.admissions, AdmissionWhere(c)) == 1 <==>
      c.task in db.admissions && db.admissions[c.task].state in {AdmissionEnqueued, AdmissionDispatching, AdmissionRunning}
  {
    hide TextLess;
    ByKey(db.leases, LeaseWhere(c, mode), LeaseSet(c, mode), c.resource);
    ByKey(db.admissions, AdmissionWhere(c), AdmissionSet(c), c.task);
  }

  lemma LiveAdmissions(db: Store, c: TC.Context)
    requires c.admission == TC.LiveAdmission && Count(db.admissions, AdmissionWhere(c)) == 1
    ensures c.task in db.admissions
    ensures Admissions(db, c) == db.admissions[c.task :=
      db.admissions[c.task].(state := AdmissionTerminal, revision := db.admissions[c.task].revision + 1, updatedAt := c.now)]
  {
    ByKey(db.admissions, AdmissionWhere(c), AdmissionSet(c), c.task);
  }

  lemma LiveDeliveries(db: Store, c: TC.Context)
    requires c.delivery == TC.LiveContinuation
    ensures Deliveries(db, c) == map d | d in db.deliveries :: LiveDelivery(db, c, d)
    ensures Dispositions(db, c) == map d | d in db.dispositions :: LiveDisposition(db, c, d)
  {
    forall d | d in db.dispositions
      ensures Dispositions(db, c)[d] == LiveDisposition(db, c, d)
    {
      match db.dispositions[d].state { case DispositionPrepared => case DispositionAcknowledged => case DispositionUnknown => case DispositionTerminal => }
    }
  }

  /** The error of the first guard that refuses. */
  ghost function LiveRefusal(db: Store, c: TC.Context): TC.ClosureError {
    if c.event.task != c.task || c.event.status in {Queued, Dispatched, Running} then TC.Malformed
    else if !EventAccepted(db, c) then TC.DatabaseFailed
    else if !(c.task in db.admissions && db.admissions[c.task].state in {AdmissionEnqueued, AdmissionDispatching, AdmissionRunning}) then TC.AdmissionStale
    else if !Timely(db, c) then TC.DatabaseFailed
    else TC.Fenced
  }

  /**
   * The live closure succeeds exactly when its guards hold, row by row, and leaves exactly this store; a lease that is
   * not held, not active or expired fences it, and an admission that is not open makes it stale.
   */
  lemma LiveClosureExactly(db: Store, c: TC.Context, mode: TC.LeaseMode)
    requires LiveContext(c, mode)
    ensures TC.Closure(db, c, mode).Ok? <==> LiveGuards(db, c, mode)
    ensures LiveGuards(db, c, mode) ==> LivelyClosed(db, c, mode, TC.Closure(db, c, mode).value)
    ensures TC.Closure(db, c, mode).Err? ==> TC.Closure(db, c, mode).error == LiveRefusal(db, c)
  {
    hide TC.Closure, Count, EventAccepted, LeaseStands, Leases, Deliveries, Dispositions, Admissions, TextLess;
    ClosureExactly(db, c, mode);
    LiveRows(db, c, mode);
    LiveDeliveries(db, c);
    if Count(db.admissions, AdmissionWhere(c)) == 1 { LiveAdmissions(db, c); }
  }
}
