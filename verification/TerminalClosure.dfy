/** The shared terminal write: one event, task, admission, delivery, disposition and lease, each behind its guard. */
module TerminalClosure {
  import opened Prelude
  import opened Tables

  datatype ClosureError = Fenced | AdmissionStale | Malformed | DatabaseFailed

  datatype LeaseMode =
    | LiveActive(owner: string, fence: int, now: string)
    | OfflineRecoveryNeeded(owner: string, fence: int, expiresAt: string)

  datatype AdmissionMode = LiveAdmission | OfflineAdmission(runtimeOwner: Option<string>, revision: int)

  datatype DeliveryBinding = LiveContinuation | OfflineExact(delivery: string, attempt: int)

  datatype VersionMode = LiveAlreadyAdvanced | OfflineExpected(version: int)

  /** The in-memory event; `task` is the canonical text of its parsed task id. */
  datatype TerminalEvent = TerminalEvent(
    id: string, task: string, at: int, status: Status, timestamp: string, payload: string)

  datatype Context = Context(
    task: string, resource: string, event: TerminalEvent, now: string, delivery: DeliveryBinding,
    admission: AdmissionMode, version: VersionMode, reason: Option<string>)

  const AUTH_FAILURE: string := "pre_acceptance_auth_failure"

  // The six statements, in the order `apply` runs them, each on the one table it writes.

  function AdvanceVersion(tasks: map<string, Task>, c: Context): Result<map<string, Task>, ClosureError> {
    match c.version
    case LiveAlreadyAdvanced => Ok(tasks)
    case OfflineExpected(v) =>
      if c.task in tasks && tasks[c.task].version == v then
        Ok(tasks[c.task := tasks[c.task].(version := tasks[c.task].version + 1)])
      else
        Err(Fenced)
  }

  /** Rejected by the primary key, by UNIQUE (task_id, seq), by seq >= 1 or by the foreign key. */
  function InsertEvent(tasks: map<string, Task>, events: map<EventKey, Event>, c: Context)
    : Result<map<EventKey, Event>, ClosureError>
  {
    var key := EventKey(c.task, c.event.at);
    if c.task in tasks && key !in events && c.event.at >= 1 && FreshEvent(events, c.event.id) then
      Ok(events[key := Event(c.event.id, c.event.status, c.event.timestamp, c.event.payload)])
    else
      Err(DatabaseFailed)
  }

  predicate AdmissionOpen(a: Admission, mode: AdmissionMode) {
    match mode
    case LiveAdmission => a.state in {AdmissionEnqueued, AdmissionDispatching, AdmissionRunning}
    case OfflineAdmission(owner, revision) =>
      a.state == AdmissionDispatching && a.revision == revision && a.runtime == owner
  }

  function CloseAdmission(admissions: map<string, Admission>, c: Context)
    : Result<map<string, Admission>, ClosureError>
  {
    if c.task in admissions && AdmissionOpen(admissions[c.task], c.admission) then
      var a := admissions[c.task];
      Ok(admissions[c.task := a.(state := AdmissionTerminal, revision := a.revision + 1, updatedAt := c.now)])
    else
      Err(if c.admission.LiveAdmission? then AdmissionStale else Fenced)
  }

  /** The delivery that the binding names, if there is one. */
  function Bound(continuations: map<string, Continuation>, c: Context): Option<string> {
    match c.delivery
    case LiveContinuation => if c.task in continuations then Some(continuations[c.task].delivery) else None
    case OfflineExact(d, _) => Some(d)
  }

  predicate Unacked(row: Delivery, c: Context) {
    && row.task == c.task && row.acknowledgedAt.None?
    && (c.delivery.OfflineExact? ==> row.attempt == c.delivery.attempt)
  }

  /** CHECK (acknowledged_at >= dispatched_at) turns an early `now` into a database error. */
  function Acknowledge(deliveries: map<string, Delivery>, bound: Option<string>, c: Context)
    : Result<map<string, Delivery>, ClosureError>
  {
    if bound.Some? && bound.value in deliveries && Unacked(deliveries[bound.value], c) then
      if TextAtMost(deliveries[bound.value].dispatchedAt, c.now) then
        Ok(deliveries[bound.value := deliveries[bound.value].(acknowledgedAt := Some(c.now))])
      else
        Err(DatabaseFailed)
    else if c.delivery.OfflineExact? then Err(Fenced)
    else Ok(deliveries)
  }

  predicate DispositionOpen(row: Disposition, c: Context) {
    && row.task == c.task
    && match c.delivery {
         case LiveContinuation => row.state != DispositionTerminal
         case OfflineExact(_, attempt) =>
           row.attempt == attempt && row.state == DispositionPrepared && row.session.None? && row.child.None?
       }
  }

  function CloseDisposition(dispositions: map<string, Disposition>, bound: Option<string>, c: Context)
    : Result<map<string, Disposition>, ClosureError>
  {
    if bound.Some? && bound.value in dispositions && DispositionOpen(dispositions[bound.value], c) then
      var reason := if c.delivery.LiveContinuation? then None
                    else Some(if c.reason.Some? then c.reason.value else AUTH_FAILURE);
      Ok(dispositions[bound.value := dispositions[bound.value].(state := DispositionTerminal, reason := reason)])
    else if c.delivery.OfflineExact? then Err(Fenced)
    else Ok(dispositions)
  }

  predicate LeaseHeld(l: Lease, task: string, mode: LeaseMode) {
    && l.task == task && l.owner == mode.owner && l.fence == mode.fence
    && match mode {
         case LiveActive(_, _, now) => l.state == LeaseActive && TextLess(now, l.expiresAt)
         case OfflineRecoveryNeeded(_, _, expiry) => l.state == LeaseRecovery && l.expiresAt == expiry
       }
  }

  function ReleaseLease(leases: map<string, Lease>, c: Context, mode: LeaseMode)
    : Result<map<string, Lease>, ClosureError>
  {
    if c.resource in leases && LeaseHeld(leases[c.resource], c.task, mode) then
      var l := leases[c.resource];
      Ok(leases[c.resource := match mode
        case LiveActive(_, _, now) => l.(state := LeaseReleased, heartbeatAt := now, expiresAt := now)
        case OfflineRecoveryNeeded(_, _, _) => l.(state := LeaseReleased, heartbeatAt := c.now)])
    else
      Err(Fenced)
  }

  predicate WellFormedEvent(c: Context) {
    c.event.task == c.task && Terminal(c.event.status)
  }

  function Closure(db: Store, c: Context, mode: LeaseMode): Result<Store, ClosureError> {
    if !WellFormedEvent(c) then
      Err(Malformed)
    else
      var bound := Bound(db.continuations, c);
      var tasks :- AdvanceVersion(db.tasks, c);
      var events :- InsertEvent(tasks, db.events, c);
      var admissions :- CloseAdmission(db.admissions, c);
      var deliveries :- Acknowledge(db.deliveries, bound, c);
      var dispositions :- CloseDisposition(db.dispositions, bound, c);
      var leases :- ReleaseLease(db.leases, c, mode);
      Ok(db.(tasks := tasks, events := events, admissions := admissions, deliveries := deliveries,
             dispositions := dispositions, leases := leases))
  }

  /** A transaction: a private copy of the store that its owner installs or drops. */
  class Transaction {
    var db: Store

    constructor (start: Store)
      ensures db == start
    {
      db := start;
    }

    /** `apply`. After an error the copy holds a partial write and the owner must drop it. */
    method Apply(c: Context, mode: LeaseMode) returns (r: Result<(), ClosureError>)
      modifies this
      ensures r.Ok? <==> Closure(old(db), c, mode).Ok?
      ensures r.Ok? ==> db == Closure(old(db), c, mode).value
      ensures r.Err? ==> r.error == Closure(old(db), c, mode).error
    {
      if c.event.task != c.task || !Terminal(c.event.status) {
        return Err(Malformed);
      }
      var tasks := AdvanceVersion(db.tasks, c);
      if tasks.Err? { return Err(tasks.error); }
      db := db.(tasks := tasks.value);
      var events := InsertEvent(db.tasks, db.events, c);
      if events.Err? { return Err(events.error); }
      db := db.(events := events.value);
      var admissions := CloseAdmission(db.admissions, c);
      if admissions.Err? { return Err(admissions.error); }
      db := db.(admissions := admissions.value);
      var bound := Bound(db.continuations, c);
      var deliveries := Acknowledge(db.deliveries, bound, c);
      if deliveries.Err? { return Err(deliveries.error); }
      db := db.(deliveries := deliveries.value);
      var dispositions := CloseDisposition(db.dispositions, bound, c);
      if dispositions.Err? { return Err(dispositions.error); }
      db := db.(dispositions := dispositions.value);
      var leases := ReleaseLease(db.leases, c, mode);
      if leases.Err? { return Err(leases.error); }
      db := db.(leases := leases.value);
      return Ok(());
    }
  }

  // ------------------------------------------------------------- properties

  ghost predicate SameExcept<K, V>(before: map<K, V>, after: map<K, V>, key: K) {
    && before.Keys == after.Keys
    && forall k :: k in before && k != key ==> before[k] == after[k]
  }

  ghost predicate OnlyRowsOfTask(before: Store, after: Store, task: string) {
    && before.deliveries.Keys == after.deliveries.Keys
    && (forall d :: d in before.deliveries && before.deliveries[d].task != task
          ==> before.deliveries[d] == after.deliveries[d])
    && before.dispositions.Keys == after.dispositions.Keys
    && (forall d :: d in before.dispositions && before.dispositions[d].task != task
          ==> before.dispositions[d] == after.dispositions[d])
  }

  /** The only rows that a closure of `task` may touch. */
  ghost predicate Confined(before: Store, after: Store, task: string, resource: string, key: EventKey) {
    && SameExcept(before.tasks, after.tasks, task)
    && key !in before.events && key in after.events && after.events == before.events[key := after.events[key]]
    && SameExcept(before.admissions, after.admissions, task)
    && SameExcept(before.leases, after.leases, resource)
    && OnlyRowsOfTask(before, after, task)
    && after == before.(tasks := after.tasks, events := after.events, admissions := after.admissions,
                        deliveries := after.deliveries, dispositions := after.dispositions, leases := after.leases)
  }

  /**
   * In every combination of modes, a closure that succeeds ends its own task with exactly one terminal
   * event, raises the admission revision by one, releases the one lease and touches no other task's rows.
   */
  lemma ClosureIsConfined(db: Store, c: Context, mode: LeaseMode)
    requires Closure(db, c, mode).Ok?
    ensures var after := Closure(db, c, mode).value; var key := EventKey(c.task, c.event.at);
      && Confined(db, after, c.task, c.resource, key)
      && Terminal(after.events[key].status)
      && c.task in db.admissions && after.admissions[c.task].state == AdmissionTerminal
      && after.admissions[c.task].revision == db.admissions[c.task].revision + 1
      && c.resource in db.leases && db.leases[c.resource].task == c.task
      && db.leases[c.resource].state != LeaseReleased && after.leases[c.resource].state == LeaseReleased
  {
    hide TextLess, FreshEvent;
  }

  /** A closed task cannot be closed again in any mode: its admission is terminal. */
  lemma ClosureIsOnce(db: Store, c: Context, mode: LeaseMode, c': Context, mode': LeaseMode)
    requires Closure(db, c, mode).Ok? && c'.task == c.task
    ensures Closure(Closure(db, c, mode).value, c', mode').Err?
  {
  }
}
