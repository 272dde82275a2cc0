/**
 * The durable business tables, each a map from its primary key, with the columns that the modelled
 * commands read or write. Enumerated columns (CHECK constraints) are datatypes.
 */
module Tables {
  import opened Prelude

  datatype OwnerState = OwnerActive | OwnerStopping | OwnerStopped

  datatype Runtime = Runtime(startedAt: string, heartbeatAt: string, state: OwnerState, fingerprint: string)

  datatype Task = Task(
    root: string, parent: Option<string>, fromAgent: string, toAgent: string, conversation: string,
    replyTo: Option<string>, text: string, priority: int, depth: int, hops: int,
    deadline: Option<string>, version: int)

  datatype Status = Queued | Dispatched | Running | Completed | Failed | TimedOut | Cancelled

  datatype EventKey = EventKey(task: string, index: int)

  datatype Event = Event(id: string, status: Status, timestamp: string, payload: string)

  datatype Delivery = Delivery(
    task: string, attempt: int, target: string, dispatchedAt: string, acknowledgedAt: Option<string>)

  datatype AdmissionState =
    | AdmissionReady | AdmissionEnqueued | AdmissionDispatching
    | AdmissionRunning | AdmissionTerminal | AdmissionRecovery

  datatype Admission = Admission(
    state: AdmissionState, revision: int, runtime: Option<string>, replyRoom: Option<string>,
    replyThreadRoot: Option<string>, replyEventId: Option<string>, monitorRoom: Option<string>,
    monitorGeneration: Option<int>, renderVersion: Option<string>, createdAt: string, updatedAt: string)

  datatype SessionState = SessionReady | SessionPrompting | SessionClosed

  datatype Session = Session(
    session: string, endpoint: string, conversation: string, cwd: string, backend: string, protocol: int,
    state: SessionState, createdAt: string, updatedAt: string, directories: string,
    compatibilityVersion: int, compatibilityHash: string)

  datatype DispositionState =
    DispositionPrepared | DispositionAcknowledged | DispositionUnknown | DispositionTerminal

  datatype Disposition = Disposition(
    task: string, attempt: int, state: DispositionState, session: Option<string>, child: Option<string>,
    reapStatus: Option<string>, reapAt: Option<string>, reason: Option<string>)

  datatype LeaseState = LeaseActive | LeaseReleased | LeaseRecovery

  datatype Lease = Lease(
    task: string, owner: string, fence: int, state: LeaseState,
    acquiredAt: string, heartbeatAt: string, expiresAt: string)

  datatype ContinuationState =
    ContinuationReady | ContinuationInFlight | ContinuationRecovery | ContinuationBlocked | ContinuationTerminal

  datatype Continuation = Continuation(
    resource: string, delivery: string, fence: int, revision: int, state: ContinuationState, nextTurn: int,
    completedTurns: int, noProgress: int, prompt: string, startedAt: string, heartbeatAt: string,
    lastProgressAt: string, outputBytes: int, generation: string, generationVersion: int)

  datatype Response = Response(
    task: string, delivery: string, resource: string, fence: int, revision: int, hash: string,
    outcome: string, outputBytes: int, generation: string, createdAt: string)

  datatype WorkState =
    | WorkQueued | WorkClaimed | WorkRunning | WorkPaused
    | WorkCompleted | WorkExpired | WorkSuperseded | WorkRecovery

  datatype Work = Work(
    task: string, delivery: string, state: WorkState, revision: int, owner: Option<string>,
    ownerFence: Option<int>, sendStarted: int, updatedAt: string)

  datatype Claim = Claim(owner: string, task: string, ownerFence: int, state: string, updatedAt: string)

  datatype Outbox = Outbox(
    kind: string, source: string, projection: string, state: string, claimOwner: Option<string>,
    claimRevision: Option<int>, updatedAt: string)

  /**
   * One database state. `sessions` and `outbox` have composite keys and are only ever read, so they
   * are kept as their rows in key order.
   */
  datatype Store = Store(
    runtimes: map<string, Runtime>,
    tasks: map<string, Task>,
    events: map<EventKey, Event>,
    deliveries: map<string, Delivery>,
    admissions: map<string, Admission>,
    sessions: seq<Session>,
    dispositions: map<string, Disposition>,
    leases: map<string, Lease>,
    continuations: map<string, Continuation>,
    responses: map<string, Response>,
    queue: map<string, Work>,
    claims: map<string, Claim>,
    outbox: seq<Outbox>)

  /** The foreign keys and CHECKs that the proofs use. */
  ghost predicate WellFormed(db: Store) {
    && (forall k :: k in db.events ==> k.task in db.tasks && k.index >= 1)
    && (forall d :: d in db.deliveries ==> db.deliveries[d].task in db.tasks && db.deliveries[d].attempt >= 1)
    && (forall d :: d in db.dispositions ==> d in db.deliveries)
    && (forall a :: a in db.admissions ==> a in db.tasks && db.admissions[a].revision >= 0)
    && (forall k :: k in db.leases ==> db.leases[k].task in db.tasks && db.leases[k].fence >= 1)
    && (forall k :: k in db.tasks ==> db.tasks[k].version >= 0)
  }

  // ------------------------------------------------------------ event logs

  predicate Terminal(status: Status) {
    status in {Completed, Failed, TimedOut, Cancelled}
  }

  predicate IsLast(m: EventKey, keys: set<EventKey>) {
    m in keys && forall k :: k in keys ==> k.index <= m.index
  }

  lemma {:induction false} LastExists(keys: set<EventKey>)
    requires keys != {}
    ensures exists m :: IsLast(m, keys)
    decreases |keys|
  {
    var x :| x in keys;
    if keys == {x} {
      assert IsLast(x, keys);
    } else {
      LastExists(keys - {x});
      var m :| IsLast(m, keys - {x});
      assert IsLast(if m.index < x.index then x else m, keys);
    }
  }

  function Last(keys: set<EventKey>, task: string): (m: EventKey)
    requires keys != {} && forall k :: k in keys ==> k.task == task
    ensures IsLast(m, keys)
  {
    LastExists(keys);
    var m :| IsLast(m, keys);
    m
  }

  /** `SELECT MAX(seq) FROM task_events WHERE task_id=?`. */
  function LatestSeq(events: map<EventKey, Event>, task: string): (r: Option<int>)
    ensures r.Some? ==> EventKey(task, r.value) in events
    ensures r.Some? ==> forall k :: k in events && k.task == task ==> k.index <= r.value
    ensures r.None? ==> forall k :: k in events ==> k.task != task
  {
    var keys := set k | k in events && k.task == task;
    assert forall k :: k in events && k.task == task ==> k in keys;
    if keys == {} then None else Some(Last(keys, task).index)
  }

  /** The event before `at`: the second row of `ORDER BY seq DESC LIMIT 2` when `at` is the latest. */
  function SeqBefore(events: map<EventKey, Event>, task: string, at: int): (r: Option<int>)
    ensures r.Some? ==> EventKey(task, r.value) in events && r.value < at
    ensures r.Some? ==> forall k :: k in events && k.task == task && k.index < at ==> k.index <= r.value
    ensures r.None? ==> forall k :: k in events && k.task == task ==> at <= k.index
  {
    var keys := set k | k in events && k.task == task && k.index < at;
    assert forall k :: k in events && k.task == task && k.index < at ==> k in keys;
    if keys == {} then None else Some(Last(keys, task).index)
  }

  lemma LatestIs(events: map<EventKey, Event>, task: string, at: int)
    requires EventKey(task, at) in events
    requires forall k :: k in events && k.task == task ==> k.index <= at
    ensures LatestSeq(events, task) == Some(at)
  {
  }

  /** Appending past the end of one log leaves every other log alone. */
  lemma LatestAfterAppend(events: map<EventKey, Event>, key: EventKey, e: Event, task: string)
    requires forall k :: k in events && k.task == key.task ==> k.index < key.index
    ensures LatestSeq(events[key := e], task) == if task == key.task then Some(key.index) else LatestSeq(events, task)
    ensures task == key.task ==> SeqBefore(events[key := e], task, key.index) == LatestSeq(events, task)
    ensures task != key.task ==> forall s :: SeqBefore(events[key := e], task, s) == SeqBefore(events, task, s)
  {
  }

  /** The latest event is terminal; every planner query tests this. */
  predicate Finished(events: map<EventKey, Event>, task: string) {
    var at := LatestSeq(events, task);
    at.Some? && Terminal(events[EventKey(task, at.value)].status)
  }

  lemma FinishedAfterAppend(events: map<EventKey, Event>, key: EventKey, e: Event, task: string)
    requires forall k :: k in events && k.task == key.task ==> k.index < key.index
    requires Terminal(e.status)
    ensures Finished(events[key := e], task) <==> Finished(events, task) || task == key.task
  {
  }

  /** The event-store law that the latest sequence number is one past the task version. */
  predicate Aligned(db: Store, task: string) {
    task in db.tasks && LatestSeq(db.events, task) == Some(db.tasks[task].version + 1)
  }

  predicate FreshEvent(events: map<EventKey, Event>, id: string) {
    forall k :: k in events ==> events[k].id != id
  }

  // ----------------------------------------------------------- row lookups

  predicate Live(r: Runtime) {
    r.state in {OwnerActive, OwnerStopping}
  }

  function LiveOwners(db: Store): set<string> {
    set k | k in db.runtimes && Live(db.runtimes[k])
  }

  /** The store in which the runtime `token` is recorded as stopped at `at`. */
  function OwnerStoppedAt(db: Store, token: string, at: string): Store
    requires token in db.runtimes
  {
    db.(runtimes := db.runtimes[token := db.runtimes[token].(state := OwnerStopped, heartbeatAt := at)])
  }

  function LeasesOf(db: Store, task: string): set<string> {
    set k | k in db.leases && db.leases[k].task == task
  }

  predicate HasWork(db: Store, task: string) {
    exists q :: q in db.queue && db.queue[q].task == task
  }

  predicate OpenWork(w: Work) {
    w.state !in {WorkCompleted, WorkExpired, WorkSuperseded}
  }

  /** The planner's three sets, as keys. */
  function Unfinished(db: Store): set<string> {
    set t | t in db.tasks && !Finished(db.events, t)
  }

  function Unacknowledged(db: Store): set<string> {
    set d | d in db.deliveries && db.deliveries[d].acknowledgedAt.None?
  }

  function Awaiting(db: Store): set<string> {
    set d | d in db.deliveries && db.deliveries[d].acknowledgedAt.Some? && !Finished(db.events, db.deliveries[d].task)
  }

  // --------------------------------------------------------- library calls

  datatype Payload = DispatchedTo(delivery: string, attempt: int) | FailedWith(error: string) | OtherPayload

  datatype Instant = Instant(nanoseconds: int)

  /** serde_json, chrono and uuid, which the model takes as parameters. */
  datatype Codec = Codec(
    decode: string -> Payload,
    encodeFailure: string -> string,
    parseTime: string -> Option<Instant>,
    formatTime: Instant -> string,
    canonicalTask: string -> Option<string>,
    canonicalJson: string -> Option<string>)

  ghost predicate Sound(codec: Codec) {
    && (forall e :: codec.decode(codec.encodeFailure(e)) == FailedWith(e))
    && (forall t :: codec.parseTime(codec.formatTime(t)) == Some(t))
  }
}
