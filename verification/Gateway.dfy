/** The gateway store: envelopes, their deliveries, and the guarded updates that the gateway runs on them. */
module Gateway {
  import opened Prelude
  import opened Tables

  const RETAINED_BYTES_HIGH: int := 64 * 1024 * 1024
  const MAX_ENVELOPE_BYTES: int := 512 * 1024

  datatype Direction = Inbound | Outbound

  datatype Phase = Pending | SendUnknown | TransportAcked | TaskAccepted | PhaseTerminal | Stale | RecoveryNeeded

  /** `DeliveryPhase::can_transition`. */
  predicate CanTransition(from: Phase, to: Phase) {
    match from
    case Pending => to in {SendUnknown, TransportAcked, Stale, RecoveryNeeded}
    case SendUnknown => to in {TransportAcked, RecoveryNeeded}
    case TransportAcked => to in {TaskAccepted, Stale, RecoveryNeeded}
    case TaskAccepted => to in {PhaseTerminal, Stale}
    case _ => false
  }

  datatype EnvelopeState =
    Received | AckedState | AcceptedState | RunningState | TerminalState | CancelRequested | StaleState | RecoveryState

  /** The key of the unique index on envelopes. */
  datatype IdempotencyKey = IdempotencyKey(peer: string, sender: string, direction: Direction, key: string)

  datatype Envelope = Envelope(
    idempotency: IdempotencyKey, correlation: string, task: Option<string>, canonical: string, payloadHash: string,
    state: EnvelopeState, retained: nat, cleanupOwner: Option<string>, cleanupRevision: nat,
    claimedAt: Option<string>, terminalAt: Option<string>)

  datatype DeliveryKey = DeliveryKey(envelope: string, direction: Direction)

  datatype GatewayDelivery = GatewayDelivery(
    phase: Phase, attempt: int, txn: Option<string>, eventId: Option<string>, room: string, threadRoot: Option<string>,
    owner: Option<string>, ownerRevision: nat)

  datatype State = State(db: Store, envelopes: map<string, Envelope>, deliveries: map<DeliveryKey, GatewayDelivery>)

  /** A presented envelope; `canonical` is its JSON and `size` the length of that in bytes. */
  datatype Message = Message(
    id: string, peer: string, senderPeer: string, key: string, fromEndpoint: string, toEndpoint: string, correlation: string,
    text: string, payloadHash: string, deadline: Option<string>, canonical: string, size: nat)

  datatype GatewayError = NotActive | Collision | SiblingCorruption | StoragePressure | StoreFailed

  // --------------------------------------------------------- retained bytes

  function Retained(envelopes: map<string, Envelope>): nat
    decreases |envelopes|
  {
    if envelopes == map[] then 0
    else
      PickExists(envelopes.Keys);
      var k :| IsPick(k, envelopes.Keys);
      envelopes[k].retained + Retained(envelopes - {k})
  }

  /** The least key, so that the sum is a function. */
  predicate IsPick(k: string, keys: set<string>) {
    k in keys && forall j :: j in keys && j != k ==> TextLess(k, j)
  }

  lemma PickExists(keys: set<string>)
    requires keys != {}
    ensures exists k :: k in keys && IsPick(k, keys)
    ensures forall j, k :: IsPick(j, keys) && IsPick(k, keys) ==> j == k
  {
    TextLessIsTotalOrder();
    LeastExists(keys, TextLess);
    var k :| k in keys && IsLeast(k, keys, TextLess);
    assert IsPick(k, keys);
  }

  // -------------------------------------------------------------- admission

  function KeyOf(m: Message, sender: string): IdempotencyKey {
    IdempotencyKey(m.peer, sender, Inbound, m.key)
  }

  function WithKey(envelopes: map<string, Envelope>, key: IdempotencyKey): set<string> {
    set e | e in envelopes && envelopes[e].idempotency == key
  }

  /** Where and by whom a message arrived. */
  datatype Arrival = Arrival(
    conversation: string, now: string, runtime: string, sender: string, eventId: string, room: string, threadRoot: Option<string>)

  predicate RuntimeActive(db: Store, token: string) {
    token in db.runtimes && db.runtimes[token].state == OwnerActive
  }

  /** The four sibling counts are all one. */
  predicate SiblingsComplete(g: State, m: Message, runtime: string) {
    && DeliveryKey(m.id, Inbound) in g.deliveries && g.deliveries[DeliveryKey(m.id, Inbound)].eventId.Some?
    && m.correlation in g.db.tasks && g.db.tasks[m.correlation].root == m.correlation
    && EventKey(m.correlation, 1) in g.db.events
    && g.db.events[EventKey(m.correlation, 1)].status == Queued && g.db.events[EventKey(m.correlation, 1)].id == m.id
    && m.correlation in g.db.admissions && g.db.admissions[m.correlation].state in {AdmissionReady, AdmissionEnqueued}
    && g.db.admissions[m.correlation].runtime == Some(runtime)
  }

  /** The primary keys of the task, event and admission rows accept them. */
  predicate TaskRowsFit(g: State, m: Message) {
    m.correlation !in g.db.tasks && EventKey(m.correlation, 1) !in g.db.events && FreshEvent(g.db.events, m.id)
    && m.correlation !in g.db.admissions
  }

  /** The primary keys and CHECKs of the envelope and delivery rows accept them. */
  predicate EnvelopeRowsFit(g: State, m: Message) {
    m.id !in g.envelopes && DeliveryKey(m.id, Inbound) !in g.deliveries && m.size <= MAX_ENVELOPE_BYTES && |m.payloadHash| == 64
  }

  function NewEnvelope(key: IdempotencyKey, m: Message, task: Option<string>): Envelope {
    Envelope(key, m.correlation, task, m.canonical, m.payloadHash, Received, m.size, None, 0, None, None)
  }

  /** The store with the five sibling rows of a new message. */
  function Admitted(g: State, m: Message, a: Arrival): State {
    var t := m.correlation;
    var task := Task(t, None, m.fromEndpoint, m.toEndpoint, a.conversation, None, m.text, 5, 0, 0, m.deadline, 0);
    var admission := Admission(AdmissionReady, 0, Some(a.runtime), None, None, None, None, None, None, a.now, a.now);
    State(
      g.db.(tasks := g.db.tasks[t := task],
            events := g.db.events[EventKey(t, 1) := Event(m.id, Queued, a.now, "\"queued\"")],
            admissions := g.db.admissions[t := admission]),
      g.envelopes[m.id := NewEnvelope(KeyOf(m, a.sender), m, Some(t))],
      g.deliveries[DeliveryKey(m.id, Inbound) :=
        GatewayDelivery(TransportAcked, 0, None, Some(a.eventId), a.room, a.threadRoot, None, 0)])
  }

  datatype Winner = Inserted(task: string) | Replay(task: string)

  /** `admit_task_ready`: the winner and the store to commit. */
  function Admit(g: State, m: Message, a: Arrival): Result<(Winner, State), GatewayError> {
    if !RuntimeActive(g.db, a.runtime) then
      Err(NotActive)
    else if WithKey(g.envelopes, KeyOf(m, a.sender)) != {} then
      Again(g, m, a)
    else if !TaskRowsFit(g, m) then
      Err(StoreFailed)
    else if Retained(g.envelopes) + m.size >= RETAINED_BYTES_HIGH then
      Err(StoragePressure)
    else if !EnvelopeRowsFit(g, m) then
      Err(StoreFailed)
    else
      Ok((Inserted(m.correlation), Admitted(g, m, a)))
  }

  /** The branch for a key that is already there. The unique index leaves one row to look at. */
  function Again(g: State, m: Message, a: Arrival): Result<(Winner, State), GatewayError> {
    var rows := WithKey(g.envelopes, KeyOf(m, a.sender));
    if exists e :: e in rows && g.envelopes[e].task.None? then
      Err(StoreFailed)
    else if exists e :: e in rows && (g.envelopes[e].task != Some(m.correlation) || g.envelopes[e].payloadHash != m.payloadHash) then
      Err(Collision)
    else if !SiblingsComplete(g, m, a.runtime) then
      Err(SiblingCorruption)
    else
      Ok((Replay(m.correlation), g))
  }

  predicate Swappable(rows: map<string, Admission>, task: string, runtime: string, revision: int, from: AdmissionState) {
    task in rows && rows[task].state == from && rows[task].runtime == Some(runtime) && rows[task].revision == revision
  }

  /** `enqueue_ready` and `restore_ready`, which differ only in the two states. */
  function Swap(g: State, task: string, runtime: string, revision: int, from: AdmissionState, to: AdmissionState, now: string): Option<State> {
    if Swappable(g.db.admissions, task, runtime, revision, from) then
      var a := g.db.admissions[task];
      Some(g.(db := g.db.(admissions := g.db.admissions[task := a.(state := to, revision := a.revision + 1, updatedAt := now)])))
    else
      None
  }

  // --------------------------------------------------------------- outbound

  /** `reserve_outbound`: whether a row was inserted and the store to commit. No byte ceiling applies here. */
  function Reserve(g: State, m: Message, room: string, threadRoot: Option<string>, txn: string, owner: string): Result<(bool, State), GatewayError> {
    var key := IdempotencyKey(m.peer, m.senderPeer, Outbound, m.key);
    var at := DeliveryKey(m.id, Outbound);
    if m.id !in g.envelopes && WithKey(g.envelopes, key) == {} && m.size <= MAX_ENVELOPE_BYTES && |m.payloadHash| == 64 then
      if at in g.deliveries then Err(StoreFailed)
      else Ok((true, g.(
        envelopes := g.envelopes[m.id := NewEnvelope(key, m, None)],
        deliveries := g.deliveries[at := GatewayDelivery(Pending, 0, Some(txn), None, room, threadRoot, Some(owner), 0)])))
    else if && m.id in g.envelopes && g.envelopes[m.id].canonical == m.canonical
            && at in g.deliveries && g.deliveries[at].txn == Some(txn) && g.deliveries[at].room == room
    then Ok((false, g))
    else Err(Collision)
  }

  predicate Owned(row: GatewayDelivery, owner: string, revision: nat) {
    row.owner == Some(owner) && row.ownerRevision == revision
  }

  /** `begin_outbound_attempt` on the row; `None` when the guard refuses. */
  function BeginAttempt(row: GatewayDelivery, owner: string, revision: nat, expected: Phase): Option<GatewayDelivery> {
    if Owned(row, owner, revision) && row.phase == expected && row.attempt < 2 then
      Some(row.(attempt := row.attempt + 1, ownerRevision := row.ownerRevision + 1))
    else
      None
  }

  /** The two CHECKs that tie an outbound row's event id to its phase. */
  predicate EventFitsPhase(row: GatewayDelivery) {
    && (row.eventId.Some? ==> row.phase in {TransportAcked, TaskAccepted, PhaseTerminal, Stale})
    && (row.phase in {Pending, SendUnknown, RecoveryNeeded} || row.eventId.Some?)
  }

  /** `finish_outbound` on the row. */
  function FinishAttempt(row: GatewayDelivery, owner: string, revision: nat, phase: Phase, eventId: Option<string>): Result<Option<GatewayDelivery>, GatewayError> {
    if !Owned(row, owner, revision) then Ok(None)
    else
      var next := row.(phase := phase, eventId := if eventId.Some? then eventId else row.eventId, ownerRevision := row.ownerRevision + 1);
      if EventFitsPhase(next) then Ok(Some(next)) else Err(StoreFailed)
  }

  /** The row a finishing update left, as `FinishAttempt` reports it. */
  ghost function Reported(r: Result<bool, GatewayError>, rows: map<DeliveryKey, GatewayDelivery>, at: DeliveryKey)
    : Result<Option<GatewayDelivery>, GatewayError>
    requires at in rows
  {
    if r.Err? then Err(r.error) else Ok(if r.value then Some(rows[at]) else None)
  }

  // ---------------------------------------------------------------- cleanup

  /** `datetime(now, '-7 days')` and `datetime(now, '-900 seconds')`. */
  datatype Clock = Clock(now: string, weekAgo: string, graceAgo: string)

  predicate Over(e: Envelope, clock: Clock) {
    e.state in {TerminalState, StaleState} && e.terminalAt.Some? && TextAtMost(e.terminalAt.value, clock.weekAgo)
  }

  /** Nobody else's live claim stands in the way. */
  predicate Free(db: Store, e: Envelope, owner: string, clock: Clock) {
    || e.cleanupOwner.None? || e.cleanupOwner == Some(owner)
    || (e.claimedAt.Some? && TextAtMost(e.claimedAt.value, clock.graceAgo)
        && e.cleanupOwner.value in db.runtimes && db.runtimes[e.cleanupOwner.value].state == OwnerStopped)
  }

  function Claimable(g: State, owner: string, clock: Clock): set<string> {
    set e | e in g.envelopes && Over(g.envelopes[e], clock) && Free(g.db, g.envelopes[e], owner, clock)
  }

  function ClaimedRow(e: Envelope, owner: string, clock: Clock): Envelope {
    e.(cleanupOwner := Some(owner), cleanupRevision := e.cleanupRevision + 1, claimedAt := Some(clock.now))
  }

  /** `claim_cleanup`; `LIMIT` picks `chosen` from the claimable rows, in no stated order. */
  function ClaimRows(g: State, owner: string, clock: Clock, chosen: set<string>): State {
    var rows := chosen * Claimable(g, owner, clock);
    g.(envelopes := map e | e in g.envelopes ::
         if e in rows then ClaimedRow(g.envelopes[e], owner, clock) else g.envelopes[e])
  }

  predicate DeliveriesSettled(g: State, id: string) {
    forall k :: k in g.deliveries && k.envelope == id ==> g.deliveries[k].phase in {PhaseTerminal, Stale, RecoveryNeeded}
  }

  predicate Deletable(g: State, id: string, owner: string, revision: int, clock: Clock) {
    && id in g.envelopes
    && var e := g.envelopes[id];
    && e.cleanupOwner == Some(owner) && e.cleanupRevision == revision && Over(e, clock)
    && DeliveriesSettled(g, id)
    && (e.task.None? || Finished(g.db.events, e.task.value))
  }

  /** The envelope and, by cascade, its deliveries. */
  function Without(g: State, id: string): State {
    g.(envelopes := g.envelopes - {id}, deliveries := map k | k in g.deliveries && k.envelope != id :: g.deliveries[k])
  }

  /** `delete_cleanup`. */
  function Delete(g: State, id: string, owner: string, revision: int, clock: Clock): (bool, State) {
    if Deletable(g, id, owner, revision, clock) then (true, Without(g, id)) else (false, g)
  }

  // ---------------------------------------------------- the imperative form

  /** `GatewayStore`: each method is one transaction on the shared state. */
  class GatewayStore {
    var g: State

    constructor (start: State)
      ensures g == start
    {
      g := start;
    }

    method AdmitTaskReady(m: Message, a: Arrival) returns (r: Result<Winner, GatewayError>)
      modifies this
      ensures r.Ok? <==> Admit(old(g), m, a).Ok?
      ensures r.Ok? ==> (r.value, g) == Admit(old(g), m, a).value
      ensures r.Err? ==> r.error == Admit(old(g), m, a).error && g == old(g)
    {
      if !RuntimeActive(g.db, a.runtime) {
        return Err(NotActive);
      }
      if WithKey(g.envelopes, KeyOf(m, a.sender)) != {} {
        var again := Again(g, m, a);
        match again
        case Ok(found) => return Ok(found.0);
        case Err(e) => return Err(e);
      }
      if !TaskRowsFit(g, m) {
        return Err(StoreFailed);
      }
      var retained := Retained(g.envelopes);
      if retained + m.size >= RETAINED_BYTES_HIGH {
        return Err(StoragePressure);
      }
      if !EnvelopeRowsFit(g, m) {
        return Err(StoreFailed);
      }
      g := Admitted(g, m, a);
      return Ok(Inserted(m.correlation));
    }

    /** Takes a ready admission of this runtime at this revision to enqueued; any other admission is left alone. */
    method EnqueueReady(task: string, runtime: string, revision: int, now: string) returns (ok: bool)
      modifies this
      ensures ok <==> Swappable(old(g).db.admissions, task, runtime, revision, AdmissionReady)
      ensures ok ==> g == old(g).(db := old(g).db.(admissions := old(g).db.admissions[task :=
        old(g).db.admissions[task].(state := AdmissionEnqueued, revision := revision + 1, updatedAt := now)]))
      ensures !ok ==> g == old(g)
      ensures ok ==> Swap(old(g), task, runtime, revision, AdmissionReady, AdmissionEnqueued, now) == Some(g)
    {
      var rows := g.db.admissions;
      ok := task in rows && rows[task].state == AdmissionReady && rows[task].runtime == Some(runtime) && rows[task].revision == revision;
      if ok {
        var row := rows[task].(state := AdmissionEnqueued, revision := rows[task].revision + 1, updatedAt := now);
        g := g.(db := g.db.(admissions := rows[task := row]));
      }
    }

    /** The way back, for an enqueued admission. */
    method RestoreReady(task: string, runtime: string, revision: int, now: string) returns (ok: bool)
      modifies this
      ensures ok <==> Swappable(old(g).db.admissions, task, runtime, revision, AdmissionEnqueued)
      ensures ok ==> g == old(g).(db := old(g).db.(admissions := old(g).db.admissions[task :=
        old(g).db.admissions[task].(state := AdmissionReady, revision := revision + 1, updatedAt := now)]))
      ensures !ok ==> g == old(g)
      ensures ok ==> Swap(old(g), task, runtime, revision, AdmissionEnqueued, AdmissionReady, now) == Some(g)
    {
      var rows := g.db.admissions;
      ok := task in rows && rows[task].state == AdmissionEnqueued && rows[task].runtime == Some(runtime) && rows[task].revision == revision;
      if ok {
        var row := rows[task].(state := AdmissionReady, revision := rows[task].revision + 1, updatedAt := now);
        g := g.(db := g.db.(admissions := rows[task := row]));
      }
    }

    /**
     * Either both rows are new and now there, in phase pending and unattempted; or the same envelope, transaction id
     * and room were already reserved; or nothing happens.
     */
    method ReserveOutbound(m: Message, room: string, threadRoot: Option<string>, txn: string, owner: string)
      returns (r: Result<bool, GatewayError>)
      modifies this
      ensures var at := DeliveryKey(m.id, Outbound);
        && (r.Ok? && r.value ==>
              && m.id !in old(g).envelopes && at !in old(g).deliveries
              && m.id in g.envelopes && g.envelopes[m.id].canonical == m.canonical && g.envelopes[m.id].retained == m.size
              && at in g.deliveries && g.deliveries[at].phase == Pending && g.deliveries[at].attempt == 0
              && g.deliveries[at].txn == Some(txn) && Owned(g.deliveries[at], owner, 0)
              && g == old(g).(envelopes := old(g).envelopes[m.id := g.envelopes[m.id]], deliveries := old(g).deliveries[at := g.deliveries[at]]))
        && (r.Ok? && !r.value ==>
              && g == old(g) && m.id in g.envelopes && g.envelopes[m.id].canonical == m.canonical
              && at in g.deliveries && g.deliveries[at].txn == Some(txn) && g.deliveries[at].room == room)
        && (r.Err? ==> g == old(g))
      ensures Reserve(old(g), m, room, threadRoot, txn, owner) == if r.Ok? then Ok((r.value, g)) else Err(r.error)
    {
      var key := IdempotencyKey(m.peer, m.senderPeer, Outbound, m.key);
      var at := DeliveryKey(m.id, Outbound);
      var inserted := m.id !in g.envelopes && WithKey(g.envelopes, key) == {} && m.size <= MAX_ENVELOPE_BYTES && |m.payloadHash| == 64;
      if inserted {
        if at in g.deliveries {
          return Err(StoreFailed);
        }
        var envelope := Envelope(key, m.correlation, None, m.canonical, m.payloadHash, Received, m.size, None, 0, None, None);
        var row := GatewayDelivery(Pending, 0, Some(txn), None, room, threadRoot, Some(owner), 0);
        g := g.(envelopes := g.envelopes[m.id := envelope], deliveries := g.deliveries[at := row]);
      } else {
        var valid := m.id in g.envelopes && g.envelopes[m.id].canonical == m.canonical
          && at in g.deliveries && g.deliveries[at].txn == Some(txn) && g.deliveries[at].room == room;
        if !valid {
          return Err(Collision);
        }
      }
      return Ok(inserted);
    }

    /** `outbound_state`: the row, if it belongs to `owner`. */
    method OutboundState(id: string, owner: string) returns (r: Option<GatewayDelivery>)
      ensures r.Some? <==> DeliveryKey(id, Outbound) in g.deliveries && g.deliveries[DeliveryKey(id, Outbound)].owner == Some(owner)
      ensures r.Some? ==> r.value == g.deliveries[DeliveryKey(id, Outbound)]
    {
      var at := DeliveryKey(id, Outbound);
      if at in g.deliveries && g.deliveries[at].owner == Some(owner) {
        return Some(g.deliveries[at]);
      }
      return None;
    }

    /** Counts one more attempt, at most the second, if the row is still as the caller read it. */
    method BeginOutboundAttempt(id: string, owner: string, revision: nat, expected: Phase) returns (ok: bool)
      modifies this
      ensures var at := DeliveryKey(id, Outbound);
        && (ok <==> at in old(g).deliveries && Owned(old(g).deliveries[at], owner, revision)
                    && old(g).deliveries[at].phase == expected && old(g).deliveries[at].attempt < 2)
        && (ok ==> g == old(g).(deliveries := old(g).deliveries[at := old(g).deliveries[at].(
              attempt := old(g).deliveries[at].attempt + 1, ownerRevision := revision + 1)]))
        && (!ok ==> g == old(g))
        && (at in old(g).deliveries && ok ==> BeginAttempt(old(g).deliveries[at], owner, revision, expected) == Some(g.deliveries[at]))
    {
      var at := DeliveryKey(id, Outbound);
      ok := false;
      if at in g.deliveries {
        var row := g.deliveries[at];
        ok := row.owner == Some(owner) && row.ownerRevision == revision && row.phase == expected && row.attempt < 2;
        if ok {
          g := g.(deliveries := g.deliveries[at := row.(attempt := row.attempt + 1, ownerRevision := row.ownerRevision + 1)]);
        }
      }
    }

    /** Settles an attempt under its revision; an event id, once known, is kept. */
    method FinishOutbound(id: string, owner: string, revision: nat, phase: Phase, eventId: Option<string>) returns (r: Result<bool, GatewayError>)
      modifies this
      ensures var at := DeliveryKey(id, Outbound);
        && (r.Ok? && r.value ==>
              && at in old(g).deliveries && Owned(old(g).deliveries[at], owner, revision)
              && g == old(g).(deliveries := old(g).deliveries[at := old(g).deliveries[at].(
                   phase := phase, eventId := if eventId.Some? then eventId else old(g).deliveries[at].eventId, ownerRevision := revision + 1)])
              && EventFitsPhase(g.deliveries[at]))
        && (!(r.Ok? && r.value) ==> g == old(g))
        && (r.Ok? && !r.value <==> at !in old(g).deliveries || !Owned(old(g).deliveries[at], owner, revision))
        && (at in old(g).deliveries ==> FinishAttempt(old(g).deliveries[at], owner, revision, phase, eventId) == Reported(r, g.deliveries, at))
    {
      var at := DeliveryKey(id, Outbound);
      if at !in g.deliveries || g.deliveries[at].owner != Some(owner) || g.deliveries[at].ownerRevision != revision {
        return Ok(false);
      }
      var row := g.deliveries[at];
      row := row.(phase := phase, eventId := if eventId.Some? then eventId else row.eventId, ownerRevision := row.ownerRevision + 1);
      if row.eventId.Some? && row.phase !in {TransportAcked, TaskAccepted, PhaseTerminal, Stale} {
        return Err(StoreFailed);
      }
      if row.eventId.None? && row.phase !in {Pending, SendUnknown, RecoveryNeeded} {
        return Err(StoreFailed);
      }
      g := g.(deliveries := g.deliveries[at := row]);
      return Ok(true);
    }

    /** Deletes an envelope that its claimant may delete, with its deliveries and nothing else; or nothing at all. */
    method DeleteCleanup(id: string, owner: string, revision: int, clock: Clock) returns (ok: bool)
      modifies this
      ensures (ok, g) == Delete(old(g), id, owner, revision, clock)
      ensures ok ==> id !in g.envelopes && forall k :: k in g.deliveries ==> k.envelope != id
      ensures g.db == old(g).db && forall e :: e in old(g).envelopes && e != id ==> e in g.envelopes && g.envelopes[e] == old(g).envelopes[e]
      ensures forall k :: k in old(g).deliveries && k.envelope != id ==> k in g.deliveries && g.deliveries[k] == old(g).deliveries[k]
    {
      if id !in g.envelopes {
        return false;
      }
      var e := g.envelopes[id];
      if e.cleanupOwner != Some(owner) || e.cleanupRevision != revision || !Over(e, clock) {
        return false;
      }
      if exists k :: k in g.deliveries && k.envelope == id && g.deliveries[k].phase !in {PhaseTerminal, Stale, RecoveryNeeded} {
        return false;
      }
      if e.task.Some? && !Finished(g.db.events, e.task.value) {
        return false;
      }
      var kept := map k | k in g.deliveries && k.envelope != id :: g.deliveries[k];
      g := g.(envelopes := g.envelopes - {id}, deliveries := kept);
      return true;
    }

    /** `drain_cleanup`: one claim, then a delete for each claimed row that the read returned. */
    method DrainCleanup(owner: string, clock: Clock, chosen: set<string>, rows: seq<(string, int)>) returns (deleted: nat)
      modifies this
      ensures (deleted, g) == DeleteAll(ClaimRows(old(g), owner, clock, chosen), owner, clock, rows)
    {
      g := ClaimRows(g, owner, clock, chosen);
      ghost var start := g;
      deleted := 0;
      assert rows[0..] == rows;
      for i := 0 to |rows|
        invariant Plus(deleted, DeleteAll(g, owner, clock, rows[i..])) == DeleteAll(start, owner, clock, rows)
      {
        assert rows[i..][0] == rows[i] && rows[i..][1..] == rows[i + 1..];
        var ok := DeleteCleanup(rows[i].0, owner, rows[i].1, clock);
        if ok { deleted := deleted + 1; }
      }
    }
  }

  ghost function Plus(n: nat, r: (nat, State)): (nat, State) {
    (n + r.0, r.1)
  }

  function DeleteAll(g: State, owner: string, clock: Clock, rows: seq<(string, int)>): (nat, State)
    decreases rows
  {
    if rows == [] then (0, g)
    else
      var (ok, next) := Delete(g, rows[0].0, owner, rows[0].1, clock);
      var rest := DeleteAll(next, owner, clock, rows[1..]);
      ((if ok then 1 else 0) + rest.0, rest.1)
  }
}
