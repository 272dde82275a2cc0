/** What the gateway's statements select and write, row by row: admission, claims, deletes and phases. */
module GatewaySql {
  import opened Prelude
  import opened Tables
  import opened Sql
  import opened Rows
  import opened Gateway

  // -------------------------------------------------------------- admission

  ghost function SameKey(m: Message, a: Arrival): (string, Envelope) -> bool {
    (k: string, e: Envelope) =>
      e.idempotency.peer == m.peer && e.idempotency.sender == a.sender && e.idempotency.direction == Inbound && e.idempotency.key == m.key
  }

  /** The four sibling counts: delivery with an event id, root task, queued first event of this id, open admission of this runtime. */
  ghost predicate SiblingRows(g: State, m: Message, a: Arrival) {
    var t := m.correlation;
    && DeliveryKey(m.id, Inbound) in g.deliveries && g.deliveries[DeliveryKey(m.id, Inbound)].eventId != None
    && t in g.db.tasks && g.db.tasks[t].root == t
    && EventKey(t, 1) in g.db.events && g.db.events[EventKey(t, 1)].status == Queued && g.db.events[EventKey(t, 1)].id == m.id
    && t in g.db.admissions && (g.db.admissions[t].state == AdmissionReady || g.db.admissions[t].state == AdmissionEnqueued)
    && g.db.admissions[t].runtime == Some(a.runtime)
  }

  /** The task, its queued event and its admission can be inserted. */
  ghost predicate TaskIsNew(g: State, m: Message) {
    && m.correlation !in g.db.tasks && m.correlation !in g.db.admissions && EventKey(m.correlation, 1) !in g.db.events
    && forall k :: k in g.db.events ==> g.db.events[k].id != m.id
  }

  ghost predicate EnvelopeIsNew(g: State, m: Message) {
    && m.id !in g.envelopes && DeliveryKey(m.id, Inbound) !in g.deliveries
    && m.size <= 524288 && |m.payloadHash| == 64
  }

  /** The five rows of a new message, column by column. */
  ghost predicate FiveRows(g: State, h: State, m: Message, a: Arrival) {
    var t := m.correlation;
    && h.db == g.db.(tasks := h.db.tasks, events := h.db.events, admissions := h.db.admissions)
    && h.db.tasks == g.db.tasks[t := Task(t, None, m.fromEndpoint, m.toEndpoint, a.conversation, None, m.text, 5, 0, 0, m.deadline, 0)]
    && EventKey(t, 1) in h.db.events && h.db.events == g.db.events[EventKey(t, 1) := h.db.events[EventKey(t, 1)]]
    && h.db.events[EventKey(t, 1)].id == m.id && h.db.events[EventKey(t, 1)].status == Queued && h.db.events[EventKey(t, 1)].timestamp == a.now
    && h.db.events[EventKey(t, 1)].payload == "\"queued\""
    && h.db.admissions == g.db.admissions[t := Admission(AdmissionReady, 0, Some(a.runtime), None, None, None, None, None, None, a.now, a.now)]
    && h.envelopes == g.envelopes[m.id := Envelope(IdempotencyKey(m.peer, a.sender, Inbound, m.key), t, Some(t), m.canonical, m.payloadHash,
                                                   Received, m.size, None, 0, None, None)]
    && h.deliveries == g.deliveries[DeliveryKey(m.id, Inbound) := GatewayDelivery(TransportAcked, 0, None, Some(a.eventId), a.room, a.threadRoot, None, 0)]
  }

  lemma KeyExactly(g: State, m: Message, a: Arrival)
    ensures WithKey(g.envelopes, KeyOf(m, a.sender)) == Where(g.envelopes, SameKey(m, a))
  {
  }

  /** The answer when the key is there: the stored task and payload must agree and the siblings be complete. */
  ghost function KnownKey(g: State, m: Message, a: Arrival): Result<(Winner, State), GatewayError> {
    if exists e :: e in g.envelopes && SameKey(m, a)(e, g.envelopes[e]) && g.envelopes[e].task == None then Err(StoreFailed)
    else if exists e :: e in g.envelopes && SameKey(m, a)(e, g.envelopes[e]) && (g.envelopes[e].task != Some(m.correlation) || g.envelopes[e].payloadHash != m.payloadHash)
    then Err(Collision)
    else if !SiblingRows(g, m, a) then Err(SiblingCorruption)
    else Ok((Replay(m.correlation), g))
  }

  lemma AgainExactly(g: State, m: Message, a: Arrival)
    ensures Again(g, m, a) == KnownKey(g, m, a)
  {
    KeyExactly(g, m, a);
    var rows := WithKey(g.envelopes, KeyOf(m, a.sender));
    assert forall e :: e in rows <==> e in g.envelopes && SameKey(m, a)(e, g.envelopes[e]);
    hide WithKey, SameKey;
    assert SiblingsComplete(g, m, a.runtime) <==> SiblingRows(g, m, a);
  }

  /** `admit_task_ready` for every message and state. */
  lemma AdmitExactly(g: State, m: Message, a: Arrival)
    ensures !(a.runtime in g.db.runtimes && g.db.runtimes[a.runtime].state == OwnerActive) ==> Admit(g, m, a) == Err(NotActive)
    ensures a.runtime in g.db.runtimes && g.db.runtimes[a.runtime].state == OwnerActive && Count(g.envelopes, SameKey(m, a)) != 0 ==>
      Admit(g, m, a) == KnownKey(g, m, a)
    ensures a.runtime in g.db.runtimes && g.db.runtimes[a.runtime].state == OwnerActive && Count(g.envelopes, SameKey(m, a)) == 0 ==>
      && (!TaskIsNew(g, m) ==> Admit(g, m, a) == Err(StoreFailed))
      && (TaskIsNew(g, m) && Retained(g.envelopes) + m.size >= 67108864 ==> Admit(g, m, a) == Err(StoragePressure))
      && (TaskIsNew(g, m) && Retained(g.envelopes) + m.size < 67108864 && !EnvelopeIsNew(g, m) ==> Admit(g, m, a) == Err(StoreFailed))
      && (TaskIsNew(g, m) && Retained(g.envelopes) + m.size < 67108864 && EnvelopeIsNew(g, m) ==>
            Admit(g, m, a).Ok? && Admit(g, m, a).value.0 == Inserted(m.correlation) && FiveRows(g, Admit(g, m, a).value.1, m, a))
  {
    hide Retained, Again, KnownKey, WithKey, SameKey;
    KeyExactly(g, m, a);
    AgainExactly(g, m, a);
  }

  ghost function SwapWhere(task: string, runtime: string, revision: int, from: AdmissionState): (string, Admission) -> bool {
    (k: string, a: Admission) => k == task && a.state == from && a.revision == revision && a.runtime == Some(runtime)
  }

  ghost function SwapSet(to: AdmissionState, now: string): Admission -> Admission {
    (a: Admission) => a.(state := to, revision := a.revision + 1, updatedAt := now)
  }

  /** `enqueue_ready` and `restore_ready` as the statements they are. */
  lemma SwapExactly(g: State, task: string, runtime: string, revision: int, from: AdmissionState, to: AdmissionState, now: string)
    ensures Swap(g, task, runtime, revision, from, to, now) ==
      if Count(g.db.admissions, SwapWhere(task, runtime, revision, from)) != 1 then None
      else Some(g.(db := g.db.(admissions := Update(g.db.admissions, SwapWhere(task, runtime, revision, from), SwapSet(to, now)))))
  {
    ByKey(g.db.admissions, SwapWhere(task, runtime, revision, from), SwapSet(to, now), task);
  }

  // --------------------------------------------------------------- outbound

  ghost predicate ReservationIsNew(g: State, m: Message) {
    && m.id !in g.envelopes && m.size <= 524288 && |m.payloadHash| == 64
    && forall e :: e in g.envelopes ==>
         g.envelopes[e].idempotency != IdempotencyKey(m.peer, m.senderPeer, Outbound, m.key)
  }

  /** The envelope and the delivery row of a reservation, column by column. */
  ghost function ReservedRows(g: State, m: Message, room: string, threadRoot: Option<string>, txn: string, owner: string): State {
    State(g.db,
      g.envelopes[m.id := Envelope(IdempotencyKey(m.peer, m.senderPeer, Outbound, m.key), m.correlation, None, m.canonical, m.payloadHash,
                                   Received, m.size, None, 0, None, None)],
      g.deliveries[DeliveryKey(m.id, Outbound) := GatewayDelivery(Pending, 0, Some(txn), None, room, threadRoot, Some(owner), 0)])
  }

  ghost predicate SameReservation(g: State, m: Message, room: string, txn: string) {
    && m.id in g.envelopes && g.envelopes[m.id].canonical == m.canonical
    && DeliveryKey(m.id, Outbound) in g.deliveries
    && g.deliveries[DeliveryKey(m.id, Outbound)].txn == Some(txn) && g.deliveries[DeliveryKey(m.id, Outbound)].room == room
  }

  /** `reserve_outbound` for every message and state. */
  lemma ReserveExactly(g: State, m: Message, room: string, threadRoot: Option<string>, txn: string, owner: string)
    ensures Reserve(g, m, room, threadRoot, txn, owner) ==
      if ReservationIsNew(g, m) then
        if DeliveryKey(m.id, Outbound) in g.deliveries then Err(StoreFailed)
        else Ok((true, ReservedRows(g, m, room, threadRoot, txn, owner)))
      else if SameReservation(g, m, room, txn) then Ok((false, g))
      else Err(Collision)
  {
    var key := IdempotencyKey(m.peer, m.senderPeer, Outbound, m.key);
    assert WithKey(g.envelopes, key) == {} <==> forall e :: e in g.envelopes ==> g.envelopes[e].idempotency != key by {
      assert forall e :: e in WithKey(g.envelopes, key) <==> e in g.envelopes && g.envelopes[e].idempotency == key;
    }
  }

  /** `begin_outbound_attempt` and `finish_outbound` on the row they find. */
  lemma AttemptsExactly(row: GatewayDelivery, owner: string, revision: nat, phase: Phase, eventId: Option<string>)
    ensures BeginAttempt(row, owner, revision, phase) ==
      if row.owner == Some(owner) && row.ownerRevision == revision && row.phase == phase && row.attempt <= 1
      then Some(row.(attempt := row.attempt + 1, ownerRevision := revision + 1)) else None
    ensures FinishAttempt(row, owner, revision, phase, eventId) ==
      if !(row.owner == Some(owner) && row.ownerRevision == revision) then Ok(None)
      else
        var next := row.(phase := phase, eventId := if eventId == None then row.eventId else eventId, ownerRevision := revision + 1);
        if next.eventId != None <==> phase in {TransportAcked, TaskAccepted, PhaseTerminal, Stale} then Ok(Some(next)) else Err(StoreFailed)
  {
    EventIdExactly(row.(phase := phase, eventId := if eventId == None then row.eventId else eventId, ownerRevision := revision + 1));
  }

  // ---------------------------------------------------------------- cleanup

  /** Ended at least a week ago, and unclaimed, one's own, or claimed by a stopped runtime and left for the grace period. */
  ghost function ClaimWhere(g: State, owner: string, clock: Clock): (string, Envelope) -> bool {
    (k: string, e: Envelope) =>
      && (e.state == TerminalState || e.state == StaleState) && e.terminalAt != None && !TextLess(clock.weekAgo, e.terminalAt.value)
      && (e.cleanupOwner == None || e.cleanupOwner == Some(owner)
          || (e.claimedAt != None && !TextLess(clock.graceAgo, e.claimedAt.value)
              && e.cleanupOwner.value in g.db.runtimes && g.db.runtimes[e.cleanupOwner.value].state == OwnerStopped))
  }

  ghost function ClaimedBy(e: Envelope, owner: string, now: string): Envelope {
    e.(cleanupOwner := Some(owner), cleanupRevision := e.cleanupRevision + 1, claimedAt := Some(now))
  }

  /** `claim_cleanup`: the rows that LIMIT picks among those, and nothing else. */
  lemma ClaimExactly(g: State, owner: string, clock: Clock, chosen: set<string>)
    ensures Claimable(g, owner, clock) == Where(g.envelopes, ClaimWhere(g, owner, clock))
    ensures var h := ClaimRows(g, owner, clock, chosen);
      && h == g.(envelopes := h.envelopes) && h.envelopes.Keys == g.envelopes.Keys
      && (forall e :: e in g.envelopes && e in chosen && ClaimWhere(g, owner, clock)(e, g.envelopes[e]) ==>
            h.envelopes[e] == ClaimedBy(g.envelopes[e], owner, clock.now))
      && (forall e :: e in g.envelopes && !(e in chosen && ClaimWhere(g, owner, clock)(e, g.envelopes[e])) ==> h.envelopes[e] == g.envelopes[e])
  {
  }

  /** Every condition of the delete. */
  ghost predicate DeleteRows(g: State, id: string, owner: string, revision: int, clock: Clock) {
    && id in g.envelopes
    && g.envelopes[id].cleanupOwner == Some(owner) && g.envelopes[id].cleanupRevision == revision
    && (g.envelopes[id].state == TerminalState || g.envelopes[id].state == StaleState)
    && g.envelopes[id].terminalAt != None && !TextLess(clock.weekAgo, g.envelopes[id].terminalAt.value)
    && (forall k :: k in g.deliveries && k.envelope == id ==>
          g.deliveries[k].phase == PhaseTerminal || g.deliveries[k].phase == Stale || g.deliveries[k].phase == RecoveryNeeded)
    && (g.envelopes[id].task == None || TaskEnded(g.db.events, g.envelopes[id].task.value))
  }

  lemma DeleteExactly(g: State, id: string, owner: string, revision: int, clock: Clock)
    ensures Delete(g, id, owner, revision, clock).0 <==> DeleteRows(g, id, owner, revision, clock)
    ensures !DeleteRows(g, id, owner, revision, clock) ==> Delete(g, id, owner, revision, clock).1 == g
    ensures DeleteRows(g, id, owner, revision, clock) ==>
      var h := Delete(g, id, owner, revision, clock).1;
      && h.db == g.db && h.envelopes == g.envelopes - {id}
      && (forall k :: k in h.deliveries <==> k in g.deliveries && k.envelope != id)
      && (forall k :: k in h.deliveries ==> h.deliveries[k] == g.deliveries[k])
  {
    hide Finished, TaskEnded;
    if id in g.envelopes && g.envelopes[id].task.Some? { FinishedExactly(g.db.events, g.envelopes[id].task.value); }
  }

  // ----------------------------------------------------------------- phases

  /** The eleven phase changes that are allowed. */
  lemma TransitionsAre(from: Phase, to: Phase)
    ensures CanTransition(from, to) <==> (from, to) in {
      (Pending, SendUnknown), (Pending, TransportAcked), (Pending, Stale), (Pending, RecoveryNeeded),
      (SendUnknown, TransportAcked), (SendUnknown, RecoveryNeeded),
      (TransportAcked, TaskAccepted), (TransportAcked, Stale), (TransportAcked, RecoveryNeeded),
      (TaskAccepted, PhaseTerminal), (TaskAccepted, Stale)}
  {
    match from { case Pending => case SendUnknown => case TransportAcked => case TaskAccepted => case PhaseTerminal => case Stale => case RecoveryNeeded => }
  }

  /** The two table CHECKs on an outbound row: an event id goes with exactly the phases after the send. */
  lemma EventIdExactly(row: GatewayDelivery)
    ensures EventFitsPhase(row) <==> (row.eventId != None <==> row.phase in {TransportAcked, TaskAccepted, PhaseTerminal, Stale})
  {
    match row.phase { case Pending => case SendUnknown => case TransportAcked => case TaskAccepted => case PhaseTerminal => case Stale => case RecoveryNeeded => }
  }
}
