/** Admission keeps complete sibling sets over every run, and replays agree with what was stored. */
module GatewayAdmission {
  import opened Prelude
  import opened Tables
  import opened Gateway

  predicate IsInbound(g: State, id: string) {
    id in g.envelopes && g.envelopes[id].idempotency.direction == Inbound
  }

  /** An inbound envelope's task, queued event, admission and delivery are all there and all its own. */
  predicate SiblingSet(g: State, id: string)
    requires id in g.envelopes
  {
    var t := g.envelopes[id].correlation;
    && g.envelopes[id].task == Some(t)
    && DeliveryKey(id, Inbound) in g.deliveries && g.deliveries[DeliveryKey(id, Inbound)].eventId.Some?
    && t in g.db.tasks && g.db.tasks[t].root == t
    && EventKey(t, 1) in g.db.events && g.db.events[EventKey(t, 1)].status == Queued && g.db.events[EventKey(t, 1)].id == id
    && t in g.db.admissions && g.db.admissions[t].state in {AdmissionReady, AdmissionEnqueued} && g.db.admissions[t].runtime.Some?
  }

  ghost predicate Complete(g: State) {
    && (forall e, f :: e in g.envelopes && f in g.envelopes && g.envelopes[e].idempotency == g.envelopes[f].idempotency ==> e == f)
    && (forall e :: IsInbound(g, e) ==> SiblingSet(g, e))
    && (forall k :: k in g.deliveries && k.direction == Inbound ==> IsInbound(g, k.envelope))
  }

  /** There is one task per (peer, sender, key), and no two envelopes share one. */
  lemma OneTaskPerKey(g: State, e: string, f: string)
    requires Complete(g) && IsInbound(g, e) && IsInbound(g, f)
    ensures g.envelopes[e].task.Some? && g.envelopes[f].task.Some?
    ensures g.envelopes[e].idempotency == g.envelopes[f].idempotency <==> e == f
    ensures g.envelopes[e].task == g.envelopes[f].task <==> e == f
  {
  }

  // ------------------------------------------------------------------- runs

  datatype Step =
    | AdmitStep(m: Message, a: Arrival)
    | EnqueueStep(task: string, runtime: string, revision: int, now: string)
    | RestoreStep(task: string, runtime: string, revision: int, now: string)
    | ReserveStep(m: Message, room: string, threadRoot: Option<string>, txn: string, owner: string)

  /** A call that fails leaves the state as it was. */
  function Apply(g: State, step: Step): State {
    match step
    case AdmitStep(m, a) => (match Admit(g, m, a) case Ok(r) => r.1 case Err(_) => g)
    case EnqueueStep(task, runtime, revision, now) =>
      (match Swap(g, task, runtime, revision, AdmissionReady, AdmissionEnqueued, now) case Some(next) => next case None => g)
    case RestoreStep(task, runtime, revision, now) =>
      (match Swap(g, task, runtime, revision, AdmissionEnqueued, AdmissionReady, now) case Some(next) => next case None => g)
    case ReserveStep(m, room, root, txn, owner) =>
      (match Reserve(g, m, room, root, txn, owner) case Ok(r) => r.1 case Err(_) => g)
  }

  function Play(g: State, steps: seq<Step>): State
    decreases steps
  {
    if steps == [] then g else Play(Apply(g, steps[0]), steps[1..])
  }

  lemma AdmittedIsComplete(g: State, m: Message, a: Arrival)
    requires Complete(g) && TaskRowsFit(g, m) && EnvelopeRowsFit(g, m) && WithKey(g.envelopes, KeyOf(m, a.sender)) == {}
    ensures Complete(Admitted(g, m, a))
  {
    var after := Admitted(g, m, a);
    forall e | e in g.envelopes
      ensures g.envelopes[e].idempotency != KeyOf(m, a.sender)
    {
      assert e !in WithKey(g.envelopes, KeyOf(m, a.sender));
    }
    forall e | IsInbound(after, e)
      ensures SiblingSet(after, e)
    {
      if e != m.id {
        assert IsInbound(g, e);
        assert SiblingSet(g, e);
      }
    }
    forall k | k in after.deliveries && k.direction == Inbound
      ensures IsInbound(after, k.envelope)
    {
      if k != DeliveryKey(m.id, Inbound) {
        assert IsInbound(g, k.envelope);
      }
    }
  }

  lemma SwapIsComplete(g: State, task: string, runtime: string, revision: int, from: AdmissionState, to: AdmissionState, now: string)
    requires Complete(g) && to in {AdmissionReady, AdmissionEnqueued}
    requires Swap(g, task, runtime, revision, from, to, now).Some?
    ensures Complete(Swap(g, task, runtime, revision, from, to, now).value)
  {
    var after := Swap(g, task, runtime, revision, from, to, now).value;
    forall e | IsInbound(after, e)
      ensures SiblingSet(after, e)
    {
      assert IsInbound(g, e);
      assert SiblingSet(g, e);
    }
    forall k | k in after.deliveries && k.direction == Inbound
      ensures IsInbound(after, k.envelope)
    {
      assert IsInbound(g, k.envelope);
    }
  }

  lemma ReservedIsComplete(g: State, m: Message, room: string, root: Option<string>, txn: string, owner: string)
    requires Complete(g) && Reserve(g, m, room, root, txn, owner).Ok?
    ensures Complete(Reserve(g, m, room, root, txn, owner).value.1)
  {
    var (inserted, after) := Reserve(g, m, room, root, txn, owner).value;
    if inserted {
      var key := IdempotencyKey(m.peer, m.senderPeer, Outbound, m.key);
      forall e | e in g.envelopes
        ensures g.envelopes[e].idempotency != key
      {
        assert e !in WithKey(g.envelopes, key);
      }
      forall e | IsInbound(after, e)
        ensures SiblingSet(after, e)
      {
        assert IsInbound(g, e);
        assert SiblingSet(g, e);
      }
      forall k | k in after.deliveries && k.direction == Inbound
        ensures IsInbound(after, k.envelope)
      {
        assert IsInbound(g, k.envelope);
      }
    }
  }

  lemma StepKeepsComplete(g: State, step: Step)
    requires Complete(g)
    ensures Complete(Apply(g, step))
  {
    hide Complete, Admitted, TaskRowsFit, EnvelopeRowsFit, Swap, Reserve, SiblingsComplete, Retained;
    match step
    case AdmitStep(m, a) =>
      if Admit(g, m, a).Ok? && Admit(g, m, a).value.0.Inserted? {
        AdmittedIsComplete(g, m, a);
      }
    case EnqueueStep(task, runtime, revision, now) =>
      if Swap(g, task, runtime, revision, AdmissionReady, AdmissionEnqueued, now).Some? {
        SwapIsComplete(g, task, runtime, revision, AdmissionReady, AdmissionEnqueued, now);
      }
    case RestoreStep(task, runtime, revision, now) =>
      if Swap(g, task, runtime, revision, AdmissionEnqueued, AdmissionReady, now).Some? {
        SwapIsComplete(g, task, runtime, revision, AdmissionEnqueued, AdmissionReady, now);
      }
    case ReserveStep(m, room, root, txn, owner) =>
      if Reserve(g, m, room, root, txn, owner).Ok? {
        ReservedIsComplete(g, m, room, root, txn, owner);
      }
  }

  /** Over every sequence of admissions, swaps and reservations, sibling sets stay complete. */
  lemma {:induction false} RunKeepsComplete(g: State, steps: seq<Step>)
    requires Complete(g)
    ensures Complete(Play(g, steps))
    decreases steps
  {
    hide Complete, Apply;
    if steps != [] {
      StepKeepsComplete(g, steps[0]);
      RunKeepsComplete(Apply(g, steps[0]), steps[1..]);
    }
  }

  // ---------------------------------------------------------------- replays

  /** A replay changes nothing and presents exactly the stored envelope id, correlation id and payload hash. */
  lemma ReplayAgrees(g: State, m: Message, a: Arrival)
    requires Complete(g) && Admit(g, m, a).Ok? && Admit(g, m, a).value.0.Replay?
    ensures Admit(g, m, a).value == (Replay(m.correlation), g)
    ensures m.id in g.envelopes
    ensures var e := g.envelopes[m.id];
      e.idempotency == KeyOf(m, a.sender) && e.correlation == m.correlation && e.payloadHash == m.payloadHash
  {
    hide Retained;
    var rows := WithKey(g.envelopes, KeyOf(m, a.sender));
    var e :| e in rows;
    assert IsInbound(g, e);
    assert SiblingSet(g, e);
  }

  /** The message is stored, with the runtime that admitted it. */
  ghost predicate Stored(g: State, m: Message, a: Arrival) {
    && IsInbound(g, m.id) && g.envelopes[m.id].idempotency == KeyOf(m, a.sender) && g.envelopes[m.id].correlation == m.correlation
    && g.envelopes[m.id].payloadHash == m.payloadHash
    && m.correlation in g.db.admissions && g.db.admissions[m.correlation].runtime == Some(a.runtime)
    && RuntimeActive(g.db, a.runtime)
  }

  lemma InsertedIsStored(g: State, m: Message, a: Arrival)
    requires Admit(g, m, a).Ok? && Admit(g, m, a).value.0.Inserted?
    ensures Stored(Admit(g, m, a).value.1, m, a)
  {
  }

  lemma StepKeepsStored(g: State, step: Step, m: Message, a: Arrival)
    requires Stored(g, m, a)
    ensures Stored(Apply(g, step), m, a)
  {
  }

  lemma {:induction false} RunKeepsStored(g: State, steps: seq<Step>, m: Message, a: Arrival)
    requires Stored(g, m, a)
    ensures Stored(Play(g, steps), m, a)
    decreases steps
  {
    hide Stored, Apply;
    if steps != [] {
      StepKeepsStored(g, steps[0], m, a);
      RunKeepsStored(Apply(g, steps[0]), steps[1..], m, a);
    }
  }

  lemma StoredReplays(g: State, m: Message, a: Arrival)
    requires Complete(g) && Stored(g, m, a)
    ensures Admit(g, m, a) == Ok((Replay(m.correlation), g))
  {
    hide Retained;
    assert SiblingSet(g, m.id);
    assert m.id in WithKey(g.envelopes, KeyOf(m, a.sender));
    assert forall e :: e in WithKey(g.envelopes, KeyOf(m, a.sender)) ==> e == m.id;
  }

  /** Admission is idempotent: after any further steps, the same message from the same runtime is a replay that changes nothing. */
  lemma AdmissionIsIdempotent(g: State, m: Message, a: Arrival, steps: seq<Step>)
    requires Complete(g) && Admit(g, m, a).Ok?
    ensures var later := Play(Admit(g, m, a).value.1, steps);
      Admit(later, m, a) == Ok((Replay(m.correlation), later))
  {
    hide Complete, Stored, Retained, SiblingsComplete, TaskRowsFit, EnvelopeRowsFit, Admitted;
    var after := Admit(g, m, a).value.1;
    StepKeepsComplete(g, AdmitStep(m, a));
    assert Stored(after, m, a) by {
      if Admit(g, m, a).value.0.Inserted? {
        InsertedIsStored(g, m, a);
      } else {
        ReplayIsStored(g, m, a);
      }
    }
    RunKeepsComplete(after, steps);
    RunKeepsStored(after, steps, m, a);
    StoredReplays(Play(after, steps), m, a);
  }

  lemma ReplayIsStored(g: State, m: Message, a: Arrival)
    requires Complete(g) && Admit(g, m, a).Ok? && Admit(g, m, a).value.0.Replay?
    ensures Stored(g, m, a)
  {
    hide Retained;
    ReplayAgrees(g, m, a);
  }

  // ---------------------------------------------------- the admitted rows

  /**
   * A new message starts an event log that obeys latest-seq = version + 1, and adds exactly its task to the
   * planner's unfinished set; the task carries the message's endpoints, text and deadline.
   */
  lemma AdmissionStartsTheLog(g: State, m: Message, a: Arrival)
    requires WellFormed(g.db) && Admit(g, m, a).Ok? && Admit(g, m, a).value.0.Inserted?
    ensures var db := Admit(g, m, a).value.1.db;
      && Aligned(db, m.correlation) && !Finished(db.events, m.correlation)
      && Unfinished(db) == Unfinished(g.db) + {m.correlation}
      && Unacknowledged(db) == Unacknowledged(g.db) && Awaiting(db) == Awaiting(g.db)
      && var t := db.tasks[m.correlation];
         t.fromAgent == m.fromEndpoint && t.toAgent == m.toEndpoint && t.conversation == a.conversation && t.text == m.text && t.deadline == m.deadline
  {
    hide Retained, SiblingsComplete, LatestSeq;
    var db, key := Admit(g, m, a).value.1.db, EventKey(m.correlation, 1);
    var e := db.events[key];
    assert db.events == g.db.events[key := e];
    forall x
      ensures Finished(db.events, x) <==> Finished(g.db.events, x) && x != m.correlation
      ensures LatestSeq(db.events, m.correlation) == Some(1)
    {
      LatestAfterAppend(g.db.events, key, e, x);
      LatestAfterAppend(g.db.events, key, e, m.correlation);
    }
    assert forall d :: d in db.deliveries ==> db.deliveries[d].task != m.correlation;
  }

  /** Enqueue and restore undo each other but for the revision and the time. */
  lemma SwapRoundTrip(g: State, task: string, runtime: string, revision: int, now: string, later: string)
    requires Swap(g, task, runtime, revision, AdmissionReady, AdmissionEnqueued, now).Some?
    ensures var mid := Swap(g, task, runtime, revision, AdmissionReady, AdmissionEnqueued, now).value;
      && Swap(mid, task, runtime, revision, AdmissionReady, AdmissionEnqueued, now).None?
      && var back := Swap(mid, task, runtime, revision + 1, AdmissionEnqueued, AdmissionReady, later);
         back.Some? && back.value.db.admissions
           == g.db.admissions[task := g.db.admissions[task].(revision := revision + 2, updatedAt := later)]
  {
  }

  // ------------------------------------------------------------ the ceiling

  lemma {:induction false} RetainedInsert(envelopes: map<string, Envelope>, k: string, e: Envelope)
    requires k !in envelopes
    ensures Retained(envelopes[k := e]) == Retained(envelopes) + e.retained
    ensures envelopes == map[] ==> Retained(envelopes) == 0
    decreases |envelopes|
  {
    var after := envelopes[k := e];
    PickExists(after.Keys);
    var p :| IsPick(p, after.Keys);
    if p == k {
      assert after - {k} == envelopes;
    } else {
      assert IsPick(p, envelopes.Keys);
      PickExists(envelopes.Keys);
      assert after - {p} == (envelopes - {p})[k := e];
      RetainedInsert(envelopes - {p}, k, e);
    }
  }

  /**
   * An admission keeps the retained bytes under the ceiling. A reservation adds its bytes whatever the total:
   * it respects the ceiling exactly when the total leaves room, and once it does not, no new message is admitted.
   */
  lemma CeilingExactly(g: State, m: Message, a: Arrival, out: Message, room: string, root: Option<string>, txn: string, owner: string)
    ensures Admit(g, m, a).Ok? && Admit(g, m, a).value.0.Inserted? ==>
      Retained(Admit(g, m, a).value.1.envelopes) == Retained(g.envelopes) + m.size < RETAINED_BYTES_HIGH
    ensures var r := Reserve(g, out, room, root, txn, owner); r.Ok? && r.value.0 ==>
      Retained(r.value.1.envelopes) == Retained(g.envelopes) + out.size
    ensures Retained(g.envelopes) >= RETAINED_BYTES_HIGH ==> !(Admit(g, m, a).Ok? && Admit(g, m, a).value.0.Inserted?)
  {
    hide Retained, SiblingsComplete;
    if m.id !in g.envelopes {
      RetainedInsert(g.envelopes, m.id, NewEnvelope(KeyOf(m, a.sender), m, Some(m.correlation)));
    }
    if out.id !in g.envelopes {
      RetainedInsert(g.envelopes, out.id, NewEnvelope(IdempotencyKey(out.peer, out.senderPeer, Outbound, out.key), out, None));
    }
  }
}
