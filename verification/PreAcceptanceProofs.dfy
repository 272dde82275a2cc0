/** When pre-acceptance recovery commits, exactly what it changes, and why a second run changes nothing. */
module PreAcceptanceProofs {
  import opened Prelude
  import opened Tables
  import opened PreAcceptance
  import Bytes
  import TC = TerminalClosure

  // ------------------------------------------------- one tuple, exact effect

  /** What a caller can check before the call so that closing an open tuple cannot fail. */
  ghost predicate Closable(db: Store, t: Tuple, now: string, codec: Codec) {
    && codec.canonicalTask(t.task) == Some(t.task) && codec.parseTime(now).Some?
    && t.delivery in db.deliveries && TextAtMost(db.deliveries[t.delivery].dispatchedAt, now)
  }

  /** The store after an open tuple is closed with event `e`, table by table. */
  ghost function ClosedStore(db: Store, t: Tuple, now: string, e: Event): Store
    requires t.task in db.tasks && t.task in db.admissions && |LeasesOf(db, t.task)| == 1
    requires t.delivery in db.deliveries && t.delivery in db.dispositions
  {
    var resource := Only(LeasesOf(db, t.task));
    var task, a := db.tasks[t.task], db.admissions[t.task];
    db.(
      tasks := db.tasks[t.task := task.(version := task.version + 1)],
      events := db.events[EventKey(t.task, task.version + 2) := e],
      admissions := db.admissions[t.task := a.(state := AdmissionTerminal, revision := a.revision + 1, updatedAt := now)],
      deliveries := db.deliveries[t.delivery := db.deliveries[t.delivery].(acknowledgedAt := Some(now))],
      dispositions := db.dispositions[
        t.delivery := db.dispositions[t.delivery].(state := DispositionTerminal, reason := Some(TC.AUTH_FAILURE))],
      leases := db.leases[resource := db.leases[resource].(state := LeaseReleased, heartbeatAt := now)])
  }

  ghost function ClosingEvent(now: string, id: string, codec: Codec): Event
    requires codec.parseTime(now).Some?
  {
    Event(id, Failed, codec.formatTime(codec.parseTime(now).value), codec.encodeFailure(TC.AUTH_FAILURE))
  }

  lemma OpenRows(db: Store, t: Tuple, codec: Codec)
    requires Open(db, t, codec)
    ensures t.task in db.tasks && t.task in db.admissions && |LeasesOf(db, t.task)| == 1
    ensures t.delivery in db.deliveries && t.delivery in db.dispositions
  {
  }

  lemma OpenHasItsLease(db: Store, t: Tuple, codec: Codec)
    requires Open(db, t, codec)
    ensures RecoveryLeases(db, t.task) == LeasesOf(db, t.task)
    ensures NextSeq(db, t.task) == db.tasks[t.task].version + 2
    ensures forall k :: k in db.events && k.task == t.task ==> k.index < db.tasks[t.task].version + 2
  {
  }

  /** No guard inside the closure fences an open tuple: it succeeds exactly when the tuple is closable. */
  lemma CloseOneExactly(db: Store, t: Tuple, now: string, id: string, codec: Codec)
    requires WellFormed(db) && Open(db, t, codec) && FreshEvent(db.events, id)
    ensures CloseOne(db, t, now, id, codec).Ok? <==> Closable(db, t, now, codec)
    ensures Closable(db, t, now, codec) ==>
      CloseOne(db, t, now, id, codec) == Ok(ClosedStore(db, t, now, ClosingEvent(now, id, codec)))
  {
    OpenHasItsLease(db, t, codec);
    if codec.canonicalTask(t.task).Some? && codec.parseTime(now).Some? {
      var (c, mode) := ClosureArgs(db, t, Only(LeasesOf(db, t.task)), codec.canonicalTask(t.task).value,
                                   codec.parseTime(now).value, now, id, codec);
      OfflineClosure(db, t, c, mode, codec);
    }
  }

  lemma OfflineClosure(db: Store, t: Tuple, c: TC.Context, mode: TC.LeaseMode, codec: Codec)
    requires Open(db, t, codec) && db.tasks[t.task].version >= 0 && FreshEvent(db.events, c.event.id)
    requires
      var resource := Only(LeasesOf(db, t.task)); var l := db.leases[resource];
      && c == TC.Context(t.task, resource, c.event, c.now, TC.OfflineExact(t.delivery, t.attempt),
           TC.OfflineAdmission(db.admissions[t.task].runtime, db.admissions[t.task].revision),
           TC.OfflineExpected(db.tasks[t.task].version), Some(TC.AUTH_FAILURE))
      && c.event.at == NextSeq(db, t.task) && c.event.status == Failed
      && mode == TC.OfflineRecoveryNeeded(l.owner, l.fence, l.expiresAt)
    ensures TC.Closure(db, c, mode).Ok? <==>
      c.event.task == t.task && TextAtMost(db.deliveries[t.delivery].dispatchedAt, c.now)
    ensures c.event.task != t.task ==> TC.Closure(db, c, mode) == Err(TC.Malformed)
    ensures c.event.task == t.task && TextLess(c.now, db.deliveries[t.delivery].dispatchedAt) ==> TC.Closure(db, c, mode) == Err(TC.DatabaseFailed)
    ensures TC.Closure(db, c, mode).Ok? ==>
      TC.Closure(db, c, mode).value == ClosedStore(db, t, c.now, Event(c.event.id, Failed, c.event.timestamp, c.event.payload))
  {
    OpenHasItsLease(db, t, codec);
    assert c.resource in LeasesOf(db, t.task);
    hide NextSeq, DispatchIsLatest, Aligned, NothingQueued, FreshEvent, TextAtMost;
  }

  // ---------------------------------------------------------- what is local

  /** Two stores hold the same rows for one tuple. */
  ghost predicate SameFor(db: Store, db': Store, t: Tuple) {
    && SameRow(db.deliveries, db'.deliveries, t.delivery)
    && SameRow(db.dispositions, db'.dispositions, t.delivery)
    && SameRow(db.tasks, db'.tasks, t.task)
    && SameRow(db.admissions, db'.admissions, t.task)
    && SameLog(db.events, db'.events, t.task)
    && LeasesOf(db, t.task) == LeasesOf(db', t.task)
    && (forall k :: k in LeasesOf(db, t.task) ==> db.leases[k] == db'.leases[k])
    && db.queue == db'.queue && db.continuations == db'.continuations
  }

  ghost predicate SameRow<K, V>(m: map<K, V>, m': map<K, V>, k: K) {
    (k in m <==> k in m') && (k in m ==> m[k] == m'[k])
  }

  ghost predicate SameLog(events: map<EventKey, Event>, events': map<EventKey, Event>, task: string) {
    forall k: EventKey :: k.task == task ==> SameRow(events, events', k)
  }

  lemma LogIsLocal(events: map<EventKey, Event>, events': map<EventKey, Event>, task: string)
    requires SameLog(events, events', task)
    ensures LatestSeq(events, task) == LatestSeq(events', task)
    ensures forall at :: SeqBefore(events, task, at) == SeqBefore(events', task, at)
  {
  }

  lemma LeaseIsLocal(db: Store, db': Store, t: Tuple, state: LeaseState)
    requires SameFor(db, db', t) && HasOneLease(db, t.task, state)
    ensures HasOneLease(db', t.task, state)
  {
  }

  lemma DispatchIsLocal(db: Store, db': Store, t: Tuple, codec: Codec)
    requires SameFor(db, db', t)
    ensures DispatchIsLatest(db, t, codec) ==> DispatchIsLatest(db', t, codec)
    ensures Aligned(db, t.task) ==> Aligned(db', t.task)
  {
  }

  lemma OpenIsLocal(db: Store, db': Store, t: Tuple, codec: Codec)
    requires SameFor(db, db', t) && Open(db, t, codec)
    ensures Open(db', t, codec)
  {
    DispatchIsLocal(db, db', t, codec);
    LeaseIsLocal(db, db', t, LeaseRecovery);
    assert HasWork(db, t.task) == HasWork(db', t.task);
  }

  lemma ClosingLogIsLocal(events: map<EventKey, Event>, events': map<EventKey, Event>, t: Tuple, at: int, ack: string, codec: Codec)
    requires SameLog(events, events', t.task) && ClosingLog(events, t, at, ack, codec)
    ensures ClosingLog(events', t, at, ack, codec)
  {
  }

  lemma ClosedIsLocal(db: Store, db': Store, t: Tuple, codec: Codec)
    requires SameFor(db, db', t) && Closed(db, t, codec)
    ensures Closed(db', t, codec)
  {
    hide ClosingLog, SameLog, Aligned;
    DispatchIsLocal(db, db', t, codec);
    ClosingLogIsLocal(db.events, db'.events, t, db.tasks[t.task].version + 1,
                      db.deliveries[t.delivery].acknowledgedAt.value, codec);
    LeaseIsLocal(db, db', t, LeaseReleased);
    assert HasWork(db, t.task) == HasWork(db', t.task);
  }

  /** Every row that belongs to a task outside `tasks` is unchanged, and so is every table a closure never writes. */
  ghost predicate Untouched(before: Store, after: Store, tasks: set<string>) {
    && (forall x :: x !in tasks ==> SameRow(before.tasks, after.tasks, x) && SameRow(before.admissions, after.admissions, x))
    && (forall x :: x !in tasks ==> SameLog(before.events, after.events, x))
    && SameDeliveries(before, after, tasks)
    && SameLeases(before.leases, after.leases, tasks)
    && after == before.(tasks := after.tasks, events := after.events, admissions := after.admissions,
                        deliveries := after.deliveries, dispositions := after.dispositions, leases := after.leases)
  }

  ghost predicate SameDeliveries(before: Store, after: Store, tasks: set<string>) {
    && before.deliveries.Keys == after.deliveries.Keys
    && (forall d :: d in before.deliveries ==> before.deliveries[d].task == after.deliveries[d].task)
    && (forall d :: d in before.deliveries && before.deliveries[d].task !in tasks ==>
          before.deliveries[d] == after.deliveries[d] && SameRow(before.dispositions, after.dispositions, d))
  }

  ghost predicate SameLeases(before: map<string, Lease>, after: map<string, Lease>, tasks: set<string>) {
    && before.Keys == after.Keys
    && (forall k :: k in before ==> before[k].task == after[k].task)
    && (forall k :: k in before && before[k].task !in tasks ==> before[k] == after[k])
  }

  lemma ClosingLeases(db: Store, t: Tuple, now: string, e: Event, codec: Codec)
    requires Open(db, t, codec)
    ensures SameLeases(db.leases, ClosedStore(db, t, now, e).leases, {t.task})
  {
  }

  lemma ClosingUntouched(db: Store, t: Tuple, now: string, e: Event, codec: Codec)
    requires Open(db, t, codec)
    ensures Untouched(db, ClosedStore(db, t, now, e), {t.task})
  {
    hide ChecksOpen, SameLeases;
    OpenRows(db, t, codec);
    ClosingLeases(db, t, now, e, codec);
  }

  lemma UntouchedCompose(a: Store, b: Store, c: Store, s: set<string>, t: set<string>)
    requires Untouched(a, b, s) && Untouched(b, c, t)
    ensures Untouched(a, c, s + t)
  {
  }

  lemma UntouchedTuple(before: Store, after: Store, tasks: set<string>, u: Tuple)
    requires Untouched(before, after, tasks) && DeliveryMatches(before, u) && u.task !in tasks
    ensures SameFor(before, after, u)
  {
  }

  lemma ClosedLease(db: Store, t: Tuple, now: string, e: Event, codec: Codec)
    requires Open(db, t, codec)
    ensures HasOneLease(ClosedStore(db, t, now, e), t.task, LeaseReleased)
  {
    var after := ClosedStore(db, t, now, e);
    assert forall k :: k in LeasesOf(db, t.task) <==> k in LeasesOf(after, t.task);
    assert LeasesOf(db, t.task) == LeasesOf(after, t.task);
  }

  lemma ClosedLog(events: map<EventKey, Event>, t: Tuple, at: int, now: string, id: string, codec: Codec)
    requires LatestSeq(events, t.task) == Some(at) && DispatchEvent(events[EventKey(t.task, at)], t, codec)
    requires codec.parseTime(now).Some? && Sound(codec)
    ensures var after := events[EventKey(t.task, at + 1) := ClosingEvent(now, id, codec)];
      LatestSeq(after, t.task) == Some(at + 1) && ClosingLog(after, t, at + 1, now, codec)
  {
  }

  lemma OpenLog(db: Store, t: Tuple, codec: Codec)
    requires Open(db, t, codec)
    ensures t.task in db.tasks && var at := db.tasks[t.task].version + 1;
      LatestSeq(db.events, t.task) == Some(at) && DispatchEvent(db.events[EventKey(t.task, at)], t, codec)
    ensures NothingQueued(db, t.task)
  {
  }

  /** The tuple just closed is recognised as closed, whatever the time. */
  lemma ClosingIsRecognised(db: Store, t: Tuple, now: string, id: string, codec: Codec)
    requires Open(db, t, codec) && codec.parseTime(now).Some? && Sound(codec)
    ensures Closed(ClosedStore(db, t, now, ClosingEvent(now, id, codec)), t, codec)
  {
    hide ClosingLog, ChecksOpen, HasOneLease, LatestSeq, Sound, ClosingEvent;
    var e := ClosingEvent(now, id, codec);
    OpenRows(db, t, codec);
    OpenLog(db, t, codec);
    ClosedLog(db.events, t, db.tasks[t.task].version + 1, now, id, codec);
    ClosedLease(db, t, now, e, codec);
    assert HasWork(db, t.task) == HasWork(ClosedStore(db, t, now, e), t.task);
  }

  // ------------------------------------------------------------ whole batch

  function TaskSet(tuples: seq<Tuple>): (r: set<string>)
    ensures forall i :: 0 <= i < |tuples| ==> tuples[i].task in r
  {
    if tuples == [] then {} else {tuples[0].task} + TaskSet(tuples[1..])
  }

  function DeliverySet(tuples: seq<Tuple>): (r: set<string>)
    ensures forall i :: 0 <= i < |tuples| ==> tuples[i].delivery in r
  {
    if tuples == [] then {} else {tuples[0].delivery} + DeliverySet(tuples[1..])
  }

  ghost predicate AllOpen(db: Store, tuples: seq<Tuple>, codec: Codec) {
    forall i :: 0 <= i < |tuples| ==> Open(db, tuples[i], codec)
  }

  ghost predicate TasksDiffer(tuples: seq<Tuple>) {
    forall i, j :: 0 <= i < j < |tuples| ==> tuples[i].task != tuples[j].task
  }

  /** Two open tuples of one task are the same tuple: the latest event names one dispatch. */
  lemma OpenTasksDiffer(db: Store, tuples: seq<Tuple>, codec: Codec)
    requires AllOpen(db, tuples, codec) && Distinct(tuples)
    ensures TasksDiffer(tuples)
  {
  }

  ghost predicate FreshIds(events: map<EventKey, Event>, ids: seq<string>) {
    && (forall i :: 0 <= i < |ids| ==> FreshEvent(events, ids[i]))
    && (forall i, j :: 0 <= i < j < |ids| ==> ids[i] != ids[j])
  }

  ghost function Acked(row: Delivery, target: bool, now: string): Delivery {
    if target then row.(acknowledgedAt := Some(now)) else row
  }

  /** What the planner queries can see of a batch. */
  ghost predicate Ended(before: Store, after: Store, tasks: set<string>, deliveries: set<string>, now: string) {
    && before.tasks.Keys == after.tasks.Keys
    && (forall x :: Finished(after.events, x) <==> Finished(before.events, x) || x in tasks)
    && before.deliveries.Keys == after.deliveries.Keys
    && (forall d :: d in before.deliveries ==> after.deliveries[d] == Acked(before.deliveries[d], d in deliveries, now))
  }

  lemma ClosingAcknowledges(db: Store, t: Tuple, now: string, e: Event, codec: Codec)
    requires Open(db, t, codec)
    ensures var after := ClosedStore(db, t, now, e);
      && db.tasks.Keys == after.tasks.Keys && db.deliveries.Keys == after.deliveries.Keys
      && after.events == db.events[EventKey(t.task, db.tasks[t.task].version + 2) := e]
      && forall d :: d in db.deliveries ==> after.deliveries[d] == Acked(db.deliveries[d], d in {t.delivery}, now)
  {
  }

  lemma ClosingEnds(db: Store, t: Tuple, now: string, e: Event, codec: Codec)
    requires Open(db, t, codec) && e.status == Failed
    ensures Ended(db, ClosedStore(db, t, now, e), {t.task}, {t.delivery}, now)
  {
    hide Finished, ChecksOpen, ClosedStore, Acked, NextSeq;
    OpenRows(db, t, codec);
    OpenHasItsLease(db, t, codec);
    ClosingAcknowledges(db, t, now, e, codec);
    var after, key := ClosedStore(db, t, now, e), EventKey(t.task, db.tasks[t.task].version + 2);
    forall x
      ensures Finished(after.events, x) <==> Finished(db.events, x) || x in {t.task}
    {
      FinishedAfterAppend(db.events, key, e, x);
    }
  }

  lemma ClosedStoreWellFormed(db: Store, t: Tuple, now: string, e: Event, codec: Codec)
    requires WellFormed(db) && Open(db, t, codec)
    ensures WellFormed(ClosedStore(db, t, now, e))
  {
    hide DispatchIsLatest, NothingQueued;
    assert Only(LeasesOf(db, t.task)) in LeasesOf(db, t.task);
  }

  ghost predicate AllClosed(db: Store, tuples: seq<Tuple>, codec: Codec) {
    forall i :: 0 <= i < |tuples| ==> Closed(db, tuples[i], codec)
  }

  ghost predicate AllClosable(db: Store, tuples: seq<Tuple>, now: string, codec: Codec) {
    forall i :: 0 <= i < |tuples| ==> Closable(db, tuples[i], now, codec)
  }

  /** After the first tuple is closed, the others are exactly as open and as closable as before. */
  lemma RestIsAsBefore(db: Store, tuples: seq<Tuple>, now: string, e: Event, codec: Codec)
    requires tuples != [] && AllOpen(db, tuples, codec) && TasksDiffer(tuples)
    ensures var next := ClosedStore(db, tuples[0], now, e);
      && AllOpen(next, tuples[1..], codec)
      && (AllClosable(next, tuples[1..], now, codec) <==> AllClosable(db, tuples[1..], now, codec))
  {
    hide Open, ChecksOpen, Untouched;
    assert Open(db, tuples[0], codec);
    OpenRows(db, tuples[0], codec);
    var next := ClosedStore(db, tuples[0], now, e);
    ClosingUntouched(db, tuples[0], now, e, codec);
    forall i | 0 <= i < |tuples[1..]|
      ensures Open(next, tuples[1..][i], codec)
      ensures Closable(next, tuples[1..][i], now, codec) <==> Closable(db, tuples[1..][i], now, codec)
    {
      OneOfTheRest(db, next, tuples[0], tuples[i + 1], now, codec);
    }
  }

  lemma OneOfTheRest(db: Store, next: Store, t: Tuple, u: Tuple, now: string, codec: Codec)
    requires Untouched(db, next, {t.task}) && Open(db, u, codec) && u.task != t.task
    ensures Open(next, u, codec)
    ensures Closable(next, u, now, codec) <==> Closable(db, u, now, codec)
  {
    hide ChecksOpen, SameLeases;
    UntouchedTuple(db, next, {t.task}, u);
    OpenIsLocal(db, next, u, codec);
  }

  lemma RestIdsAreFresh(events: map<EventKey, Event>, key: EventKey, e: Event, ids: seq<string>)
    requires ids != [] && FreshIds(events, ids) && e.id == ids[0]
    ensures FreshIds(events[key := e], ids[1..])
  {
  }

  lemma EndedCompose(a: Store, b: Store, c: Store, s: set<string>, t: set<string>, d: set<string>, e: set<string>, now: string)
    requires Ended(a, b, s, d, now) && Ended(b, c, t, e, now)
    ensures Ended(a, c, s + t, d + e, now)
  {
  }

  lemma ClosedStaysClosed(next: Store, after: Store, t: Tuple, rest: seq<Tuple>, codec: Codec)
    requires Closed(next, t, codec) && Untouched(next, after, TaskSet(rest)) && t.task !in TaskSet(rest)
    ensures Closed(after, t, codec)
  {
    hide ChecksClosed, SameLeases;
    UntouchedTuple(next, after, TaskSet(rest), t);
    ClosedIsLocal(next, after, t, codec);
  }

  lemma {:induction false} TaskSetMembers(tuples: seq<Tuple>, x: string)
    requires x in TaskSet(tuples)
    ensures exists i :: 0 <= i < |tuples| && tuples[i].task == x
  {
    if x != tuples[0].task {
      TaskSetMembers(tuples[1..], x);
      var i :| 0 <= i < |tuples[1..]| && tuples[1..][i].task == x;
      assert tuples[i + 1].task == x;
    }
  }

  /**
   * Closing a batch of open tuples of different tasks: no compare-and-swap is ever fenced, so the batch
   * fails only when some tuple was not closable to begin with; and it ends exactly the target tasks.
   */
  lemma {:induction false} CloseAllExactly(db: Store, tuples: seq<Tuple>, now: string, ids: seq<string>, codec: Codec)
    requires WellFormed(db) && AllOpen(db, tuples, codec) && TasksDiffer(tuples) && Sound(codec)
    requires |ids| == |tuples| && FreshIds(db.events, ids)
    ensures CloseAll(db, tuples, now, ids, codec).Ok? <==> AllClosable(db, tuples, now, codec)
    ensures CloseAll(db, tuples, now, ids, codec).Ok? ==>
      var after := CloseAll(db, tuples, now, ids, codec).value;
      && Untouched(db, after, TaskSet(tuples))
      && Ended(db, after, TaskSet(tuples), DeliverySet(tuples), now)
      && AllClosed(after, tuples, codec)
    decreases tuples
  {
    hide Open, Closed, Closable, CloseOne, Untouched, Ended, WellFormed, Sound, FreshIds, ClosedStore;
    if tuples == [] {
      NothingEnded(db, now);
    } else {
      var t, rest := tuples[0], tuples[1..];
      assert Open(db, t, codec);
      FirstId(db.events, ids);
      CloseOneExactly(db, t, now, ids[0], codec);
      assert AllClosable(db, tuples, now, codec) <==> Closable(db, t, now, codec) && AllClosable(db, rest, now, codec) by {
        assert tuples == [t] + rest;
      }
      if Closable(db, t, now, codec) {
        var next := FirstClosed(db, tuples, now, ids, codec);
        CloseAllExactly(next, rest, now, ids[1..], codec);
        if AllClosable(next, rest, now, codec) {
          Combine(db, next, CloseAll(next, rest, now, ids[1..], codec).value, tuples, now, codec);
        }
      }
    }
  }

  /** Everything the rest of the batch needs to know about the store its first closure leaves. */
  lemma FirstClosed(db: Store, tuples: seq<Tuple>, now: string, ids: seq<string>, codec: Codec) returns (next: Store)
    requires tuples != [] && WellFormed(db) && AllOpen(db, tuples, codec) && TasksDiffer(tuples) && Sound(codec)
    requires |ids| == |tuples| && FreshIds(db.events, ids) && Closable(db, tuples[0], now, codec)
    ensures CloseOne(db, tuples[0], now, ids[0], codec) == Ok(next)
    ensures WellFormed(next) && AllOpen(next, tuples[1..], codec) && FreshIds(next.events, ids[1..])
    ensures AllClosable(next, tuples[1..], now, codec) <==> AllClosable(db, tuples[1..], now, codec)
    ensures Untouched(db, next, {tuples[0].task}) && Closed(next, tuples[0], codec)
    ensures Ended(db, next, {tuples[0].task}, {tuples[0].delivery}, now)
  {
    hide WellFormed, Sound, Untouched, Ended, Closed, CloseOne, ChecksOpen;
    var t := tuples[0];
    assert Open(db, t, codec);
    OpenRows(db, t, codec);
    var e := ClosingEvent(now, ids[0], codec);
    FirstId(db.events, ids);
    CloseOneExactly(db, t, now, ids[0], codec);
    next := ClosedStore(db, t, now, e);
    ClosedStoreWellFormed(db, t, now, e, codec);
    RestIsAsBefore(db, tuples, now, e, codec);
    RestIdsAreFresh(db.events, EventKey(t.task, db.tasks[t.task].version + 2), e, ids);
    ClosingUntouched(db, t, now, e, codec);
    ClosingIsRecognised(db, t, now, ids[0], codec);
    ClosingEnds(db, t, now, e, codec);
  }

  lemma Combine(db: Store, next: Store, after: Store, tuples: seq<Tuple>, now: string, codec: Codec)
    requires tuples != [] && TasksDiffer(tuples)
    requires Untouched(db, next, {tuples[0].task}) && Untouched(next, after, TaskSet(tuples[1..]))
    requires Ended(db, next, {tuples[0].task}, {tuples[0].delivery}, now)
    requires Ended(next, after, TaskSet(tuples[1..]), DeliverySet(tuples[1..]), now)
    requires Closed(next, tuples[0], codec) && AllClosed(after, tuples[1..], codec)
    ensures Untouched(db, after, TaskSet(tuples)) && AllClosed(after, tuples, codec)
    ensures Ended(db, after, TaskSet(tuples), DeliverySet(tuples), now)
  {
    hide Untouched, Ended, Closed;
    var t, rest := tuples[0], tuples[1..];
    UntouchedCompose(db, next, after, {t.task}, TaskSet(rest));
    EndedCompose(db, next, after, {t.task}, TaskSet(rest), {t.delivery}, DeliverySet(rest), now);
    if t.task in TaskSet(rest) {
      TaskSetMembers(rest, t.task);
      assert false;
    }
    ClosedStaysClosed(next, after, t, rest, codec);
    assert tuples == [t] + rest;
  }

  lemma FirstId(events: map<EventKey, Event>, ids: seq<string>)
    requires ids != [] && FreshIds(events, ids)
    ensures FreshEvent(events, ids[0])
  {
  }

  lemma NothingEnded(db: Store, now: string)
    ensures Untouched(db, db, {}) && Ended(db, db, {}, {}, now)
  {
  }
}
