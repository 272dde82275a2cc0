/** The errors of pre-acceptance recovery in the order in which they are found, and every row of a committed batch. */
module PreAcceptanceOutcomes {
  import opened Prelude
  import opened Tables
  import opened PreAcceptance
  import opened PreAcceptanceProofs
  import opened PreAcceptanceTheorems
  import opened Sql
  import R = Rows
  import TC = TerminalClosure
  import TQ = TerminalClosureSql

  // ----------------------------------------------------------------- errors

  /** What stops the closing of an open tuple, first things first; `None` if nothing does. */
  ghost function Refusal(db: Store, t: Tuple, now: string, codec: Codec): Option<RecoveryError>
    requires t.delivery in db.deliveries
  {
    if codec.canonicalTask(t.task) == None then Some(NotEligible)
    else if codec.parseTime(now) == None then Some(InvalidArguments)
    else if codec.canonicalTask(t.task) != Some(t.task) then Some(NotEligible)
    else if TextLess(now, db.deliveries[t.delivery].dispatchedAt) then Some(DatabaseError)
    else None
  }

  lemma CloseOneRefusal(db: Store, t: Tuple, now: string, id: string, codec: Codec)
    requires WellFormed(db) && Open(db, t, codec) && FreshEvent(db.events, id)
    ensures Closable(db, t, now, codec) <==> Refusal(db, t, now, codec) == None
    ensures Refusal(db, t, now, codec) != None ==> CloseOne(db, t, now, id, codec) == Err(Refusal(db, t, now, codec).value)
  {
    OpenHasItsLease(db, t, codec);
    hide NextSeq, FreshEvent, TextLess, DispatchIsLatest, Aligned, NothingQueued;
    if codec.canonicalTask(t.task).Some? && codec.parseTime(now).Some? {
      var (c, mode) := ClosureArgs(db, t, Only(LeasesOf(db, t.task)), codec.canonicalTask(t.task).value,
                                   codec.parseTime(now).value, now, id, codec);
      OfflineClosure(db, t, c, mode, codec);
    }
  }

  /** Whether `close_one` finds the rows it starts from. */
  ghost predicate CanStart(db: Store, t: Tuple) {
    && t.task in db.admissions && db.admissions[t.task].state == AdmissionDispatching
    && Count(db.leases, R.OfTaskIn(t.task, LeaseRecovery)) == 1 && t.task in db.tasks
  }

  /** `close_one` on every state: what it needs to start, its parsing, and then the terminal write with its errors. */
  lemma CloseOneTable(db: Store, t: Tuple, now: string, id: string, codec: Codec)
    ensures !CanStart(db, t) ==> CloseOne(db, t, now, id, codec) == Err(FencedError)
    ensures CanStart(db, t) && codec.canonicalTask(t.task) == None ==> CloseOne(db, t, now, id, codec) == Err(NotEligible)
    ensures CanStart(db, t) && codec.canonicalTask(t.task) != None && codec.parseTime(now) == None ==>
      CloseOne(db, t, now, id, codec) == Err(InvalidArguments)
    ensures CanStart(db, t) && codec.canonicalTask(t.task) != None && codec.parseTime(now) != None ==>
      exists k :: k in db.leases && db.leases[k].task == t.task && db.leases[k].state == LeaseRecovery &&
        var (c, mode) := ClosureArgs(db, t, k, codec.canonicalTask(t.task).value, codec.parseTime(now).value, now, id, codec);
        CloseOne(db, t, now, id, codec) == match TQ.Script(db, c, mode)
          case Ok(after) => Ok(after)
          case Err(Malformed) => Err(NotEligible)
          case Err(DatabaseFailed) => Err(DatabaseError)
          case Err(_) => Err(FencedError)
  {
    hide ClosureArgs, TC.Closure, TQ.Script;
    var leases := RecoveryLeases(db, t.task);
    assert leases == Where(db.leases, R.OfTaskIn(t.task, LeaseRecovery));
    if CanStart(db, t) && codec.canonicalTask(t.task) != None && codec.parseTime(now) != None {
      var k := Only(leases);
      assert k in leases;
      var (c, mode) := ClosureArgs(db, t, k, codec.canonicalTask(t.task).value, codec.parseTime(now).value, now, id, codec);
      TQ.ClosureExactly(db, c, mode);
    }
  }

  ghost predicate FirstRefused(db: Store, tuples: seq<Tuple>, now: string, codec: Codec, k: nat) {
    && k < |tuples| && tuples[k].delivery in db.deliveries && Refusal(db, tuples[k], now, codec) != None
    && forall i :: 0 <= i < k ==> Closable(db, tuples[i], now, codec)
  }

  lemma RefusalIsLocal(db: Store, next: Store, t: Tuple, u: Tuple, now: string, codec: Codec)
    requires Untouched(db, next, {t.task}) && Open(db, u, codec) && u.task != t.task
    ensures u.delivery in db.deliveries && u.delivery in next.deliveries && Refusal(next, u, now, codec) == Refusal(db, u, now, codec)
  {
    hide ChecksOpen, SameLeases;
    UntouchedTuple(db, next, {t.task}, u);
  }

  /** A batch of open tuples fails with what stops the first tuple that cannot be closed. */
  lemma {:induction false} CloseAllRefusal(db: Store, tuples: seq<Tuple>, now: string, ids: seq<string>, codec: Codec, k: nat)
    requires WellFormed(db) && AllOpen(db, tuples, codec) && TasksDiffer(tuples) && Sound(codec)
    requires |ids| == |tuples| && FreshIds(db.events, ids) && FirstRefused(db, tuples, now, codec, k)
    ensures CloseAll(db, tuples, now, ids, codec) == Err(Refusal(db, tuples[k], now, codec).value)
    decreases tuples
  {
    hide Open, Closed, Closable, CloseOne, Untouched, Ended, WellFormed, Sound, FreshIds, Refusal;
    FirstId(db.events, ids);
    assert Open(db, tuples[0], codec);
    if k == 0 {
      CloseOneRefusal(db, tuples[0], now, ids[0], codec);
    } else {
      assert Closable(db, tuples[0], now, codec);
      var next := FirstClosed(db, tuples, now, ids, codec);
      var rest := tuples[1..];
      forall i | 0 < i < |tuples|
        ensures tuples[i].delivery in db.deliveries && tuples[i].delivery in next.deliveries
        ensures Refusal(next, tuples[i], now, codec) == Refusal(db, tuples[i], now, codec)
        ensures Closable(next, tuples[i], now, codec) <==> Closable(db, tuples[i], now, codec)
      {
        assert Open(db, tuples[i], codec);
        RefusalIsLocal(db, next, tuples[0], tuples[i], now, codec);
        OneOfTheRest(db, next, tuples[0], tuples[i], now, codec);
      }
      assert FirstRefused(next, rest, now, codec, k - 1);
      CloseAllRefusal(next, rest, now, ids[1..], codec, k - 1);
    }
  }

  /** And so does the whole transaction. */
  lemma RecoverRefusal(db: Store, tuples: seq<Tuple>, now: string, ids: seq<string>, codec: Codec, k: nat)
    requires WellFormed(db) && PlainIds(db) && Sound(codec)
    requires |ids| == |tuples| && FreshIds(db.events, ids)
    requires Distinct(tuples) && AllOpen(db, tuples, codec) && FirstRefused(db, tuples, now, codec, k)
    ensures RecoverTx(db, tuples, now, ids, codec) == Err(Refusal(db, tuples[k], now, codec).value)
  {
    hide Open, Closable, ReadPlanner, RemoveTargets, WellFormed, PlainIds, CloseAll, Refusal;
    OpenTasksDiffer(db, tuples, codec);
    AllOpenValidates(db, tuples, codec);
    CloseAllRefusal(db, tuples, now, ids, codec, k);
    OpenIsRemovable(db, tuples, codec);
    RemoveTargetsExactly(ReadPlanner(db), tuples);
  }

  /** The planner sets give up their targets only if every one of them is there, once. */
  lemma {:induction false} RemoveTargetsRefusal(p: Planner, tuples: seq<Tuple>)
    requires !Removable(p, tuples)
    ensures RemoveTargets(p, tuples) == Err(NotEligible)
    decreases tuples
  {
    hide Named;
    var t, rest := tuples[0], tuples[1..];
    var q := p.(unfinished := p.unfinished - {t.task}, unacknowledged := p.unacknowledged - {Named(t)});
    if t.task in p.unfinished && Named(t) in p.unacknowledged && Named(t) !in p.awaiting {
      RemovableHead(p, tuples);
      RemoveTargetsRefusal(q, rest);
    }
  }

  lemma RemovableHead(p: Planner, tuples: seq<Tuple>)
    requires tuples != [] && tuples[0].task in p.unfinished && Named(tuples[0]) in p.unacknowledged && Named(tuples[0]) !in p.awaiting
    ensures Removable(p.(unfinished := p.unfinished - {tuples[0].task}, unacknowledged := p.unacknowledged - {Named(tuples[0])}), tuples[1..])
      ==> Removable(p, tuples)
  {
    hide Named;
    assert tuples == [tuples[0]] + tuples[1..];
  }

  // --------------------------------------------------------- committed rows

  /** Every row of a closed target, column by column. */
  ghost predicate TargetRows(db: Store, after: Store, t: Tuple, now: string, id: string, codec: Codec) {
    && t.task in db.tasks && t.task in after.tasks && t.task in db.admissions && t.task in after.admissions
    && t.delivery in db.deliveries && t.delivery in after.deliveries && t.delivery in db.dispositions && t.delivery in after.dispositions
    && after.tasks[t.task] == db.tasks[t.task].(version := db.tasks[t.task].version + 1)
    && EventKey(t.task, db.tasks[t.task].version + 2) in after.events && codec.parseTime(now).Some?
    && after.events[EventKey(t.task, db.tasks[t.task].version + 2)]
       == Event(id, Failed, codec.formatTime(codec.parseTime(now).value), codec.encodeFailure("pre_acceptance_auth_failure"))
    && after.admissions[t.task] == db.admissions[t.task].(state := AdmissionTerminal, revision := db.admissions[t.task].revision + 1, updatedAt := now)
    && after.deliveries[t.delivery] == db.deliveries[t.delivery].(acknowledgedAt := Some(now))
    && after.dispositions[t.delivery]
       == db.dispositions[t.delivery].(state := DispositionTerminal, reason := Some("pre_acceptance_auth_failure"))
    && LeaseRows(db.leases, after.leases, t.task, now)
  }

  ghost predicate LeaseRows(before: map<string, Lease>, after: map<string, Lease>, task: string, now: string) {
    forall k :: k in before && before[k].task == task ==> k in after && after[k] == before[k].(state := LeaseReleased, heartbeatAt := now)
  }

  lemma ClosedLeaseRow(db: Store, t: Tuple, now: string, e: Event, codec: Codec)
    requires Open(db, t, codec)
    ensures LeaseRows(db.leases, ClosedStore(db, t, now, e).leases, t.task, now)
  {
    OpenRows(db, t, codec);
    forall k | k in db.leases && db.leases[k].task == t.task
      ensures k == Only(LeasesOf(db, t.task))
    {
      assert k in LeasesOf(db, t.task);
    }
  }

  lemma ClosedTargetRows(db: Store, t: Tuple, now: string, id: string, codec: Codec)
    requires Open(db, t, codec) && codec.parseTime(now).Some?
    ensures TargetRows(db, ClosedStore(db, t, now, ClosingEvent(now, id, codec)), t, now, id, codec)
  {
    hide ChecksOpen, LeaseRows;
    OpenRows(db, t, codec);
    ClosedLeaseRow(db, t, now, ClosingEvent(now, id, codec), codec);
  }

  lemma TargetRowsLater(db: Store, next: Store, after: Store, t: Tuple, now: string, id: string, codec: Codec)
    requires TargetRows(db, next, t, now, id, codec) && SameFor(next, after, t)
    requires forall k :: k in db.leases && k in next.leases ==> next.leases[k].task == db.leases[k].task
    ensures TargetRows(db, after, t, now, id, codec)
  {
    assert forall k :: k in next.leases && next.leases[k].task == t.task ==> k in LeasesOf(next, t.task);
  }

  lemma TargetRowsEarlier(db: Store, next: Store, after: Store, t: Tuple, now: string, id: string, codec: Codec)
    requires TargetRows(next, after, t, now, id, codec) && SameFor(db, next, t)
    ensures TargetRows(db, after, t, now, id, codec)
  {
    assert forall k :: k in db.leases && db.leases[k].task == t.task ==> k in LeasesOf(db, t.task);
  }

  /** Tuple `i` of a batch that goes through is closed exactly so, with the event id generated for it. */
  lemma {:induction false} CloseAllRows(db: Store, tuples: seq<Tuple>, now: string, ids: seq<string>, codec: Codec, i: nat)
    requires WellFormed(db) && AllOpen(db, tuples, codec) && TasksDiffer(tuples) && Sound(codec)
    requires |ids| == |tuples| && FreshIds(db.events, ids) && AllClosable(db, tuples, now, codec) && i < |tuples|
    ensures CloseAll(db, tuples, now, ids, codec).Ok? && TargetRows(db, CloseAll(db, tuples, now, ids, codec).value, tuples[i], now, ids[i], codec)
    decreases tuples
  {
    hide Open, Closed, Closable, CloseOne, Untouched, Ended, WellFormed, Sound, FreshIds, ClosedStore, TargetRows, SameFor;
    var t, rest := tuples[0], tuples[1..];
    assert Open(db, t, codec) && Closable(db, t, now, codec);
    FirstId(db.events, ids);
    var next := FirstClosed(db, tuples, now, ids, codec);
    CloseAllExactly(next, rest, now, ids[1..], codec);
    var after := CloseAll(next, rest, now, ids[1..], codec).value;
    if i == 0 {
      FirstTargetRows(db, next, after, t, rest, now, ids[0], codec);
    } else {
      CloseAllRows(next, rest, now, ids[1..], codec, i - 1);
      assert Open(db, tuples[i], codec);
      OpenMatchesDelivery(db, tuples[i], codec);
      UntouchedTuple(db, next, {t.task}, tuples[i]);
      TargetRowsEarlier(db, next, after, tuples[i], now, ids[i], codec);
    }
  }

  lemma OpenMatchesDelivery(db: Store, t: Tuple, codec: Codec)
    requires Open(db, t, codec)
    ensures DeliveryMatches(db, t)
  {
  }

  lemma ClosedMatchesDelivery(db: Store, t: Tuple, codec: Codec)
    requires Closed(db, t, codec)
    ensures DeliveryMatches(db, t)
  {
  }

  lemma LeaseTasksKept(db: Store, next: Store, tasks: set<string>)
    requires Untouched(db, next, tasks)
    ensures forall k :: k in db.leases && k in next.leases ==> next.leases[k].task == db.leases[k].task
  {
  }

  lemma OtherTasks(tuples: seq<Tuple>, task: string)
    requires forall i :: 0 <= i < |tuples| ==> tuples[i].task != task
    ensures task !in TaskSet(tuples)
  {
    if task in TaskSet(tuples) {
      TaskSetMembers(tuples, task);
    }
  }

  lemma ClosableHasTime(db: Store, t: Tuple, now: string, codec: Codec)
    requires Closable(db, t, now, codec)
    ensures codec.parseTime(now).Some?
  {
  }

  lemma FirstTargetRows(db: Store, next: Store, after: Store, t: Tuple, rest: seq<Tuple>, now: string, id: string, codec: Codec)
    requires WellFormed(db) && FreshEvent(db.events, id) && Open(db, t, codec) && Closable(db, t, now, codec)
    requires CloseOne(db, t, now, id, codec) == Ok(next) && Closed(next, t, codec)
    requires Untouched(db, next, {t.task}) && Untouched(next, after, TaskSet(rest)) && forall i :: 0 <= i < |rest| ==> rest[i].task != t.task
    ensures TargetRows(db, after, t, now, id, codec)
  {
    hide CloseOne, WellFormed, TargetRows, SameFor, Open, Closed, Untouched, ClosedStore, DeliveryMatches, Closable, FreshEvent, ClosingEvent, LeasesOf;
    ClosableHasTime(db, t, now, codec);
    OpenRows(db, t, codec);
    CloseOneExactly(db, t, now, id, codec);
    ClosedTargetRows(db, t, now, id, codec);
    OtherTasks(rest, t.task);
    ClosedMatchesDelivery(next, t, codec);
    UntouchedTuple(next, after, TaskSet(rest), t);
    LeaseTasksKept(db, next, {t.task});
    TargetRowsLater(db, next, after, t, now, id, codec);
  }

  /** Every row a committed recovery writes. */
  lemma CommittedRows(db: Store, tuples: seq<Tuple>, now: string, ids: seq<string>, codec: Codec, i: nat)
    requires WellFormed(db) && PlainIds(db) && Sound(codec)
    requires |ids| == |tuples| && FreshIds(db.events, ids)
    requires Distinct(tuples) && AllOpen(db, tuples, codec) && RecoverTx(db, tuples, now, ids, codec).Ok? && i < |tuples|
    ensures TargetRows(db, RecoverTx(db, tuples, now, ids, codec).value.db, tuples[i], now, ids[i], codec)
  {
    hide Open, Closable, ReadPlanner, RemoveTargets, WellFormed, PlainIds, CloseAll, TargetRows, Committed, Untouched, OtherAcknowledged, ValidateAll;
    CommitExactly(db, tuples, now, ids, codec);
    AllOpenValidates(db, tuples, codec);
    CloseAllRows(db, tuples, now, ids, codec, i);
  }
}
