/** What the validator of pre-acceptance recovery answers, row by row, and every outcome of the command. */
module PreAcceptanceSql {
  import opened Prelude
  import opened Tables
  import opened Rows
  import opened PreAcceptance
  import opened PreAcceptanceProofs
  import opened PreAcceptanceTheorems
  import Bytes

  ghost predicate DispatchRow(e: Event, t: Tuple, codec: Codec) {
    e.status == Dispatched && codec.decode(e.payload) == DispatchedTo(t.delivery, t.attempt)
  }

  /** The delivery and disposition rows that the tuple names. */
  ghost predicate TupleRows(db: Store, t: Tuple) {
    && t.delivery in db.deliveries && db.deliveries[t.delivery].task == t.task && db.deliveries[t.delivery].attempt == t.attempt
    && t.delivery in db.dispositions && db.dispositions[t.delivery].task == t.task && db.dispositions[t.delivery].attempt == t.attempt
    && t.task in db.tasks
  }

  /** Dispatched last, never accepted: everything `validate` asks for `Ok(true)`. */
  ghost predicate OpenTuple(db: Store, t: Tuple, codec: Codec) {
    && TupleRows(db, t)
    && db.deliveries[t.delivery].acknowledgedAt == None
    && db.dispositions[t.delivery].state == DispositionPrepared
    && db.dispositions[t.delivery].session == None && db.dispositions[t.delivery].child == None
    && LastEvent(db.events, t.task, db.tasks[t.task].version + 1)
    && DispatchRow(db.events[EventKey(t.task, db.tasks[t.task].version + 1)], t, codec)
    && t.task in db.admissions && db.admissions[t.task].state == AdmissionDispatching
    && OnlyLease(db, t.task, LeaseRecovery) && NothingWaits(db, t.task)
  }

  /** The log ends with the failure, at the acknowledged instant, right after the dispatch. */
  ghost predicate FailedLog(db: Store, t: Tuple, codec: Codec)
    requires TupleRows(db, t)
  {
    var n := db.tasks[t.task].version + 1;
    && db.deliveries[t.delivery].acknowledgedAt.Some?
    && LastEvent(db.events, t.task, n)
    && db.events[EventKey(t.task, n)].status == Failed
    && codec.decode(db.events[EventKey(t.task, n)].payload) == FailedWith("pre_acceptance_auth_failure")
    && codec.parseTime(db.deliveries[t.delivery].acknowledgedAt.value) == codec.parseTime(db.events[EventKey(t.task, n)].timestamp)
    && exists m :: EventBefore(db.events, t.task, n, m) && DispatchRow(db.events[EventKey(t.task, m)], t, codec)
  }

  /** Closed by this command: everything `validate_closed` asks. */
  ghost predicate ClosedTuple(db: Store, t: Tuple, codec: Codec) {
    && TupleRows(db, t)
    && db.dispositions[t.delivery].reason == Some("pre_acceptance_auth_failure")
    && db.dispositions[t.delivery].session == None && db.dispositions[t.delivery].child == None
    && FailedLog(db, t, codec)
    && t.task in db.admissions && db.admissions[t.task].state == AdmissionTerminal
    && OnlyLease(db, t.task, LeaseReleased) && NothingWaits(db, t.task)
  }

  lemma OpenRowsExactly(db: Store, t: Tuple, codec: Codec)
    ensures Open(db, t, codec) <==> OpenTuple(db, t, codec)
  {
    hide OnlyLease, NothingWaits, LatestSeq, HasWork, LeasesOf, LastEvent;
    AlignedExactly(db, t.task);
    OnlyLeaseExactly(db, t.task, LeaseRecovery);
    NothingWaitsExactly(db, t.task);
  }

  lemma ClosingLogExactly(db: Store, t: Tuple, codec: Codec)
    requires TupleRows(db, t) && db.deliveries[t.delivery].acknowledgedAt.Some? && Aligned(db, t.task)
    ensures ClosingLog(db.events, t, db.tasks[t.task].version + 1, db.deliveries[t.delivery].acknowledgedAt.value, codec) <==> FailedLog(db, t, codec)
  {
    hide SeqBefore, LatestSeq;
    var n := db.tasks[t.task].version + 1;
    AlignedExactly(db, t.task);
    var before := SeqBefore(db.events, t.task, n);
    if before.Some? {
      EventBeforeExactly(db.events, t.task, n, before.value);
    }
    if FailedLog(db, t, codec) {
      var m :| EventBefore(db.events, t.task, n, m) && DispatchRow(db.events[EventKey(t.task, m)], t, codec);
      EventBeforeExactly(db.events, t.task, n, m);
    }
  }

  lemma ClosedRowsExactly(db: Store, t: Tuple, codec: Codec)
    requires DeliveryMatches(db, t) && DispositionMatches(db, t)
    ensures ChecksClosed(db, t, codec) <==> ClosedTuple(db, t, codec)
  {
    hide OnlyLease, NothingWaits, ClosingLog, FailedLog, HasWork, LeasesOf;
    AlignedExactly(db, t.task);
    OnlyLeaseExactly(db, t.task, LeaseReleased);
    NothingWaitsExactly(db, t.task);
    if TupleRows(db, t) && db.deliveries[t.delivery].acknowledgedAt.Some? {
      if Aligned(db, t.task) {
        ClosingLogExactly(db, t, codec);
      } else {
        FailedIsAligned(db, t, codec);
      }
    } else if TupleRows(db, t) {
      FailedIsAligned(db, t, codec);
    }
  }

  lemma FailedIsAligned(db: Store, t: Tuple, codec: Codec)
    requires TupleRows(db, t)
    ensures FailedLog(db, t, codec) ==> Aligned(db, t.task) && db.deliveries[t.delivery].acknowledgedAt.Some?
  {
    AlignedExactly(db, t.task);
  }

  /** The validator's answer for every tuple: open, closed by this command, or not eligible. */
  lemma ValidateExactly(db: Store, t: Tuple, codec: Codec)
    ensures Validate(db, t, codec) ==
      if OpenTuple(db, t, codec) then Ok(true)
      else if ClosedTuple(db, t, codec) then Ok(false)
      else Err(NotEligible)
    ensures !(OpenTuple(db, t, codec) && ClosedTuple(db, t, codec))
  {
    hide OnlyLease, NothingWaits, ChecksOpen, ChecksClosed, FailedLog;
    ValidateOpenExactly(db, t, codec);
    OpenRowsExactly(db, t, codec);
    if TupleRows(db, t) { FailedIsAligned(db, t, codec); }
    if DeliveryMatches(db, t) && DispositionMatches(db, t) { ClosedRowsExactly(db, t, codec); }
  }

  // --------------------------------------------------------------- outcomes

  ghost predicate AllOpenTuples(db: Store, tuples: seq<Tuple>, codec: Codec) {
    forall i :: 0 <= i < |tuples| ==> OpenTuple(db, tuples[i], codec)
  }

  ghost predicate AllClosedTuples(db: Store, tuples: seq<Tuple>, codec: Codec) {
    forall i :: 0 <= i < |tuples| ==> ClosedTuple(db, tuples[i], codec)
  }

  lemma {:induction false} ValidateAllExactly(db: Store, tuples: seq<Tuple>, codec: Codec)
    ensures var r := ValidateAll(db, tuples, codec);
      && (r.Err? ==> r.error == NotEligible)
      && (r.Err? <==> exists i :: 0 <= i < |tuples| && !OpenTuple(db, tuples[i], codec) && !ClosedTuple(db, tuples[i], codec))
      && (r.Ok? ==> (r.value == [] <==> AllClosedTuples(db, tuples, codec)))
      && (r.Ok? ==> |r.value| <= |tuples| && (|r.value| == |tuples| <==> AllOpenTuples(db, tuples, codec)))
  {
    hide OpenTuple, ClosedTuple, Validate;
    if tuples != [] {
      ValidateExactly(db, tuples[0], codec);
      ValidateAllExactly(db, tuples[1..], codec);
      assert tuples == [tuples[0]] + tuples[1..];
    }
  }

  /**
   * Every outcome but the commit itself. Nothing to do means that every tuple is closed by this command;
   * a tuple that is neither open nor so closed, or a mixture of the two, is not eligible.
   */
  lemma RecoverOutcomes(db: Store, tuples: seq<Tuple>, now: string, ids: seq<string>, codec: Codec)
    requires |ids| == |tuples|
    ensures AllClosedTuples(db, tuples, codec) && tuples != [] ==> RecoverTx(db, tuples, now, ids, codec) == Ok(Recovered(0, ReadPlanner(db), db))
    ensures !AllClosedTuples(db, tuples, codec) && !AllOpenTuples(db, tuples, codec) ==> RecoverTx(db, tuples, now, ids, codec) == Err(NotEligible)
    ensures tuples != [] && RecoverTx(db, tuples, now, ids, codec).Ok? && RecoverTx(db, tuples, now, ids, codec).value.count == 0
        ==> AllClosedTuples(db, tuples, codec)
  {
    hide OpenTuple, ClosedTuple, ReadPlanner, RemoveTargets, CloseAll, ValidateAll;
    ValidateAllExactly(db, tuples, codec);
    if tuples != [] {
      ValidateExactly(db, tuples[0], codec);
    }
  }

  /** `recover` refuses an empty list, an empty time and repeated tuples before it looks at the database. */
  lemma ArgumentsChecked(db: Store, tuples: seq<Tuple>, now: string, ids: seq<string>, codec: Codec)
    requires |ids| == |tuples|
    ensures tuples == [] || now == "" || (exists i, j :: 0 <= i < j < |tuples| && tuples[i] == tuples[j]) ==>
      Recover(db, tuples, now, ids, codec) == Err(InvalidArguments)
    ensures tuples != [] && now != "" && (forall i, j :: 0 <= i < j < |tuples| ==> tuples[i] != tuples[j]) ==>
      Recover(db, tuples, now, ids, codec) == RecoverTx(db, tuples, now, ids, codec)
  {
    hide RecoverTx;
  }

  /** The planner that a run reads: unfinished tasks, and deliveries printed as delivery, task and attempt. */
  lemma PlannerRows(db: Store)
    ensures forall t :: t in ReadPlanner(db).unfinished <==> t in db.tasks && !TaskEnded(db.events, t)
    ensures forall n :: n in ReadPlanner(db).unacknowledged <==>
      exists d :: d in db.deliveries && db.deliveries[d].acknowledgedAt == None && n == Printed(db, d)
    ensures forall n :: n in ReadPlanner(db).awaiting <==>
      exists d :: d in db.deliveries && db.deliveries[d].acknowledgedAt != None && !TaskEnded(db.events, db.deliveries[d].task) && n == Printed(db, d)
  {
    hide TaskEnded, Finished, Unfinished, Unacknowledged, Awaiting, Identity, Printed;
    PlannerExactly(db);
    forall d | d in db.deliveries
      ensures IdentityOf(db, d) == Printed(db, d)
    {
      PrintedExactly(db, d);
    }
  }

  /** `format!("{}:{}:{}", …)`. */
  ghost function Printed(db: Store, d: string): string
    requires d in db.deliveries
  {
    d + [':'] + db.deliveries[d].task + [':'] + Bytes.Decimal(db.deliveries[d].attempt)
  }

  lemma PrintedExactly(db: Store, d: string)
    requires d in db.deliveries
    ensures IdentityOf(db, d) == Printed(db, d)
  {
    hide Bytes.Decimal;
  }
}
