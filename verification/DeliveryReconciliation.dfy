/** Offline acknowledgement of deliveries whose tasks are already over. */
module DeliveryReconciliation {
  import opened Prelude
  import opened Tables
  import opened PreAcceptance
  import opened PreAcceptanceProofs
  import TC = TerminalClosure

  datatype ReconcileError = BadArguments | DatabaseFault | WorkPresent | ReconcileFenced

  const RECONCILED: string := "offline_reconciled"

  predicate TaskQuiet(db: Store, task: string) {
    && (forall q :: q in db.queue && db.queue[q].task == task ==> !OpenWork(db.queue[q]))
    && (forall k :: k in db.leases && db.leases[k].task == task ==> db.leases[k].state == LeaseReleased)
    && (task in db.continuations ==> db.continuations[task].state == ContinuationTerminal)
  }

  /** The checks of the first loop, none of which looks at the acknowledgement. */
  predicate Settled(db: Store, t: Tuple) {
    && DeliveryMatches(db, t)
    && Finished(db.events, t.task) && AdmissionIs(db, t.task, AdmissionTerminal)
    && TaskQuiet(db, t.task)
    && DispositionMatches(db, t)
  }

  function AcknowledgeRow(row: Delivery, now: string): Delivery {
    if row.acknowledgedAt.None? then row.(acknowledgedAt := Some(now)) else row
  }

  function SettleRow(row: Disposition): Disposition {
    if row.state != DispositionTerminal then row.(state := DispositionTerminal, reason := Some(RECONCILED)) else row
  }

  /** The body of the second loop: the new store and how many rows were newly acknowledged. */
  function SettleOne(db: Store, t: Tuple, now: string): Result<(Store, nat), ReconcileError> {
    if !DeliveryMatches(db, t) then
      Err(DatabaseFault)
    else
      var row := db.deliveries[t.delivery];
      if row.acknowledgedAt.None? && !TextAtMost(row.dispatchedAt, now) then
        Err(DatabaseFault)
      else if !DispositionMatches(db, t) then
        Err(ReconcileFenced)
      else
        Ok((db.(deliveries := db.deliveries[t.delivery := AcknowledgeRow(row, now)],
                dispositions := db.dispositions[t.delivery := SettleRow(db.dispositions[t.delivery])]),
            if row.acknowledgedAt.None? then 1 else 0))
  }

  function SettleAll(db: Store, tuples: seq<Tuple>, now: string): Result<(Store, nat), ReconcileError>
    decreases tuples
  {
    if tuples == [] then
      Ok((db, 0))
    else
      var first :- SettleOne(db, tuples[0], now);
      var rest :- SettleAll(first.0, tuples[1..], now);
      Ok((rest.0, first.1 + rest.1))
  }

  datatype Counts = Counts(unfinished: nat, unacknowledged: nat, awaiting: nat)

  function PlannerCounts(db: Store): Counts {
    Counts(|Unfinished(db)|, |Unacknowledged(db)|, |Awaiting(db)|)
  }

  predicate CountsAgree(before: Counts, after: Counts, newly: nat) {
    && after.unfinished == before.unfinished && after.awaiting == before.awaiting
    && after.unacknowledged == before.unacknowledged - newly
  }

  /** `reconcile` as a whole: the number of tuples and the store to install. */
  function Reconcile(db: Store, tuples: seq<Tuple>, now: string): Result<(nat, Store), ReconcileError> {
    if tuples == [] || now == [] then
      Err(BadArguments)
    else if exists i :: 0 <= i < |tuples| && !Settled(db, tuples[i]) then
      Err(WorkPresent)
    else
      var done :- SettleAll(db, tuples, now);
      if !CountsAgree(PlannerCounts(db), PlannerCounts(done.0), done.1) then Err(ReconcileFenced)
      else Ok((|tuples|, done.0))
  }

  // ---------------------------------------------------- the imperative form

  method SettleTuple(tx: TC.Transaction, t: Tuple, now: string) returns (r: Result<nat, ReconcileError>)
    modifies tx
    ensures r.Ok? <==> SettleOne(old(tx.db), t, now).Ok?
    ensures r.Ok? ==> (tx.db, r.value) == SettleOne(old(tx.db), t, now).value
    ensures r.Err? ==> r.error == SettleOne(old(tx.db), t, now).error
  {
    if !DeliveryMatches(tx.db, t) {
      return Err(DatabaseFault);
    }
    var row := tx.db.deliveries[t.delivery];
    var newly := 0;
    if row.acknowledgedAt.None? {
      if !TextAtMost(row.dispatchedAt, now) {
        return Err(DatabaseFault);
      }
      newly := 1;
    }
    tx.db := tx.db.(deliveries := tx.db.deliveries[t.delivery := AcknowledgeRow(row, now)]);
    if !DispositionMatches(tx.db, t) {
      return Err(ReconcileFenced);
    }
    tx.db := tx.db.(dispositions := tx.db.dispositions[t.delivery := SettleRow(tx.db.dispositions[t.delivery])]);
    return Ok(newly);
  }

  ghost function Adding(newly: nat, rest: Result<(Store, nat), ReconcileError>): Result<(Store, nat), ReconcileError> {
    if rest.Ok? then Ok((rest.value.0, newly + rest.value.1)) else rest
  }

  /** `reconcile_tx_inner` on the transaction's copy. */
  method ReconcileInTransaction(tx: TC.Transaction, tuples: seq<Tuple>, now: string) returns (r: Result<nat, ReconcileError>)
    requires tuples != [] && now != []
    modifies tx
    ensures r.Ok? <==> Reconcile(old(tx.db), tuples, now).Ok?
    ensures r.Ok? ==> (r.value, tx.db) == Reconcile(old(tx.db), tuples, now).value
    ensures r.Err? ==> r.error == Reconcile(old(tx.db), tuples, now).error
  {
    hide Settled, SettleOne, PlannerCounts, CountsAgree;
    var before := PlannerCounts(tx.db);
    for i := 0 to |tuples|
      invariant tx.db == old(tx.db)
      invariant forall j :: 0 <= j < i ==> Settled(old(tx.db), tuples[j])
    {
      if !Settled(tx.db, tuples[i]) {
        return Err(WorkPresent);
      }
    }
    var newly: nat := 0;
    ghost var all := SettleAll(tx.db, tuples, now);
    assert tuples[0..] == tuples;
    for i := 0 to |tuples|
      invariant all == Adding(newly, SettleAll(tx.db, tuples[i..], now))
    {
      assert tuples[i..][0] == tuples[i] && tuples[i..][1..] == tuples[i + 1..];
      var done := SettleTuple(tx, tuples[i], now);
      if done.Err? {
        return Err(done.error);
      }
      newly := newly + done.value;
    }
    var after := PlannerCounts(tx.db);
    if !CountsAgree(before, after, newly) {
      return Err(ReconcileFenced);
    }
    return Ok(|tuples|);
  }

  // ------------------------------------------------------------- properties

  ghost predicate AllSettled(db: Store, tuples: seq<Tuple>) {
    forall i :: 0 <= i < |tuples| ==> Settled(db, tuples[i])
  }

  /** Every target still to be acknowledged was dispatched no later than `now` (CHECK on the table). */
  ghost predicate Timely(db: Store, tuples: seq<Tuple>, now: string) {
    forall i :: 0 <= i < |tuples| ==> TimelyRow(db, tuples[i].delivery, now)
  }

  ghost predicate TimelyRow(db: Store, d: string, now: string) {
    d in db.deliveries && db.deliveries[d].acknowledgedAt.None? ==> TextAtMost(db.deliveries[d].dispatchedAt, now)
  }

  /** The store in which exactly the deliveries `ds` are acknowledged and settled. */
  ghost function SettledStore(db: Store, ds: set<string>, now: string): Store {
    db.(deliveries := map d | d in db.deliveries :: if d in ds then AcknowledgeRow(db.deliveries[d], now) else db.deliveries[d],
        dispositions := map d | d in db.dispositions :: if d in ds then SettleRow(db.dispositions[d]) else db.dispositions[d])
  }

  lemma SettleOneExactly(db: Store, t: Tuple, now: string)
    requires Settled(db, t)
    ensures SettleOne(db, t, now).Ok? <==> TimelyRow(db, t.delivery, now)
    ensures SettleOne(db, t, now).Err? ==> SettleOne(db, t, now).error == DatabaseFault
    ensures SettleOne(db, t, now).Ok? ==>
      && SettleOne(db, t, now).value.0 == SettledStore(db, {t.delivery}, now)
      && SettleOne(db, t, now).value.1 == |Unacknowledged(db) * {t.delivery}|
  {
    hide Finished, TaskQuiet;
    var after := SettledStore(db, {t.delivery}, now);
    assert after.deliveries == db.deliveries[t.delivery := AcknowledgeRow(db.deliveries[t.delivery], now)];
    assert after.dispositions == db.dispositions[t.delivery := SettleRow(db.dispositions[t.delivery])];
    var hit := Unacknowledged(db) * {t.delivery};
    assert hit == if db.deliveries[t.delivery].acknowledgedAt.None? then {t.delivery} else {};
  }

  lemma SettledCompose(db: Store, a: set<string>, b: set<string>, now: string)
    ensures SettledStore(SettledStore(db, a, now), b, now) == SettledStore(db, a + b, now)
  {
  }

  lemma SettlingKeepsChecks(db: Store, ds: set<string>, now: string, t: Tuple)
    ensures Settled(SettledStore(db, ds, now), t) <==> Settled(db, t)
  {
  }

  lemma UnacknowledgedAfter(db: Store, ds: set<string>, now: string)
    ensures Unacknowledged(SettledStore(db, ds, now)) == Unacknowledged(db) - ds
  {
  }

  lemma SettleCount(u: set<string>, d: string, rest: set<string>)
    ensures |u * ({d} + rest)| == |u * {d}| + |(u - {d}) * rest|
  {
    assert u * ({d} + rest) == u * {d} + (u - {d}) * rest;
  }

  /** The second loop fails only for an untimely row, and settles exactly the targets however often they repeat. */
  lemma {:induction false} SettleAllExactly(db: Store, tuples: seq<Tuple>, now: string)
    requires AllSettled(db, tuples)
    ensures SettleAll(db, tuples, now).Ok? <==> Timely(db, tuples, now)
    ensures SettleAll(db, tuples, now).Err? ==> SettleAll(db, tuples, now).error == DatabaseFault
    ensures SettleAll(db, tuples, now).Ok? ==>
      && SettleAll(db, tuples, now).value.0 == SettledStore(db, DeliverySet(tuples), now)
      && SettleAll(db, tuples, now).value.1 == |Unacknowledged(db) * DeliverySet(tuples)|
    decreases tuples
  {
    hide Settled, SettleOne, SettledStore, Unacknowledged, TimelyRow;
    if tuples == [] {
      NothingSettled(db, now);
      assert Unacknowledged(db) * {} == {};
    } else {
      var t, rest := tuples[0], tuples[1..];
      assert Settled(db, t);
      assert tuples == [t] + rest;
      SettleOneExactly(db, t, now);
      if TimelyRow(db, t.delivery, now) {
        var next := SettledStore(db, {t.delivery}, now);
        forall i | 0 <= i < |rest|
          ensures Settled(next, rest[i])
          ensures TimelyRow(next, rest[i].delivery, now) <==> TimelyRow(db, rest[i].delivery, now)
        {
          assert Settled(db, tuples[i + 1]);
          SettlingKeepsChecks(db, {t.delivery}, now, rest[i]);
          TimelyKept(db, t.delivery, now, rest[i].delivery);
        }
        SettleAllExactly(next, rest, now);
        SettledCompose(db, {t.delivery}, DeliverySet(rest), now);
        UnacknowledgedAfter(db, {t.delivery}, now);
        SettleCount(Unacknowledged(db), t.delivery, DeliverySet(rest));
      }
    }
  }

  lemma NothingSettled(db: Store, now: string)
    ensures SettledStore(db, {}, now) == db
  {
  }

  lemma TimelyKept(db: Store, d: string, now: string, e: string)
    requires TimelyRow(db, d, now)
    ensures TimelyRow(SettledStore(db, {d}, now), e, now) <==> TimelyRow(db, e, now)
  {
  }

  lemma {:induction false} DeliverySetMembers(tuples: seq<Tuple>, d: string)
    requires d in DeliverySet(tuples)
    ensures exists i :: 0 <= i < |tuples| && tuples[i].delivery == d
  {
    if d != tuples[0].delivery {
      DeliverySetMembers(tuples[1..], d);
      var i :| 0 <= i < |tuples[1..]| && tuples[1..][i].delivery == d;
      assert tuples[i + 1].delivery == d;
    }
  }

  lemma PlannerConserved(db: Store, tuples: seq<Tuple>, now: string)
    requires AllSettled(db, tuples)
    ensures var after := SettledStore(db, DeliverySet(tuples), now);
      && Unfinished(after) == Unfinished(db) && Awaiting(after) == Awaiting(db)
      && Unacknowledged(after) == Unacknowledged(db) - DeliverySet(tuples)
  {
    hide Finished, TaskQuiet;
    var ds := DeliverySet(tuples);
    var after := SettledStore(db, ds, now);
    UnacknowledgedAfter(db, ds, now);
    assert Unfinished(after) == Unfinished(db);
    forall d | d in ds
      ensures d in db.deliveries && Finished(db.events, db.deliveries[d].task)
    {
      DeliverySetMembers(tuples, d);
      var i :| 0 <= i < |tuples| && tuples[i].delivery == d;
      assert Settled(db, tuples[i]);
    }
    assert forall d :: d in Awaiting(after) <==> d in Awaiting(db);
  }

  lemma CutSize(u: set<string>, ds: set<string>)
    ensures |u - ds| == |u| - |u * ds|
  {
  }

  /**
   * Exactly when reconciliation succeeds and what it does. The last comparison of planner counts never
   * fails: unfinished and awaiting are unchanged and the unacknowledged set loses exactly the targets.
   */
  lemma ReconcileExactly(db: Store, tuples: seq<Tuple>, now: string)
    requires tuples != [] && now != []
    ensures Reconcile(db, tuples, now) ==
      if !AllSettled(db, tuples) then Err(WorkPresent)
      else if !Timely(db, tuples, now) then Err(DatabaseFault)
      else Ok((|tuples|, SettledStore(db, DeliverySet(tuples), now)))
    ensures Reconcile(db, tuples, now).Ok? ==>
      var after := Reconcile(db, tuples, now).value.1;
      && Unfinished(after) == Unfinished(db) && Awaiting(after) == Awaiting(db)
      && Unacknowledged(after) == Unacknowledged(db) - DeliverySet(tuples)
  {
    hide Settled, SettleAll, SettledStore, Unacknowledged, Unfinished, Awaiting, Timely;
    if AllSettled(db, tuples) {
      SettleAllExactly(db, tuples, now);
      PlannerConserved(db, tuples, now);
      CutSize(Unacknowledged(db), DeliverySet(tuples));
    }
  }

  /** Running it again, at any time, changes nothing. */
  lemma ReconcileIsIdempotent(db: Store, tuples: seq<Tuple>, now: string, now': string)
    requires Reconcile(db, tuples, now).Ok? && now' != []
    ensures var after := Reconcile(db, tuples, now).value.1;
      Reconcile(after, tuples, now') == Ok((|tuples|, after))
  {
    hide Settled, Reconcile, SettledStore;
    assert tuples != [] && now != [] by { ReconcileArguments(db, tuples, now); }
    ReconcileExactly(db, tuples, now);
    var ds := DeliverySet(tuples);
    var after := SettledStore(db, ds, now);
    forall i | 0 <= i < |tuples|
      ensures Settled(after, tuples[i])
      ensures TimelyRow(after, tuples[i].delivery, now')
    {
      assert Settled(db, tuples[i]);
      SettlingKeepsChecks(db, ds, now, tuples[i]);
      UnacknowledgedAfter(db, ds, now);
      assert tuples[i].delivery !in Unacknowledged(after);
    }
    ReconcileExactly(after, tuples, now');
    SettledTwice(db, ds, now, now');
  }

  lemma ReconcileArguments(db: Store, tuples: seq<Tuple>, now: string)
    requires Reconcile(db, tuples, now).Ok?
    ensures tuples != [] && now != []
  {
  }

  lemma SettledTwice(db: Store, ds: set<string>, now: string, now': string)
    ensures SettledStore(SettledStore(db, ds, now), ds, now') == SettledStore(db, ds, now)
  {
  }
}
