/** Stopping the record of a dead runtime, and the whole offline recovery pipeline. */
module RuntimeRecovery {
  import opened Prelude
  import opened Tables
  import opened PreAcceptance
  import opened PreAcceptanceProofs
  import opened PreAcceptanceTheorems
  import DR = DeliveryReconciliation
  import TC = TerminalClosure

  datatype StaleError = StaleArguments | StaleDatabase | OwnerIdentity | MultipleOwners | StaleWorkPresent | StaleFenced | NotStale

  datatype Outcome = RuntimeRecovered | AlreadyStopped

  // The counting queries, each as "the count is zero".

  predicate AdmissionsOver(db: Store) {
    forall t :: t in db.admissions ==> db.admissions[t].state in {AdmissionTerminal, AdmissionRecovery}
  }

  predicate QueueOver(db: Store) {
    forall q :: q in db.queue ==> !OpenWork(db.queue[q])
  }

  predicate LeasesOver(db: Store) {
    forall k :: k in db.leases ==> db.leases[k].state == LeaseReleased
  }

  predicate ContinuationsOver(db: Store) {
    forall t :: t in db.continuations ==> db.continuations[t].state == ContinuationTerminal
  }

  predicate DeliveryOver(db: Store, d: string)
    requires d in db.deliveries
  {
    db.deliveries[d].acknowledgedAt.Some? && d in db.dispositions && db.dispositions[d].state == DispositionTerminal
  }

  predicate DeliveriesOver(db: Store) {
    forall d :: d in db.deliveries ==> DeliveryOver(db, d)
  }

  predicate PlannerEmpty(db: Store) {
    Unfinished(db) == {} && Unacknowledged(db) == {} && Awaiting(db) == {}
  }

  predicate NoWork(db: Store) {
    && AdmissionsOver(db) && QueueOver(db) && LeasesOver(db) && ContinuationsOver(db)
    && DeliveriesOver(db) && PlannerEmpty(db)
  }

  /** `recover_stale_runtime`. */
  function StopRuntime(db: Store, token: string, fingerprint: string, now: string): Result<(Outcome, Store), StaleError> {
    if token == [] || fingerprint == [] || now == [] then Err(StaleArguments)
    else if |LiveOwners(db)| > 1 then Err(MultipleOwners)
    else if token !in db.runtimes || db.runtimes[token].fingerprint != fingerprint then Err(OwnerIdentity)
    else if db.runtimes[token].state == OwnerStopped then Ok((AlreadyStopped, db))
    else if !NoWork(db) then Err(StaleWorkPresent)
    else Ok((RuntimeRecovered, OwnerStoppedAt(db, token, now)))
  }

  /** `recover_proven_stale_runtime`, which asks for a heartbeat in the past and looks at fewer tables. */
  function StopProvenStale(db: Store, token: string, fingerprint: string, now: string, codec: Codec): Result<(Outcome, Store), StaleError> {
    if token == [] || fingerprint == [] || now == [] || codec.parseTime(now).None? then Err(StaleArguments)
    else if token !in db.runtimes then Err(OwnerIdentity)
    else
      var row := db.runtimes[token];
      if codec.parseTime(row.heartbeatAt).None? then Err(StaleDatabase)
      else if row.fingerprint != fingerprint || !Live(row) then Err(OwnerIdentity)
      else if |LiveOwners(db)| != 1 then Err(MultipleOwners)
      else if codec.parseTime(row.heartbeatAt).value.nanoseconds >= codec.parseTime(now).value.nanoseconds then Err(NotStale)
      else if !LeasesOver(db) || !ContinuationsOver(db) || !AdmissionsOver(db) || !QueueOver(db) then Err(StaleWorkPresent)
      else Ok((RuntimeRecovered, OwnerStoppedAt(db, token, codec.formatTime(codec.parseTime(now).value))))
  }

  /** `recover_in_transaction_inner` on the transaction's copy: count, compare, then one guarded update. */
  method StopInTransaction(tx: TC.Transaction, token: string, fingerprint: string, now: string) returns (r: Result<Outcome, StaleError>)
    requires token != [] && fingerprint != [] && now != []
    modifies tx
    ensures r.Ok? <==> StopRuntime(old(tx.db), token, fingerprint, now).Ok?
    ensures r.Ok? ==> (r.value, tx.db) == StopRuntime(old(tx.db), token, fingerprint, now).value
    ensures r.Err? ==> r.error == StopRuntime(old(tx.db), token, fingerprint, now).error
  {
    var live := |LiveOwners(tx.db)|;
    if live > 1 {
      return Err(MultipleOwners);
    }
    if token !in tx.db.runtimes {
      return Err(OwnerIdentity);
    }
    var owner := tx.db.runtimes[token];
    if owner.fingerprint != fingerprint {
      return Err(OwnerIdentity);
    }
    if owner.state == OwnerStopped {
      return Ok(AlreadyStopped);
    }
    if !AdmissionsOver(tx.db) || !QueueOver(tx.db) || !LeasesOver(tx.db) || !ContinuationsOver(tx.db) {
      return Err(StaleWorkPresent);
    }
    if !DeliveriesOver(tx.db) || Unfinished(tx.db) != {} || Unacknowledged(tx.db) != {} || Awaiting(tx.db) != {} {
      return Err(StaleWorkPresent);
    }
    tx.db := tx.db.(runtimes := tx.db.runtimes[token := owner.(state := OwnerStopped, heartbeatAt := now)]);
    return Ok(RuntimeRecovered);
  }

  // ------------------------------------------------------------- properties

  /**
   * The two commands on one live owner with a heartbeat in the past: they can disagree in one way only.
   * The proven-stale command goes ahead although deliveries or tasks are open, which the other refuses.
   */
  lemma StaleCommandsCompared(db: Store, token: string, fingerprint: string, now: string, codec: Codec)
    requires WellFormed(db) && token != [] && fingerprint != [] && now != [] && codec.parseTime(now).Some?
    requires token in db.runtimes && Live(db.runtimes[token]) && db.runtimes[token].fingerprint == fingerprint
    requires codec.parseTime(db.runtimes[token].heartbeatAt).Some?
    requires codec.parseTime(db.runtimes[token].heartbeatAt).value.nanoseconds < codec.parseTime(now).value.nanoseconds
    requires LiveOwners(db) == {token}
    ensures StopRuntime(db, token, fingerprint, now).Ok? ==> StopProvenStale(db, token, fingerprint, now, codec).Ok?
    ensures StopProvenStale(db, token, fingerprint, now, codec).Ok? && StopRuntime(db, token, fingerprint, now).Err? <==>
      && LeasesOver(db) && ContinuationsOver(db) && AdmissionsOver(db) && QueueOver(db)
      && !(DeliveriesOver(db) && Unfinished(db) == {})
  {
    hide Finished, LeasesOver, ContinuationsOver, AdmissionsOver, QueueOver;
    if DeliveriesOver(db) && Unfinished(db) == {} {
      NothingPlanned(db);
    }
  }

  lemma NothingPlanned(db: Store)
    requires WellFormed(db) && DeliveriesOver(db) && Unfinished(db) == {}
    ensures PlannerEmpty(db)
  {
    hide Finished;
    assert forall d :: d in db.deliveries ==> DeliveryOver(db, d) && db.deliveries[d].task !in Unfinished(db);
  }

  /** The targets are the only open work in the database. */
  ghost predicate OnlyWork(db: Store, tuples: seq<Tuple>) {
    && (forall t :: t in db.admissions && t !in TaskSet(tuples) ==> db.admissions[t].state in {AdmissionTerminal, AdmissionRecovery})
    && (forall k :: k in db.leases && db.leases[k].task !in TaskSet(tuples) ==> db.leases[k].state == LeaseReleased)
    && QueueOver(db) && ContinuationsOver(db)
    && (forall d :: d in db.deliveries && d !in DeliverySet(tuples) ==> DeliveryOver(db, d))
    && Unfinished(db) <= TaskSet(tuples)
  }

  /** An open tuple is work: recovery refuses to stop the runtime. */
  lemma OpenTupleBlocks(db: Store, t: Tuple, codec: Codec, token: string, fingerprint: string, now: string)
    requires Open(db, t, codec) && token != [] && fingerprint != [] && now != []
    requires LiveOwners(db) == {token} && db.runtimes[token].fingerprint == fingerprint
    ensures StopRuntime(db, token, fingerprint, now) == Err(StaleWorkPresent)
  {
  }

  lemma ClosedIsSettled(db: Store, t: Tuple, codec: Codec)
    requires Closed(db, t, codec)
    ensures DR.Settled(db, t) && t.delivery in db.deliveries && DeliveryOver(db, t.delivery)
    ensures db.admissions[t.task].state == AdmissionTerminal
    ensures forall k :: k in db.leases && db.leases[k].task == t.task ==> db.leases[k].state == LeaseReleased
    ensures t.delivery !in Unacknowledged(db)
  {
    var only := Only(LeasesOf(db, t.task));
    assert forall k :: k in db.leases && db.leases[k].task == t.task ==> k in LeasesOf(db, t.task);
    assert forall q :: q in db.queue ==> db.queue[q].task != t.task;
    assert DR.TaskQuiet(db, t.task);
    ClosedIsFinished(db, t, codec);
  }

  lemma ClosedIsFinished(db: Store, t: Tuple, codec: Codec)
    requires Closed(db, t, codec)
    ensures Finished(db.events, t.task)
  {
  }

  /** Reconciling the deliveries that recovery closed is a no-op at any time. */
  lemma ClosedNeedsNoReconciliation(db: Store, tuples: seq<Tuple>, now: string, codec: Codec)
    requires AllClosed(db, tuples, codec) && tuples != [] && now != []
    ensures DR.Reconcile(db, tuples, now) == Ok((|tuples|, db))
  {
    hide Closed, DR.Settled, DR.Reconcile, DR.SettledStore, DeliveryOver;
    var ds := DeliverySet(tuples);
    forall i | 0 <= i < |tuples|
      ensures DR.Settled(db, tuples[i]) && DR.TimelyRow(db, tuples[i].delivery, now)
    {
      assert Closed(db, tuples[i], codec);
      ClosedIsSettled(db, tuples[i], codec);
    }
    DR.ReconcileExactly(db, tuples, now);
    forall d | d in ds
      ensures d in db.deliveries && DeliveryOver(db, d)
    {
      DR.DeliverySetMembers(tuples, d);
      var i :| 0 <= i < |tuples| && tuples[i].delivery == d;
      assert Closed(db, tuples[i], codec);
      ClosedIsSettled(db, tuples[i], codec);
    }
    OverIsFixed(db, ds, now);
  }

  lemma OverIsFixed(db: Store, ds: set<string>, now: string)
    requires forall d :: d in ds ==> d in db.deliveries && DeliveryOver(db, d)
    ensures DR.SettledStore(db, ds, now) == db
  {
  }

  /** Nothing is open once a batch that was the only work has been committed. */
  lemma NothingLeft(db: Store, tuples: seq<Tuple>, codec: Codec, r: Recovered)
    requires WellFormed(db) && OnlyWork(db, tuples) && AllMatch(db, tuples) && Committed(db, tuples, codec, r)
    requires OtherAcknowledged(db, tuples) == {}
    ensures NoWork(r.db)
  {
    hide Finished, Closed;
    TasksOver(db, tuples, codec, r);
    DeliveriesAllOver(db, tuples, codec, r);
    hide Untouched;
    assert Unfinished(r.db) == {};
    assert forall d :: d in Awaiting(db) ==> d in OtherAcknowledged(db, tuples) by {
      assert forall d :: d in Awaiting(db) ==> db.deliveries[d].task in Unfinished(db);
    }
    assert Awaiting(r.db) == {};
    assert forall d :: d in r.db.deliveries ==> DeliveryOver(r.db, d);
    assert Unacknowledged(r.db) == {};
  }

  lemma TasksOver(db: Store, tuples: seq<Tuple>, codec: Codec, r: Recovered)
    requires OnlyWork(db, tuples) && Committed(db, tuples, codec, r)
    ensures AdmissionsOver(r.db) && LeasesOver(r.db) && QueueOver(r.db) && ContinuationsOver(r.db)
  {
    hide Closed, Finished, Unfinished, Unacknowledged, Awaiting, DeliveryOver, DR.Settled;
    forall x | x in TaskSet(tuples)
      ensures x in r.db.admissions ==> r.db.admissions[x].state == AdmissionTerminal
      ensures forall k :: k in r.db.leases && r.db.leases[k].task == x ==> r.db.leases[k].state == LeaseReleased
    {
      TaskSetMembers(tuples, x);
      var i :| 0 <= i < |tuples| && tuples[i].task == x;
      assert Closed(r.db, tuples[i], codec);
      ClosedIsSettled(r.db, tuples[i], codec);
    }
    assert forall x :: x !in TaskSet(tuples) ==> SameRow(db.admissions, r.db.admissions, x);
  }

  lemma DeliveriesAllOver(db: Store, tuples: seq<Tuple>, codec: Codec, r: Recovered)
    requires WellFormed(db) && OnlyWork(db, tuples) && AllMatch(db, tuples) && Committed(db, tuples, codec, r)
    requires OtherAcknowledged(db, tuples) == {}
    ensures DeliveriesOver(r.db)
  {
    hide Closed, Finished, Unfinished, Unacknowledged, Awaiting, DR.Settled, WellFormed;
    forall d | d in r.db.deliveries
      ensures DeliveryOver(r.db, d)
    {
      if d in DeliverySet(tuples) {
        DR.DeliverySetMembers(tuples, d);
        var i :| 0 <= i < |tuples| && tuples[i].delivery == d;
        assert Closed(r.db, tuples[i], codec);
        ClosedIsSettled(r.db, tuples[i], codec);
      } else {
        assert DeliveryOver(db, d);
        assert d !in OtherAcknowledged(db, tuples);
        assert SameRow(db.dispositions, r.db.dispositions, d);
      }
    }
  }

  /**
   * The pipeline. While the targets are the only open work and one runtime is live, stopping that runtime
   * is refused. Once recovery of the targets commits, reconciling the same deliveries changes nothing and
   * stopping the runtime succeeds, leaving no live runtime.
   */
  lemma Pipeline(db: Store, tuples: seq<Tuple>, now: string, ids: seq<string>, codec: Codec,
                 token: string, fingerprint: string, later: string)
    requires WellFormed(db) && PlainIds(db) && Sound(codec) && |ids| == |tuples| && FreshIds(db.events, ids)
    requires tuples != [] && Distinct(tuples) && AllOpen(db, tuples, codec) && OnlyWork(db, tuples)
    requires LiveOwners(db) == {token} && db.runtimes[token].fingerprint == fingerprint
    requires token != [] && fingerprint != [] && later != []
    requires RecoverTx(db, tuples, now, ids, codec).Ok?
    ensures StopRuntime(db, token, fingerprint, later) == Err(StaleWorkPresent)
    ensures var closed := RecoverTx(db, tuples, now, ids, codec).value.db;
      && DR.Reconcile(closed, tuples, later) == Ok((|tuples|, closed))
      && token in closed.runtimes
      && StopRuntime(closed, token, fingerprint, later) == Ok((RuntimeRecovered, OwnerStoppedAt(closed, token, later)))
      && LiveOwners(OwnerStoppedAt(closed, token, later)) == {}
  {
    hide Open, RecoverTx, WellFormed, PlainIds, Sound, FreshIds, OnlyWork, Committed, NoWork, DR.Reconcile, AllClosable, OtherAcknowledged, AllMatch;
    assert Open(db, tuples[0], codec);
    OpenTupleBlocks(db, tuples[0], codec, token, fingerprint, later);
    CommitExactly(db, tuples, now, ids, codec);
    OpenMatches(db, tuples, codec);
    var r := RecoverTx(db, tuples, now, ids, codec).value;
    NothingLeft(db, tuples, codec, r);
    RuntimesKept(db, tuples, codec, r);
    ClosedNeedsNoReconciliation(r.db, tuples, later, codec);
    assert token in LiveOwners(db) && LiveOwners(r.db) == LiveOwners(db);
    assert forall k :: k in r.db.runtimes && k != token ==> k !in LiveOwners(r.db);
  }

  lemma RuntimesKept(db: Store, tuples: seq<Tuple>, codec: Codec, r: Recovered)
    requires Committed(db, tuples, codec, r)
    ensures r.db.runtimes == db.runtimes && AllClosed(r.db, tuples, codec)
  {
  }
}
