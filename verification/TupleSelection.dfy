/** The read-only selector, written apart from the recovery validator, and how the two agree. */
module TupleSelection {
  import opened Prelude
  import opened Tables
  import opened PreAcceptance
  import opened PreAcceptanceProofs
  import opened PreAcceptanceTheorems

  datatype Cause =
    AdmissionRuntimeMissing | LeaseIdentityInvalid | LeaseOwnerMismatch | LeaseCardinality | PlannerParity

  datatype SelectionError = NothingFound | SeveralFound | MalformedRow | Conflicting(causes: set<Cause>) | Nonterminal

  // ------------------------------------------------------------- one tuple

  predicate IdentityValid(resource: string, l: Lease) {
    resource != "" && l.owner != "" && l.fence >= 1 && l.expiresAt != ""
  }

  function LeaseConflict(resource: string, l: Lease, runtime: Option<string>): set<Cause> {
    if !IdentityValid(resource, l) then {LeaseIdentityInvalid}
    else if runtime.Some? && l.owner != runtime.value then {LeaseOwnerMismatch}
    else {}
  }

  function LeaseConflicts(db: Store, leases: set<string>, runtime: Option<string>): set<Cause>
    requires leases <= db.leases.Keys
  {
    set k, c | k in leases && c in LeaseConflict(k, db.leases[k], runtime) :: c
  }

  function EarlyConflicts(db: Store, task: string, runtime: Option<string>): set<Cause> {
    (if runtime.None? then {AdmissionRuntimeMissing} else {})
    + LeaseConflicts(db, RecoveryLeases(db, task), runtime)
    + (if |LeasesOf(db, task)| != 1 then {LeaseCardinality} else {})
  }

  predicate PreparedClean(db: Store, t: Tuple) {
    && DispositionMatches(db, t)
    && var d := db.dispositions[t.delivery];
       d.state == DispositionPrepared && NoEvidence(d) && d.reapStatus.None?
  }

  predicate Planned(db: Store, t: Tuple) {
    t.task in Unfinished(db) && t.delivery in Unacknowledged(db) && t.delivery !in Awaiting(db)
  }

  function Verdict(conflicts: set<Cause>, otherwise: bool): Result<bool, SelectionError> {
    if conflicts == {} then Ok(otherwise) else Err(Conflicting(conflicts))
  }

  /** `prove_candidate`. */
  function Prove(db: Store, t: Tuple, codec: Codec): Result<bool, SelectionError> {
    var at := LatestSeq(db.events, t.task);
    if at.None? then
      Err(Nonterminal)
    else if db.events[EventKey(t.task, at.value)].status != Dispatched then
      Ok(false)
    else if !DispatchEvent(db.events[EventKey(t.task, at.value)], t, codec) then
      Err(MalformedRow)
    else
      ProveRows(db, t)
  }

  /** The rest of `prove_candidate`, once the latest event is this tuple's dispatch. */
  function ProveRows(db: Store, t: Tuple): Result<bool, SelectionError> {
    if !AdmissionIs(db, t.task, AdmissionDispatching) || db.admissions[t.task].revision < 0 then
      Ok(false)
    else
      var conflicts := EarlyConflicts(db, t.task, db.admissions[t.task].runtime);
      if RecoveryLeases(db, t.task) == {} && conflicts == {} then
        Ok(false)
      else if !PreparedClean(db, t) || !NothingQueued(db, t.task) then
        Verdict(conflicts, false)
      else
        Verdict(conflicts + (if Planned(db, t) then {} else {PlannerParity}), true)
  }

  /** The task's only lease names the admission's runtime and has a usable identity. */
  predicate OwnerIdentified(db: Store, task: string)
    requires task in db.admissions
  {
    |LeasesOf(db, task)| == 1 &&
    var k := Only(LeasesOf(db, task));
    IdentityValid(k, db.leases[k]) && db.admissions[task].runtime == Some(db.leases[k].owner)
  }

  lemma SoleLeaseConflicts(db: Store, task: string, runtime: Option<string>)
    requires RecoveryLeases(db, task) != {}
    ensures EarlyConflicts(db, task, runtime) == {} <==>
      && runtime.Some? && |LeasesOf(db, task)| == 1
      && var k := Only(LeasesOf(db, task)); IdentityValid(k, db.leases[k]) && db.leases[k].owner == runtime.value
  {
    assert RecoveryLeases(db, task) <= LeasesOf(db, task);
    if |LeasesOf(db, task)| == 1 {
      var k := Only(LeasesOf(db, task));
      var j :| j in RecoveryLeases(db, task);
      assert j in LeasesOf(db, task);
      assert RecoveryLeases(db, task) == {k};
      var all, one := LeaseConflicts(db, RecoveryLeases(db, task), runtime), LeaseConflict(k, db.leases[k], runtime);
      assert forall c :: c in all ==> c in one;
      assert forall c :: c in one ==> c in all;
      assert all == one;
    } else {
      assert LeaseCardinality in EarlyConflicts(db, task, runtime);
    }
  }

  lemma SoleLeaseState(db: Store, task: string)
    ensures HasOneLease(db, task, LeaseRecovery) <==> |LeasesOf(db, task)| == 1 && RecoveryLeases(db, task) != {}
  {
    assert RecoveryLeases(db, task) <= LeasesOf(db, task);
    if |LeasesOf(db, task)| == 1 {
      var k := Only(LeasesOf(db, task));
      assert k in LeasesOf(db, task);
      assert k in RecoveryLeases(db, task) <==> db.leases[k].state == LeaseRecovery;
      if RecoveryLeases(db, task) != {} {
        var j :| j in RecoveryLeases(db, task);
        assert j in LeasesOf(db, task);
      }
    }
  }

  predicate NoReap(db: Store, t: Tuple) {
    t.delivery in db.dispositions && db.dispositions[t.delivery].reapStatus.None?
  }

  /**
   * Selection against recovery. On a log that obeys the version law, the selector accepts a delivery
   * exactly when the recovery validator calls it open, its disposition was never reaped and its lease
   * names the admitted runtime.
   */
  lemma ProveExactly(db: Store, t: Tuple, codec: Codec)
    requires WellFormed(db) && DeliveryMatches(db, t) && db.deliveries[t.delivery].acknowledgedAt.None?
    requires Aligned(db, t.task)
    ensures Prove(db, t, codec) == Ok(true) <==>
      Validate(db, t, codec) == Ok(true) && NoReap(db, t) && OwnerIdentified(db, t.task)
  {
    hide EarlyConflicts, HasOneLease, RecoveryLeases, NothingQueued, IdentityValid;
    SoleLeaseState(db, t.task);
    if t.task in db.admissions && RecoveryLeases(db, t.task) != {} {
      SoleLeaseConflicts(db, t.task, db.admissions[t.task].runtime);
    }
    ProveSteps(db, t, codec);
  }

  lemma ProveSteps(db: Store, t: Tuple, codec: Codec)
    requires WellFormed(db) && DeliveryMatches(db, t) && db.deliveries[t.delivery].acknowledgedAt.None?
    ensures Prove(db, t, codec) == Ok(true) <==>
      && DispatchIsLatest(db, t, codec) && AdmissionIs(db, t.task, AdmissionDispatching)
      && RecoveryLeases(db, t.task) != {} && EarlyConflicts(db, t.task, db.admissions[t.task].runtime) == {}
      && PreparedClean(db, t) && NothingQueued(db, t.task)
  {
    hide EarlyConflicts, NothingQueued, PreparedClean, RecoveryLeases;
    if DispatchIsLatest(db, t, codec) {
      assert Planned(db, t);
    }
  }

  // ------------------------------------------------------------- selection

  function TupleOf(db: Store, d: string): Tuple
    requires d in db.deliveries
  {
    Tuple(d, db.deliveries[d].task, db.deliveries[d].attempt)
  }

  /** The loop of `select_tx` over the rows in key order. */
  function Candidates(db: Store, rows: seq<string>, codec: Codec): Result<seq<Tuple>, SelectionError>
    requires forall d :: d in rows ==> d in db.deliveries
  {
    if rows == [] then
      Ok([])
    else if db.deliveries[rows[0]].acknowledgedAt.Some? then
      Candidates(db, rows[1..], codec)
    else if db.deliveries[rows[0]].attempt < 1 then
      Err(MalformedRow)
    else
      var found :- Prove(db, TupleOf(db, rows[0]), codec);
      var rest :- Candidates(db, rows[1..], codec);
      Ok(if found then [TupleOf(db, rows[0])] + rest else rest)
  }

  function Choose(eligible: seq<Tuple>): Result<Tuple, SelectionError> {
    if |eligible| == 0 then Err(NothingFound) else if |eligible| == 1 then Ok(eligible[0]) else Err(SeveralFound)
  }

  function SelectFrom(db: Store, rows: seq<string>, codec: Codec): Result<Tuple, SelectionError>
    requires forall d :: d in rows ==> d in db.deliveries
  {
    var eligible :- Candidates(db, rows, codec);
    Choose(eligible)
  }

  function Rows(db: Store): (r: seq<string>)
    ensures forall d :: d in r <==> d in db.deliveries
    ensures forall i, j :: 0 <= i < j < |r| ==> r[i] != r[j]
  {
    TextLessIsTotalOrder();
    Ordered(db.deliveries.Keys, TextLess)
  }

  function Select(db: Store, codec: Codec): Result<Tuple, SelectionError> {
    SelectFrom(db, Rows(db), codec)
  }

  ghost function After(found: seq<Tuple>, rest: Result<seq<Tuple>, SelectionError>): Result<seq<Tuple>, SelectionError> {
    if rest.Ok? then Ok(found + rest.value) else rest
  }

  /** The lease loop of `prove_candidate`, which inserts into one conflict set. */
  method CollectLeaseConflicts(db: Store, leases: seq<string>, runtime: Option<string>, start: set<Cause>) returns (conflicts: set<Cause>)
    requires forall k :: k in leases ==> k in db.leases
    ensures conflicts == start + LeaseConflicts(db, (set k | k in leases), runtime)
  {
    conflicts := start;
    for i := 0 to |leases|
      invariant forall c :: c in conflicts <==>
        c in start || exists j :: 0 <= j < i && c in LeaseConflict(leases[j], db.leases[leases[j]], runtime)
    {
      var l := db.leases[leases[i]];
      var valid := leases[i] != "" && l.owner != "" && l.fence >= 1 && l.expiresAt != "";
      if !valid {
        conflicts := conflicts + {LeaseIdentityInvalid};
      } else if runtime.Some? && l.owner != runtime.value {
        conflicts := conflicts + {LeaseOwnerMismatch};
      }
    }
  }

  /** `select_tx`. */
  method SelectInOrder(db: Store, rows: seq<string>, codec: Codec) returns (r: Result<Tuple, SelectionError>)
    requires forall d :: d in rows ==> d in db.deliveries
    ensures r == SelectFrom(db, rows, codec)
  {
    hide Prove;
    var eligible: seq<Tuple> := [];
    ghost var all := Candidates(db, rows, codec);
    assert rows[0..] == rows && (all.Ok? ==> eligible + all.value == all.value);
    for i := 0 to |rows|
      invariant all == After(eligible, Candidates(db, rows[i..], codec))
    {
      assert rows[i..][0] == rows[i] && rows[i..][1..] == rows[i + 1..];
      var d := rows[i];
      if db.deliveries[d].acknowledgedAt.None? {
        if db.deliveries[d].attempt < 1 {
          return Err(MalformedRow);
        }
        var found := Prove(db, TupleOf(db, d), codec);
        if found.Err? {
          return Err(found.error);
        }
        ghost var rest := Candidates(db, rows[i + 1..], codec);
        if found.value {
          assert rest.Ok? ==> eligible + ([TupleOf(db, d)] + rest.value) == eligible + [TupleOf(db, d)] + rest.value;
          eligible := eligible + [TupleOf(db, d)];
        }
      }
    }
    assert eligible + [] == eligible;
    return Choose(eligible);
  }

  /** What the selector decides about one row. */
  ghost predicate Passes(db: Store, d: string, codec: Codec, accepted: bool)
    requires d in db.deliveries
  {
    db.deliveries[d].acknowledgedAt.None? ==>
      db.deliveries[d].attempt >= 1 && Prove(db, TupleOf(db, d), codec) == Ok(accepted)
  }

  lemma PassesMeans(db: Store, d: string, codec: Codec, accepted: bool)
    requires d in db.deliveries && db.deliveries[d].acknowledgedAt.None? && Passes(db, d, codec, accepted)
    ensures Prove(db, TupleOf(db, d), codec) == Ok(accepted)
  {
  }

  lemma {:induction false} NoCandidates(db: Store, rows: seq<string>, codec: Codec)
    requires forall d :: d in rows ==> d in db.deliveries
    ensures Candidates(db, rows, codec) == Ok([]) <==> forall d :: d in rows ==> Passes(db, d, codec, false)
  {
    hide Prove;
    if rows != [] {
      NoCandidates(db, rows[1..], codec);
      assert forall d :: d in rows <==> d == rows[0] || d in rows[1..];
      assert Passes(db, rows[0], codec, false) || !Passes(db, rows[0], codec, false);
    }
  }

  lemma {:induction false} SoleCandidate(db: Store, rows: seq<string>, codec: Codec, t: Tuple)
    requires forall d :: d in rows ==> d in db.deliveries
    requires forall i, j :: 0 <= i < j < |rows| ==> rows[i] != rows[j]
    requires Candidates(db, rows, codec) == Ok([t])
    ensures t.delivery in rows && t == TupleOf(db, t.delivery) && db.deliveries[t.delivery].acknowledgedAt.None?
    ensures Passes(db, t.delivery, codec, true)
    ensures forall d :: d in rows && d != t.delivery ==> Passes(db, d, codec, false)
  {
    hide Prove;
    var rest := rows[1..];
    var tail := Candidates(db, rest, codec);
    assert rows[0] !in rest;
    if db.deliveries[rows[0]].acknowledgedAt.None? && Prove(db, TupleOf(db, rows[0]), codec) == Ok(true) {
      assert tail.value == ([TupleOf(db, rows[0])] + tail.value)[1..] == [];
      assert t == ([TupleOf(db, rows[0])] + tail.value)[0];
      NoCandidates(db, rest, codec);
    } else {
      SoleCandidate(db, rest, codec, t);
    }
    assert forall d :: d in rows ==> d == rows[0] || d in rest;
  }

  /** A selected tuple is the only acceptable row, and no other row was even doubtful. */
  lemma SelectedIsSole(db: Store, t: Tuple, codec: Codec)
    requires Select(db, codec) == Ok(t)
    ensures t.delivery in db.deliveries && t == TupleOf(db, t.delivery)
    ensures db.deliveries[t.delivery].acknowledgedAt.None? && Passes(db, t.delivery, codec, true)
    ensures forall d :: d in db.deliveries && d != t.delivery ==> Passes(db, d, codec, false)
  {
    hide Prove;
    var eligible := Candidates(db, Rows(db), codec).value;
    assert eligible == [t];
    SoleCandidate(db, Rows(db), codec, t);
  }

  /** Whenever a tuple is selected and its log is aligned, recovery validates it as open. */
  lemma SelectedIsOpen(db: Store, t: Tuple, codec: Codec)
    requires WellFormed(db) && Select(db, codec) == Ok(t) && Aligned(db, t.task)
    ensures Validate(db, t, codec) == Ok(true)
  {
    hide Prove, Validate;
    SelectedIsSole(db, t, codec);
    ProveExactly(db, t, codec);
  }

  // ------------------------------------------- select, recover, select again

  lemma ProveIsLocal(db: Store, db': Store, t: Tuple, codec: Codec)
    requires SameFor(db, db', t) && DeliveryMatches(db, t)
    ensures Prove(db, t, codec) == Prove(db', t, codec)
  {
    hide DispatchEvent, ProveRows;
    LogIsLocal(db.events, db'.events, t.task);
    assert forall at :: SameRow(db.events, db'.events, EventKey(t.task, at));
    RowsAreLocal(db, db', t);
  }

  lemma RowsAreLocal(db: Store, db': Store, t: Tuple)
    requires SameFor(db, db', t) && DeliveryMatches(db, t)
    ensures ProveRows(db, t) == ProveRows(db', t)
  {
    hide EarlyConflicts, RecoveryLeases, NothingQueued, Planned, SameLog, LeasesOf;
    LeaseConflictsLocal(db, db', t);
    QueuedIsLocal(db, db', t.task);
    PlannedIsLocal(db, db', t);
    if AdmissionIs(db, t.task, AdmissionDispatching) {
      assert EarlyConflicts(db, t.task, db.admissions[t.task].runtime) == EarlyConflicts(db', t.task, db.admissions[t.task].runtime);
    }
  }

  lemma PlannedIsLocal(db: Store, db': Store, t: Tuple)
    requires SameFor(db, db', t)
    ensures Planned(db, t) == Planned(db', t)
  {
  }

  lemma QueuedIsLocal(db: Store, db': Store, task: string)
    requires db.queue == db'.queue && db.continuations == db'.continuations
    ensures NothingQueued(db, task) == NothingQueued(db', task)
  {
  }

  lemma LeaseConflictsLocal(db: Store, db': Store, t: Tuple)
    requires SameFor(db, db', t)
    ensures RecoveryLeases(db, t.task) == RecoveryLeases(db', t.task)
    ensures forall runtime :: EarlyConflicts(db, t.task, runtime) == EarlyConflicts(db', t.task, runtime)
  {
    hide LeaseConflict, SameLog;
    forall k
      ensures k in RecoveryLeases(db, t.task) <==> k in RecoveryLeases(db', t.task)
    {
      assert k in LeasesOf(db, t.task) <==> k in LeasesOf(db', t.task);
    }
    var leases := RecoveryLeases(db, t.task);
    assert leases == RecoveryLeases(db', t.task);
    forall runtime
      ensures LeaseConflicts(db, leases, runtime) == LeaseConflicts(db', leases, runtime)
    {
      assert forall k :: k in leases ==> k in LeasesOf(db, t.task);
    }
  }

  /** No other unacknowledged delivery of the selected task exists: its dispatch event names only one. */
  lemma SelectedOwnsItsTask(db: Store, t: Tuple, codec: Codec, d: string)
    requires Select(db, codec) == Ok(t)
    requires d in db.deliveries && d != t.delivery && db.deliveries[d].acknowledgedAt.None?
    ensures db.deliveries[d].task != t.task
  {
    hide ProveRows, Rows, Select;
    SelectedIsSole(db, t, codec);
    assert Passes(db, d, codec, false);
    if db.deliveries[d].task == t.task {
      assert false;
    }
  }

  datatype SelectedError = NoneSelected | SelectionFailed(error: SelectionError) | RecoveryFailed

  /** `recover` of the selected tuple: the number closed and the store to keep. */
  function RecoverSelected(db: Store, now: string, id: string, codec: Codec): Result<Recovered, SelectedError> {
    match Select(db, codec)
    case Err(e) => Err(if e == NothingFound then NoneSelected else SelectionFailed(e))
    case Ok(t) =>
      match Recover(db, [t], now, [id], codec)
      case Err(_) => Err(RecoveryFailed)
      case Ok(r) => if r.count == 0 then Err(NoneSelected) else Ok(r)
  }

  /** Selection followed by recovery: every outcome on an aligned log. */
  lemma SelectedRecovers(db: Store, t: Tuple, now: string, id: string, codec: Codec)
    requires WellFormed(db) && PlainIds(db) && Sound(codec) && FreshIds(db.events, [id])
    requires Select(db, codec) == Ok(t) && Aligned(db, t.task)
    ensures RecoverSelected(db, now, id, codec).Ok? <==> now != "" && Closable(db, t, now, codec) && OtherAcknowledged(db, [t]) == {}
    ensures RecoverSelected(db, now, id, codec).Ok? ==> Committed(db, [t], codec, RecoverSelected(db, now, id, codec).value)
    ensures RecoverSelected(db, now, id, codec).Err? ==> RecoverSelected(db, now, id, codec).error == RecoveryFailed
  {
    hide Prove, Validate, WellFormed, PlainIds, Sound, FreshIds, Rows, RecoverTx, Select, Closable, OtherAcknowledged, Open;
    SelectedIsOpen(db, t, codec);
    ValidateOpenExactly(db, t, codec);
    assert AllOpen(db, [t], codec);
    CommitExactly(db, [t], now, [id], codec);
    assert [t][0] == t;
    assert AllClosable(db, [t], now, codec) <==> Closable(db, t, now, codec);
  }

  /** Committed recovery of the selected tuple leaves nothing to select, so a second run finds none. */
  lemma SelectedOnce(db: Store, now: string, id: string, now': string, id': string, codec: Codec)
    requires WellFormed(db) && PlainIds(db) && Sound(codec) && FreshIds(db.events, [id])
    requires Select(db, codec).Ok? && Aligned(db, Select(db, codec).value.task)
    requires RecoverSelected(db, now, id, codec).Ok?
    ensures var after := RecoverSelected(db, now, id, codec).value.db;
      Select(after, codec) == Err(NothingFound) && RecoverSelected(after, now', id', codec) == Err(NoneSelected)
  {
    hide Prove, Validate, Committed, WellFormed, PlainIds, Sound, FreshIds, Rows, RecoverTx;
    var t := Select(db, codec).value;
    SelectedIsOpen(db, t, codec);
    ValidateOpenExactly(db, t, codec);
    CommitExactly(db, [t], now, [id], codec);
    var r := RecoverTx(db, [t], now, [id], codec).value;
    forall d | d in r.db.deliveries
      ensures Passes(r.db, d, codec, false)
    {
      StillRejected(db, t, codec, r, d);
    }
    NoCandidates(r.db, Rows(r.db), codec);
  }

  lemma DeliveriesKept(before: Store, after: Store, tasks: set<string>)
    requires Untouched(before, after, tasks)
    ensures before.deliveries.Keys == after.deliveries.Keys
    ensures forall d :: d in before.deliveries ==> before.deliveries[d].task == after.deliveries[d].task
  {
  }

  lemma SameForDelivery(db: Store, db': Store, t: Tuple)
    requires SameFor(db, db', t) && t.delivery in db.deliveries
    ensures t.delivery in db'.deliveries && db.deliveries[t.delivery] == db'.deliveries[t.delivery]
  {
  }

  lemma StillRejected(db: Store, t: Tuple, codec: Codec, r: Recovered, d: string)
    requires Select(db, codec) == Ok(t) && Committed(db, [t], codec, r) && d in r.db.deliveries
    ensures Passes(r.db, d, codec, false)
  {
    hide Prove, Rows, Select, Unfinished, Awaiting, Untouched, ChecksClosed, SameFor;
    assert TaskSet([t]) == {t.task};
    assert db.deliveries.Keys == r.db.deliveries.Keys && db.deliveries[d].task == r.db.deliveries[d].task by {
      DeliveriesKept(db, r.db, TaskSet([t]));
    }
    SelectedIsSole(db, t, codec);
    if d == t.delivery {
      assert Closed(r.db, [t][0], codec);
    } else if db.deliveries[d].task != t.task {
      UntouchedTuple(db, r.db, {t.task}, TupleOf(db, d));
      SameForDelivery(db, r.db, TupleOf(db, d));
      ProveIsLocal(db, r.db, TupleOf(db, d), codec);
      assert Passes(db, d, codec, false);
    } else {
      assert d !in Unacknowledged(db) by {
        if db.deliveries[d].acknowledgedAt.None? { SelectedOwnsItsTask(db, t, codec, d); }
      }
      assert d !in Unacknowledged(r.db);
    }
  }
}
