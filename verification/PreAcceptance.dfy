/** Offline closure of dispatches that were refused before acceptance. */
module PreAcceptance {
  import opened Prelude
  import opened Tables
  import Bytes
  import TC = TerminalClosure

  datatype RecoveryError = InvalidArguments | DatabaseError | NotEligible | FencedError

  datatype Tuple = Tuple(delivery: string, task: string, attempt: int)

  // ---------------------------------------------------------------- planner

  /** `format!("{}:{}:{}", delivery_id, task_id, attempt)`. */
  function Identity(delivery: string, task: string, attempt: int): string {
    delivery + ":" + (task + ":" + Bytes.Decimal(attempt))
  }

  function IdentityOf(db: Store, d: string): string
    requires d in db.deliveries
  {
    Identity(d, db.deliveries[d].task, db.deliveries[d].attempt)
  }

  function Named(t: Tuple): string {
    Identity(t.delivery, t.task, t.attempt)
  }

  datatype Planner = Planner(unfinished: set<string>, unacknowledged: set<string>, awaiting: set<string>)

  function ReadPlanner(db: Store): Planner {
    Planner(
      Unfinished(db),
      set d | d in db.deliveries && d in Unacknowledged(db) :: IdentityOf(db, d),
      set d | d in db.deliveries && d in Awaiting(db) :: IdentityOf(db, d))
  }

  function RemoveTargets(p: Planner, tuples: seq<Tuple>): Result<Planner, RecoveryError>
    decreases tuples
  {
    if tuples == [] then
      Ok(p)
    else
      var t := tuples[0];
      if t.task !in p.unfinished || Named(t) !in p.unacknowledged || Named(t) in p.awaiting then
        Err(NotEligible)
      else
        RemoveTargets(p.(unfinished := p.unfinished - {t.task}, unacknowledged := p.unacknowledged - {Named(t)}), tuples[1..])
  }

  // -------------------------------------------------------------- validator

  predicate DeliveryMatches(db: Store, t: Tuple) {
    && t.delivery in db.deliveries
    && db.deliveries[t.delivery].task == t.task && db.deliveries[t.delivery].attempt == t.attempt
  }

  predicate DispositionMatches(db: Store, t: Tuple) {
    && t.delivery in db.dispositions
    && db.dispositions[t.delivery].task == t.task && db.dispositions[t.delivery].attempt == t.attempt
  }

  predicate NoEvidence(d: Disposition) {
    d.session.None? && d.child.None?
  }

  predicate DispatchEvent(e: Event, t: Tuple, codec: Codec) {
    e.status == Dispatched && codec.decode(e.payload) == DispatchedTo(t.delivery, t.attempt)
  }

  predicate DispatchIsLatest(db: Store, t: Tuple, codec: Codec) {
    var at := LatestSeq(db.events, t.task);
    at.Some? && DispatchEvent(db.events[EventKey(t.task, at.value)], t, codec)
  }

  predicate HasOneLease(db: Store, task: string, state: LeaseState) {
    |LeasesOf(db, task)| == 1 && db.leases[Only(LeasesOf(db, task))].state == state
  }

  predicate NothingQueued(db: Store, task: string) {
    !HasWork(db, task) && task !in db.continuations
  }

  predicate AdmissionIs(db: Store, task: string, state: AdmissionState) {
    task in db.admissions && db.admissions[task].state == state
  }

  /** The last checks of `validate`, for a tuple whose delivery and disposition rows are still open. */
  predicate ChecksOpen(db: Store, t: Tuple, codec: Codec) {
    && DispatchIsLatest(db, t, codec) && Aligned(db, t.task)
    && AdmissionIs(db, t.task, AdmissionDispatching)
    && HasOneLease(db, t.task, LeaseRecovery) && NothingQueued(db, t.task)
  }

  /** The last event fails the task at the acknowledged instant; the one before it is the dispatch. */
  predicate ClosingLog(events: map<EventKey, Event>, t: Tuple, at: int, ack: string, codec: Codec) {
    && EventKey(t.task, at) in events
    && var last := events[EventKey(t.task, at)];
       var before := SeqBefore(events, t.task, at);
    && before.Some? && DispatchEvent(events[EventKey(t.task, before.value)], t, codec)
    && last.status == Failed && codec.decode(last.payload) == FailedWith(TC.AUTH_FAILURE)
    && codec.parseTime(ack) == codec.parseTime(last.timestamp)
  }

  /** `validate_closed`. */
  predicate ChecksClosed(db: Store, t: Tuple, codec: Codec)
    requires DeliveryMatches(db, t) && DispositionMatches(db, t)
  {
    && db.dispositions[t.delivery].reason == Some(TC.AUTH_FAILURE) && NoEvidence(db.dispositions[t.delivery])
    && Aligned(db, t.task) && db.deliveries[t.delivery].acknowledgedAt.Some?
    && ClosingLog(db.events, t, db.tasks[t.task].version + 1, db.deliveries[t.delivery].acknowledgedAt.value, codec)
    && AdmissionIs(db, t.task, AdmissionTerminal)
    && HasOneLease(db, t.task, LeaseReleased) && NothingQueued(db, t.task)
  }

  /** `validate`: `Ok(true)` for an open tuple, `Ok(false)` for one already closed. */
  function Validate(db: Store, t: Tuple, codec: Codec): Result<bool, RecoveryError> {
    if !DeliveryMatches(db, t) || !DispositionMatches(db, t) then
      Err(NotEligible)
    else if db.deliveries[t.delivery].acknowledgedAt.Some? || db.dispositions[t.delivery].state == DispositionTerminal then
      if ChecksClosed(db, t, codec) then Ok(false) else Err(NotEligible)
    else if db.dispositions[t.delivery].state != DispositionPrepared || !NoEvidence(db.dispositions[t.delivery]) then
      Err(NotEligible)
    else if ChecksOpen(db, t, codec) then Ok(true) else Err(NotEligible)
  }

  /** What `Ok(true)` means. */
  predicate Open(db: Store, t: Tuple, codec: Codec) {
    && DeliveryMatches(db, t) && db.deliveries[t.delivery].acknowledgedAt.None?
    && DispositionMatches(db, t) && db.dispositions[t.delivery].state == DispositionPrepared
    && NoEvidence(db.dispositions[t.delivery])
    && ChecksOpen(db, t, codec)
  }

  /** The closed tuples `recover_tx` leaves behind; `validate` answers `Ok(false)` on them. */
  predicate Closed(db: Store, t: Tuple, codec: Codec) {
    && DeliveryMatches(db, t) && db.deliveries[t.delivery].acknowledgedAt.Some?
    && DispositionMatches(db, t) && db.dispositions[t.delivery].state == DispositionTerminal
    && ChecksClosed(db, t, codec)
  }

  lemma ValidateOpenExactly(db: Store, t: Tuple, codec: Codec)
    ensures Validate(db, t, codec) == Ok(true) <==> Open(db, t, codec)
    ensures Closed(db, t, codec) ==> Validate(db, t, codec) == Ok(false)
  {
  }

  function ValidateAll(db: Store, tuples: seq<Tuple>, codec: Codec): Result<seq<Tuple>, RecoveryError> {
    if tuples == [] then
      Ok([])
    else
      var open :- Validate(db, tuples[0], codec);
      var rest :- ValidateAll(db, tuples[1..], codec);
      Ok(if open then [tuples[0]] + rest else rest)
  }

  // ---------------------------------------------------------------- closing

  function RecoveryLeases(db: Store, task: string): set<string> {
    set k | k in db.leases && db.leases[k].task == task && db.leases[k].state == LeaseRecovery
  }

  function NextSeq(db: Store, task: string): int {
    var at := LatestSeq(db.events, task);
    if at.Some? then at.value + 1 else 1
  }

  function ClosureArgs(db: Store, t: Tuple, resource: string, canonical: string, instant: Instant,
                       now: string, id: string, codec: Codec): (TC.Context, TC.LeaseMode)
    requires t.task in db.admissions && t.task in db.tasks && resource in db.leases
  {
    var a, l := db.admissions[t.task], db.leases[resource];
    var event := TC.TerminalEvent(id, canonical, NextSeq(db, t.task), Failed,
                                  codec.formatTime(instant), codec.encodeFailure(TC.AUTH_FAILURE));
    (TC.Context(t.task, resource, event, now, TC.OfflineExact(t.delivery, t.attempt),
                TC.OfflineAdmission(a.runtime, a.revision), TC.OfflineExpected(db.tasks[t.task].version),
                Some(TC.AUTH_FAILURE)),
     TC.OfflineRecoveryNeeded(l.owner, l.fence, l.expiresAt))
  }

  function MapError(e: TC.ClosureError): RecoveryError {
    match e
    case Fenced => FencedError
    case AdmissionStale => FencedError
    case Malformed => NotEligible
    case DatabaseFailed => DatabaseError
  }

  /** `close_one`. Validation has already shown that the task has exactly one lease. */
  function CloseOne(db: Store, t: Tuple, now: string, id: string, codec: Codec): Result<Store, RecoveryError> {
    var leases := RecoveryLeases(db, t.task);
    if !AdmissionIs(db, t.task, AdmissionDispatching) || |leases| != 1 || t.task !in db.tasks then
      Err(FencedError)
    else if codec.canonicalTask(t.task).None? then
      Err(NotEligible)
    else if codec.parseTime(now).None? then
      Err(InvalidArguments)
    else
      var (c, mode) := ClosureArgs(db, t, Only(leases), codec.canonicalTask(t.task).value,
                                   codec.parseTime(now).value, now, id, codec);
      match TC.Closure(db, c, mode)
      case Ok(after) => Ok(after)
      case Err(e) => Err(MapError(e))
  }

  function CloseAll(db: Store, tuples: seq<Tuple>, now: string, ids: seq<string>, codec: Codec): Result<Store, RecoveryError>
    requires |ids| == |tuples|
    decreases tuples
  {
    if tuples == [] then
      Ok(db)
    else
      var next :- CloseOne(db, tuples[0], now, ids[0], codec);
      CloseAll(next, tuples[1..], now, ids[1..], codec)
  }

  datatype Recovered = Recovered(count: nat, planner: Planner, db: Store)

  /** `recover_tx`: the result and the store to install. `ids` are the generated event ids. */
  function RecoverTx(db: Store, tuples: seq<Tuple>, now: string, ids: seq<string>, codec: Codec): Result<Recovered, RecoveryError>
    requires |ids| == |tuples|
  {
    var pending :- ValidateAll(db, tuples, codec);
    var before := ReadPlanner(db);
    if |pending| < |tuples| then
      if pending != [] then Err(NotEligible) else Ok(Recovered(0, before, db))
    else
      var expected :- RemoveTargets(before, tuples);
      assert pending == tuples by { PendingIsAll(db, tuples, codec); }
      var after :- CloseAll(db, pending, now, ids, codec);
      if ReadPlanner(after) != expected then Err(FencedError)
      else Ok(Recovered(|pending|, ReadPlanner(after), after))
  }

  lemma {:induction false} PendingIsAll(db: Store, tuples: seq<Tuple>, codec: Codec)
    requires ValidateAll(db, tuples, codec).Ok?
    ensures var pending := ValidateAll(db, tuples, codec).value;
      && |pending| <= |tuples|
      && (|pending| == |tuples| <==> forall i :: 0 <= i < |tuples| ==> Open(db, tuples[i], codec))
      && (|pending| == |tuples| ==> pending == tuples)
  {
    hide Open, Validate;
    if tuples != [] {
      PendingIsAll(db, tuples[1..], codec);
      ValidateOpenExactly(db, tuples[0], codec);
      assert tuples == [tuples[0]] + tuples[1..];
    }
  }

  predicate Distinct(tuples: seq<Tuple>) {
    forall i, j :: 0 <= i < j < |tuples| ==> tuples[i] != tuples[j]
  }

  /** `recover`: argument checks, then the transaction. */
  function Recover(db: Store, tuples: seq<Tuple>, now: string, ids: seq<string>, codec: Codec): Result<Recovered, RecoveryError>
    requires |ids| == |tuples|
  {
    if tuples == [] || now == [] || !Distinct(tuples) then Err(InvalidArguments)
    else RecoverTx(db, tuples, now, ids, codec)
  }

  // ---------------------------------------------------- the imperative form

  /** `PlannerSets::remove_targets`, which edits its sets as it goes. */
  method RemoveTargetsInPlace(p: Planner, tuples: seq<Tuple>) returns (r: Result<Planner, RecoveryError>)
    ensures r == RemoveTargets(p, tuples)
  {
    var sets := p;
    for k := 0 to |tuples|
      invariant RemoveTargets(p, tuples) == RemoveTargets(sets, tuples[k..])
    {
      var t := tuples[k];
      assert tuples[k..][0] == t && tuples[k..][1..] == tuples[k + 1..];
      if t.task !in sets.unfinished {
        return Err(NotEligible);
      }
      if Named(t) !in sets.unacknowledged {
        return Err(NotEligible);
      }
      if Named(t) in sets.awaiting {
        return Err(NotEligible);
      }
      sets := sets.(unfinished := sets.unfinished - {t.task}, unacknowledged := sets.unacknowledged - {Named(t)});
    }
    return Ok(sets);
  }

  method CloseOneInTransaction(tx: TC.Transaction, t: Tuple, now: string, id: string, codec: Codec)
    returns (r: Result<(), RecoveryError>)
    modifies tx
    ensures r.Ok? <==> CloseOne(old(tx.db), t, now, id, codec).Ok?
    ensures r.Ok? ==> tx.db == CloseOne(old(tx.db), t, now, id, codec).value
    ensures r.Err? ==> r.error == CloseOne(old(tx.db), t, now, id, codec).error
  {
    var leases := RecoveryLeases(tx.db, t.task);
    if !AdmissionIs(tx.db, t.task, AdmissionDispatching) || |leases| != 1 || t.task !in tx.db.tasks {
      return Err(FencedError);
    }
    if codec.canonicalTask(t.task).None? {
      return Err(NotEligible);
    }
    if codec.parseTime(now).None? {
      return Err(InvalidArguments);
    }
    var (c, mode) := ClosureArgs(tx.db, t, Only(leases), codec.canonicalTask(t.task).value,
                                 codec.parseTime(now).value, now, id, codec);
    var applied := tx.Apply(c, mode);
    match applied
    case Ok(_) => return Ok(());
    case Err(e) => return Err(MapError(e));
  }

  ghost function Following(pending: seq<Tuple>, rest: Result<seq<Tuple>, RecoveryError>): Result<seq<Tuple>, RecoveryError> {
    if rest.Ok? then Ok(pending + rest.value) else rest
  }

  /** The first loop of `recover_tx_inner`: the tuples still to close. */
  method CollectPending(db: Store, tuples: seq<Tuple>, codec: Codec) returns (r: Result<seq<Tuple>, RecoveryError>)
    ensures r == ValidateAll(db, tuples, codec)
  {
    hide Validate;
    var pending: seq<Tuple> := [];
    ghost var all := ValidateAll(db, tuples, codec);
    assert tuples[0..] == tuples && (all.Ok? ==> pending + all.value == all.value);
    for k := 0 to |tuples|
      invariant all == Following(pending, ValidateAll(db, tuples[k..], codec))
    {
      assert tuples[k..][0] == tuples[k] && tuples[k..][1..] == tuples[k + 1..];
      var open := Validate(db, tuples[k], codec);
      if open.Err? {
        return Err(open.error);
      }
      ghost var rest := ValidateAll(db, tuples[k + 1..], codec);
      if open.value {
        assert rest.Ok? ==> pending + ([tuples[k]] + rest.value) == pending + [tuples[k]] + rest.value;
        pending := pending + [tuples[k]];
      }
    }
    assert pending + [] == pending;
    return Ok(pending);
  }

  /** The second loop: each close works on what the one before it left in the transaction. */
  method ClosePending(tx: TC.Transaction, tuples: seq<Tuple>, now: string, ids: seq<string>, codec: Codec)
    returns (r: Result<(), RecoveryError>)
    requires |ids| == |tuples|
    modifies tx
    ensures r.Ok? <==> CloseAll(old(tx.db), tuples, now, ids, codec).Ok?
    ensures r.Ok? ==> tx.db == CloseAll(old(tx.db), tuples, now, ids, codec).value
    ensures r.Err? ==> r.error == CloseAll(old(tx.db), tuples, now, ids, codec).error
  {
    for k := 0 to |tuples|
      invariant CloseAll(old(tx.db), tuples, now, ids, codec) == CloseAll(tx.db, tuples[k..], now, ids[k..], codec)
    {
      assert tuples[k..][0] == tuples[k] && tuples[k..][1..] == tuples[k + 1..];
      assert ids[k..][0] == ids[k] && ids[k..][1..] == ids[k + 1..];
      var closed := CloseOneInTransaction(tx, tuples[k], now, ids[k], codec);
      if closed.Err? {
        return Err(closed.error);
      }
    }
    return Ok(());
  }

  /** `recover_tx_inner` on the transaction's copy. */
  method RecoverInTransaction(tx: TC.Transaction, tuples: seq<Tuple>, now: string, ids: seq<string>, codec: Codec)
    returns (r: Result<(nat, Planner), RecoveryError>)
    requires |ids| == |tuples|
    modifies tx
    ensures r.Ok? <==> RecoverTx(old(tx.db), tuples, now, ids, codec).Ok?
    ensures r.Ok? ==> Recovered(r.value.0, r.value.1, tx.db) == RecoverTx(old(tx.db), tuples, now, ids, codec).value
    ensures r.Err? ==> r.error == RecoverTx(old(tx.db), tuples, now, ids, codec).error
  {
    var pending := CollectPending(tx.db, tuples, codec);
    if pending.Err? {
      return Err(pending.error);
    }
    PendingIsAll(tx.db, tuples, codec);
    var before := ReadPlanner(tx.db);
    if |pending.value| < |tuples| {
      if pending.value != [] {
        return Err(NotEligible);
      }
      return Ok((0, before));
    }
    var expected := RemoveTargetsInPlace(before, tuples);
    if expected.Err? {
      return Err(expected.error);
    }
    var closed := ClosePending(tx, pending.value, now, ids, codec);
    if closed.Err? {
      return Err(closed.error);
    }
    var after := ReadPlanner(tx.db);
    if after != expected.value {
      return Err(FencedError);
    }
    return Ok((|pending.value|, after));
  }
}
