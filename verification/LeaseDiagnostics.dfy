/** The lease-owner diagnosis: a third eligibility test, its summary, and its agreement with the selector. */
module LeaseDiagnostics {
  import opened Prelude
  import opened Tables
  import opened PreAcceptance
  import TS = TupleSelection

  datatype Class = Skipped | Broken | FencedRow | LiveOwner | Orphan | Candidate

  datatype Category = Eligible | Empty | Multiple | MalformedDatabase | NonActionableOrphan | ActiveOwner | FencedOnly

  /** The body of the loop, up to the lease. */
  function Classify(db: Store, d: string, codec: Codec): Class
    requires d in db.deliveries
  {
    var row := db.deliveries[d];
    var t := Tuple(d, row.task, row.attempt);
    if row.acknowledgedAt.Some? then Skipped
    else if !AdmissionIs(db, t.task, AdmissionDispatching) || db.admissions[t.task].revision < 0 then Skipped
    else
      var at := LatestSeq(db.events, t.task);
      if at.None? then Skipped
      else if !DispatchEvent(db.events[EventKey(t.task, at.value)], t, codec) then Broken
      else if !DispositionMatches(db, t) || db.dispositions[d].state != DispositionPrepared then FencedRow
      else if !NoEvidence(db.dispositions[d]) || db.dispositions[d].reapStatus.Some? || !NothingQueued(db, t.task) then FencedRow
      else if !TS.Planned(db, t) || |LeasesOf(db, t.task)| != 1 then FencedRow
      else ClassifyLease(db, db.admissions[t.task].runtime, db.leases[Only(LeasesOf(db, t.task))])
  }

  function ClassifyLease(db: Store, runtime: Option<string>, l: Lease): Class {
    if l.owner == "" || l.fence < 1 || l.expiresAt == "" then FencedRow
    else if l.owner in db.runtimes && db.runtimes[l.owner].state in {OwnerActive, OwnerStopping} then LiveOwner
    else if l.owner !in db.runtimes then
      if runtime.Some? && l.state == LeaseRecovery then Orphan else FencedRow
    else if runtime != Some(l.owner) || l.state != LeaseRecovery then FencedRow
    else Candidate
  }

  function Members(db: Store, class_: Class, codec: Codec): set<string> {
    set d | d in db.deliveries && Classify(db, d, codec) == class_
  }

  /** What the diagnosis says about a database, with no reference to the order its rows come in. */
  function Diagnosis(db: Store, codec: Codec): Category {
    if Members(db, Broken, codec) != {} then MalformedDatabase
    else if Members(db, LiveOwner, codec) != {} then ActiveOwner
    else if |Members(db, Candidate, codec)| > 1 then Multiple
    else if |Members(db, Candidate, codec)| == 1 then Eligible
    else if Members(db, Orphan, codec) != {} then NonActionableOrphan
    else if Members(db, FencedRow, codec) != {} then FencedOnly
    else Empty
  }

  ghost predicate Enumerates(rows: seq<string>, s: set<string>) {
    && (forall d :: d in rows <==> d in s)
    && forall i, j :: 0 <= i < j < |rows| ==> rows[i] != rows[j]
  }

  ghost function Seen(db: Store, rows: seq<string>, class_: Class, codec: Codec): set<string>
    requires forall d :: d in rows ==> d in db.deliveries
  {
    set d | d in rows && Classify(db, d, codec) == class_
  }

  lemma SeenStep(db: Store, rows: seq<string>, i: nat, class_: Class, codec: Codec)
    requires Enumerates(rows, db.deliveries.Keys) && i < |rows|
    ensures Seen(db, rows[..i + 1], class_, codec)
         == Seen(db, rows[..i], class_, codec) + if Classify(db, rows[i], codec) == class_ then {rows[i]} else {}
    ensures rows[i] !in Seen(db, rows[..i], class_, codec)
  {
  }

  lemma SeenAll(db: Store, rows: seq<string>, class_: Class, codec: Codec)
    requires Enumerates(rows, db.deliveries.Keys)
    ensures Seen(db, rows[..|rows|], class_, codec) == Members(db, class_, codec)
  {
  }

  /** `diagnose_read`: the rows come back in no particular order, and the answer does not depend on it. */
  method DiagnoseRead(db: Store, rows: seq<string>, codec: Codec) returns (category: Category)
    requires Enumerates(rows, db.deliveries.Keys)
    ensures category == Diagnosis(db, codec)
  {
    hide Classify, Members, Seen;
    if rows == [] {
      NoRows(db, rows, codec);
      return Empty;
    }
    var candidates := 0;
    var orphan, active, fenced := false, false, false;
    SeenNone(db, codec);
    assert rows[..0] == [];
    for i := 0 to |rows|
      invariant Seen(db, rows[..i], Broken, codec) == {}
      invariant candidates == |Seen(db, rows[..i], Candidate, codec)|
      invariant orphan <==> Seen(db, rows[..i], Orphan, codec) != {}
      invariant active <==> Seen(db, rows[..i], LiveOwner, codec) != {}
      invariant fenced <==> Seen(db, rows[..i], FencedRow, codec) != {}
    {
      forall c: Class
        ensures Seen(db, rows[..i + 1], c, codec)
             == Seen(db, rows[..i], c, codec) + if Classify(db, rows[i], codec) == c then {rows[i]} else {}
        ensures rows[i] !in Seen(db, rows[..i], c, codec)
      {
        SeenStep(db, rows, i, c, codec);
      }
      match Classify(db, rows[i], codec)
      case Broken =>
        BrokenMember(db, rows[i], codec);
        return MalformedDatabase;
      case Skipped =>
      case FencedRow => fenced := true;
      case LiveOwner => active := true;
      case Orphan => orphan := true;
      case Candidate => candidates := candidates + 1;
    }
    forall c: Class
      ensures Seen(db, rows[..|rows|], c, codec) == Members(db, c, codec)
    {
      SeenAll(db, rows, c, codec);
    }
    if active {
      return ActiveOwner;
    }
    if candidates > 1 {
      return Multiple;
    }
    if candidates == 1 {
      return Eligible;
    }
    if orphan {
      return NonActionableOrphan;
    }
    if fenced {
      return FencedOnly;
    }
    return Empty;
  }

  lemma NoRows(db: Store, rows: seq<string>, codec: Codec)
    requires Enumerates(rows, db.deliveries.Keys) && rows == []
    ensures forall c: Class :: Members(db, c, codec) == {}
  {
  }

  lemma SeenNone(db: Store, codec: Codec)
    ensures forall c: Class :: Seen(db, [], c, codec) == {}
  {
  }

  lemma BrokenMember(db: Store, d: string, codec: Codec)
    requires d in db.deliveries && Classify(db, d, codec) == Broken
    ensures Members(db, Broken, codec) != {}
  {
    hide Classify;
    assert d in Members(db, Broken, codec);
  }

  // ------------------------------------------------------------- agreement

  /** The runtime that holds the task's only lease is recorded and no longer live. */
  predicate OwnerGone(db: Store, task: string) {
    |LeasesOf(db, task)| == 1 &&
    var owner := db.leases[Only(LeasesOf(db, task))].owner;
    owner in db.runtimes && db.runtimes[owner].state !in {OwnerActive, OwnerStopping}
  }

  predicate NamedResource(db: Store, task: string) {
    |LeasesOf(db, task)| == 1 && Only(LeasesOf(db, task)) != ""
  }

  /**
   * For every unacknowledged delivery: the diagnosis counts it as a candidate and its lease has a
   * resource name, exactly when the selector accepts it and the lease owner is recorded and gone.
   */
  lemma ClassifiersAgree(db: Store, d: string, codec: Codec)
    requires WellFormed(db) && d in db.deliveries && db.deliveries[d].acknowledgedAt.None?
    ensures Classify(db, d, codec) == Candidate && NamedResource(db, db.deliveries[d].task) <==>
      TS.Prove(db, TS.TupleOf(db, d), codec) == Ok(true) && OwnerGone(db, db.deliveries[d].task)
  {
    hide TS.Prove, TS.EarlyConflicts, NothingQueued, TS.Planned, Classify, HasOneLease, RecoveryLeases, TS.PreparedClean;
    var t := TS.TupleOf(db, d);
    ClassifySteps(db, d, codec);
    TS.ProveSteps(db, t, codec);
    TS.SoleLeaseState(db, t.task);
    if t.task in db.admissions && RecoveryLeases(db, t.task) != {} {
      TS.SoleLeaseConflicts(db, t.task, db.admissions[t.task].runtime);
    }
    if |LeasesOf(db, t.task)| == 1 {
      assert Only(LeasesOf(db, t.task)) in LeasesOf(db, t.task);
      assert HasOneLease(db, t.task, LeaseRecovery) <==> db.leases[Only(LeasesOf(db, t.task))].state == LeaseRecovery by {
        SoleState(db, t.task);
      }
    }
  }

  lemma SoleState(db: Store, task: string)
    requires |LeasesOf(db, task)| == 1
    ensures HasOneLease(db, task, LeaseRecovery) <==> db.leases[Only(LeasesOf(db, task))].state == LeaseRecovery
  {
  }

  lemma ClassifySteps(db: Store, d: string, codec: Codec)
    requires WellFormed(db) && d in db.deliveries && db.deliveries[d].acknowledgedAt.None?
    ensures var t := TS.TupleOf(db, d);
      Classify(db, d, codec) == Candidate <==>
        && DispatchIsLatest(db, t, codec) && AdmissionIs(db, t.task, AdmissionDispatching)
        && TS.PreparedClean(db, t) && NothingQueued(db, t.task) && |LeasesOf(db, t.task)| == 1
        && var l := db.leases[Only(LeasesOf(db, t.task))];
           ClassifyLease(db, db.admissions[t.task].runtime, l) == Candidate
  {
    hide NothingQueued, ClassifyLease, LeasesOf;
    if DispatchIsLatest(db, TS.TupleOf(db, d), codec) {
      assert TS.Planned(db, TS.TupleOf(db, d));
    }
  }

  /** A candidate row is never one that the selector passes over. */
  lemma CandidateIsNotPassedOver(db: Store, d: string, codec: Codec)
    requires WellFormed(db) && d in db.deliveries && Classify(db, d, codec) == Candidate
    ensures !TS.Passes(db, d, codec, false)
  {
    hide TS.EarlyConflicts, NothingQueued, TS.Planned, LeasesOf, TS.PreparedClean, Classify, RecoveryLeases;
    CandidateIsUnacknowledged(db, d, codec);
    ClassifySteps(db, d, codec);
    TS.SoleLeaseState(db, db.deliveries[d].task);
    SoleState(db, db.deliveries[d].task);
  }

  lemma CandidateIsUnacknowledged(db: Store, d: string, codec: Codec)
    requires d in db.deliveries && Classify(db, d, codec) == Candidate
    ensures db.deliveries[d].acknowledgedAt.None?
  {
  }

  /**
   * When the selector picks a tuple whose owner is gone, that tuple is the only candidate, so the
   * diagnosis is `Eligible` unless some other row is broken or still has a live owner.
   */
  lemma SelectionBoundsDiagnosis(db: Store, t: Tuple, codec: Codec)
    requires WellFormed(db) && TS.Select(db, codec) == Ok(t) && OwnerGone(db, t.task)
    ensures Members(db, Candidate, codec) == {t.delivery}
    ensures Diagnosis(db, codec) ==
      if Members(db, Broken, codec) != {} then MalformedDatabase
      else if Members(db, LiveOwner, codec) != {} then ActiveOwner
      else Eligible
  {
    hide TS.Prove, Classify, TS.Rows, TS.Select, LeasesOf, OwnerGone, TS.Passes;
    TS.SelectedIsSole(db, t, codec);
    assert TS.Prove(db, t, codec) == Ok(true) by { TS.PassesMeans(db, t.delivery, codec, true); }
    ClassifiersAgree(db, t.delivery, codec);
    forall d | d in Members(db, Candidate, codec) && d != t.delivery
      ensures false
    {
      CandidateIsNotPassedOver(db, d, codec);
    }
  }
}
