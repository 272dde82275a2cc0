/** Crash safety, at-most-once effect and sound outcomes of owner-binding remediation. */
module OwnerBindingTheorems {
  import opened Prelude
  import opened Bytes
  import opened Tables
  import opened Snapshots
  import opened OwnerBinding
  import FM = FixtureMigration

  // --------------------------------------------------- the repaired store

  /** The lease and admission are two references, so there is no third. */
  lemma OnlyTwoReferences(db: Store, s: string, task: string, c: Continuation)
    requires LegacyBound(db, s, task, c)
    ensures db.leases.Keys == {c.resource} && db.admissions.Keys == {task}
    ensures forall q :: q in db.queue ==> db.queue[q].owner != Some(s)
    ensures forall k :: k in db.claims ==> db.claims[k].owner != s
  {
    SingletonIsUnique(db.leases.Keys);
    SingletonIsUnique(db.admissions.Keys);
    var ls := set k | k in db.leases && db.leases[k].owner == s;
    var ads := set t | t in db.admissions && db.admissions[t].runtime == Some(s);
    var qs := set q | q in db.queue && db.queue[q].owner == Some(s);
    var cs := set k | k in db.claims && db.claims[k].owner == s;
    assert ls == {c.resource} && ads == {task};
    assert |qs| + |cs| == 0;
    assert qs == {} && cs == {};
    assert forall q :: q in db.queue && db.queue[q].owner == Some(s) ==> q in qs;
    assert forall k :: k in db.claims && db.claims[k].owner == s ==> k in cs;
  }

  ghost predicate Loaded(db: Store, f: Facts) {
    && FM.FindOwners(db) == Some(FM.Owners(f.active, f.stopping)) && f.active != f.stopping
    && f.active in db.runtimes && db.runtimes[f.active] == f.activeRow
    && f.stopping in db.runtimes && db.runtimes[f.stopping] == f.stoppingRow
    && db.continuations == map[f.task := f.continuation] && LegacyBound(db, f.stopping, f.task, f.continuation)
    && f.lease == db.leases[f.continuation.resource] && f.admission == db.admissions[f.task]
  }

  lemma LoadFactsMeans(db: Store)
    requires LoadFacts(db).Some?
    ensures Loaded(db, LoadFacts(db).value)
  {
  }

  lemma BoundRows(db: Store, s: string, task: string, c: Continuation)
    requires LegacyBound(db, s, task, c)
    ensures c.resource in db.leases && task in db.admissions
  {
  }

  /** Neither compare-and-swap is ever refused. */
  lemma GuardsHold(db: Store, f: Facts)
    requires Loaded(db, f)
    ensures LeaseUnchanged(db, f) && AdmissionUnchanged(db, f)
  {
  }

  /** No state is eligible both for remediation and for fixture migration. */
  lemma NeverBothEligible(db: Store, codec: Codec)
    requires LoadFacts(db).Some?
    ensures FM.Eligible(db, codec).None?
  {
  }

  lemma OwnersUntouched(db: Store, f: Facts, stamp: string)
    ensures FM.FindOwners(Repaired(db, f, stamp)) == FM.FindOwners(db)
  {
  }

  lemma RepairedRowsAre(db: Store, f: Facts, stamp: string)
    requires Loaded(db, f)
    ensures Repaired(db, f, stamp).leases == map[f.continuation.resource := LeaseAfter(f)]
    ensures Repaired(db, f, stamp).admissions == map[f.task := AdmissionAfter(f, stamp)]
    ensures f.lease.task == f.task && f.lease.fence == f.continuation.fence && f.lease.state == LeaseReleased
    ensures f.admission.state == AdmissionTerminal
    ensures forall q :: q in db.queue ==> db.queue[q].owner != Some(f.stopping)
    ensures forall k :: k in db.claims ==> db.claims[k].owner != f.stopping
  {
    hide FM.FindOwners, FM.References;
    OnlyTwoReferences(db, f.stopping, f.task, f.continuation);
  }

  lemma RepairBinds(db: Store, f: Facts, stamp: string)
    requires Loaded(db, f)
    ensures var after := Repaired(db, f, stamp);
      && FM.BoundTo(after, f.active, f.task, f.continuation) && FM.References(after, f.stopping) == 0
      && |after.leases| == 1 && |after.admissions| == 1
      && after.leases == map[f.continuation.resource := LeaseAfter(f)]
      && after.admissions == map[f.task := AdmissionAfter(f, stamp)]
  {
    hide FM.FindOwners, FM.References, LegacyBound;
    RepairedRowsAre(db, f, stamp);
    FM.Unreferenced(Repaired(db, f, stamp), f.stopping);
  }

  lemma SessionsUntouched(db: Store, f: Facts, stamp: string, s: Session)
    requires Loaded(db, f)
    ensures FM.SessionQuiet(Repaired(db, f, stamp), s) <==> FM.SessionQuiet(db, s)
  {
    hide FM.TaskOver, LegacyBound, FM.FindOwners, FM.Reaped;
    var after := Repaired(db, f, stamp);
    RepairBinds(db, f, stamp);
    BoundRows(db, f.stopping, f.task, f.continuation);
    assert after.leases.Keys == db.leases.Keys;
    forall d, k | d in db.dispositions && k in db.leases
      ensures FM.SessionSettledBy(after, s, d, k) <==> FM.SessionSettledBy(db, s, d, k)
    {
      TaskOverUntouched(db, f, stamp, db.dispositions[d].task);
    }
  }

  lemma TaskOverUntouched(db: Store, f: Facts, stamp: string, task: string)
    ensures FM.TaskOver(Repaired(db, f, stamp), task) <==> FM.TaskOver(db, task)
  {
  }

  lemma DownstreamUntouched(db: Store, f: Facts, stamp: string, codec: Codec)
    requires Loaded(db, f)
    ensures FM.Downstream(Repaired(db, f, stamp), f.task, f.continuation, codec) <==> FM.Downstream(db, f.task, f.continuation, codec)
  {
    hide FM.TaskOver, FM.SessionQuiet, FM.DispositionSettled, FM.ResponseValid, FM.FindOwners, LegacyBound;
    var after := Repaired(db, f, stamp);
    TaskOverUntouched(db, f, stamp, f.task);
    forall i | 0 <= i < |db.sessions|
      ensures FM.SessionQuiet(after, db.sessions[i]) <==> FM.SessionQuiet(db, db.sessions[i])
    {
      SessionsUntouched(db, f, stamp, db.sessions[i]);
    }
    assert FM.DispositionSettled(after, f.continuation.delivery) == FM.DispositionSettled(db, f.continuation.delivery) by {
      DispositionUntouched(db, f, stamp, f.continuation.delivery);
    }
    ResponseUntouched(db, f, stamp, codec);
    assert FM.NothingPending(after) == FM.NothingPending(db);
  }

  lemma DispositionUntouched(db: Store, f: Facts, stamp: string, d: string)
    ensures FM.DispositionSettled(Repaired(db, f, stamp), d) == FM.DispositionSettled(db, d)
  {
  }

  lemma ResponseUntouched(db: Store, f: Facts, stamp: string, codec: Codec)
    ensures FM.ResponseValid(Repaired(db, f, stamp), f.task, f.continuation, codec) == FM.ResponseValid(db, f.task, f.continuation, codec)
  {
  }

  /**
   * A repaired store is eligible for fixture migration exactly when the legacy store already met every
   * eligibility condition that mentions neither owner.
   */
  lemma RepairedEligibleExactly(db: Store, f: Facts, stamp: string, codec: Codec)
    requires Loaded(db, f)
    ensures FM.Eligible(Repaired(db, f, stamp), codec).Some? <==> FM.Downstream(db, f.task, f.continuation, codec)
    ensures FM.Eligible(Repaired(db, f, stamp), codec).Some? ==>
      FM.Eligible(Repaired(db, f, stamp), codec).value
        == FM.Facts(f.active, f.activeRow, f.stopping, f.stoppingRow, f.task, f.continuation)
  {
    hide FM.Downstream, FM.BoundTo, FM.References, FM.FindOwners;
    var after := Repaired(db, f, stamp);
    OwnersUntouched(db, f, stamp);
    RepairBinds(db, f, stamp);
    DownstreamUntouched(db, f, stamp, codec);
    assert after.continuations.Keys == {f.task};
  }
}
