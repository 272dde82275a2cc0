/** What the row digests identify, the step-by-step form of a run, and remediation followed by migration. */
module OwnerBindingChain {
  import opened Prelude
  import opened Bytes
  import opened Tables
  import opened Snapshots
  import opened OwnerBinding
  import opened OwnerBindingTheorems
  import opened OwnerBindingProtocol
  import FM = FixtureMigration
  import FT = FixtureMigrationTheorems
  import Id = SnapshotIdentity

  // ------------------------------------------------------------ row digests

  ghost predicate HoldableLease(k: string, l: Lease) {
    Addressable(Encode(LeaseTexts(k, l)))
  }

  ghost predicate HoldableAdmission(t: string, a: Admission) {
    Addressable(Encode(AdmissionTexts(t, a)))
  }

  /** A lease digest identifies the lease row. */
  lemma LeaseDigestExactly(k: string, l: Lease, k': string, l': Lease)
    requires HoldableLease(k, l) && HoldableLease(k', l')
    ensures LeaseDigest(k, l) == LeaseDigest(k', l') <==> k == k' && l == l'
  {
    hide FramedDigest, Decimal, LeaseText;
    if LeaseDigest(k, l) == LeaseDigest(k', l') {
      FramedDigestInjective("GGT050-LEASE-V1", LeaseTexts(k, l), LeaseTexts(k', l'));
      var a, b := LeaseTexts(k, l), LeaseTexts(k', l');
      assert forall i :: 0 <= i < |a| ==> a[i] == b[i];
      DecimalInjective(l.fence, l'.fence);
      Id.LeaseTexts(l.state, l'.state);
    }
  }

  ghost predicate HoldableOwner(k: string, r: Runtime) {
    Addressable(Encode(FM.OwnerTexts(k, r)))
  }

  ghost predicate HoldableContinuation(t: string, c: Continuation) {
    Addressable(Encode(FM.ContinuationTexts(t, c)))
  }

  lemma OwnerDigestExactly(k: string, r: Runtime, k': string, r': Runtime)
    requires HoldableOwner(k, r) && HoldableOwner(k', r')
    ensures OwnerDigest(k, r) == OwnerDigest(k', r') <==> k == k' && r == r'
  {
    hide FramedDigest, OwnerText;
    if OwnerDigest(k, r) == OwnerDigest(k', r') {
      var a, b := FM.OwnerTexts(k, r), FM.OwnerTexts(k', r');
      FramedDigestInjective("GGT050-OWNER-V1", a, b);
      assert forall i :: 0 <= i < |a| ==> a[i] == b[i];
      Id.OwnerTexts(r.state, r'.state);
    }
  }

  lemma ContinuationTextsExactly(t: string, c: Continuation, t': string, c': Continuation)
    requires FM.ContinuationTexts(t, c) == FM.ContinuationTexts(t', c')
    ensures t == t' && c == c'
  {
    hide Decimal, ContinuationText;
    var a, b := FM.ContinuationTexts(t, c), FM.ContinuationTexts(t', c');
    assert forall i :: 0 <= i < |a| ==> a[i] == b[i];
    Id.ContinuationTexts(c.state, c'.state);
    DecimalInjective(c.fence, c'.fence);
    DecimalInjective(c.revision, c'.revision);
    DecimalInjective(c.nextTurn, c'.nextTurn);
    DecimalInjective(c.completedTurns, c'.completedTurns);
    DecimalInjective(c.noProgress, c'.noProgress);
    DecimalInjective(c.outputBytes, c'.outputBytes);
    DecimalInjective(c.generationVersion, c'.generationVersion);
  }

  lemma ContinuationDigestExactly(t: string, c: Continuation, t': string, c': Continuation)
    requires HoldableContinuation(t, c) && HoldableContinuation(t', c')
    ensures ContinuationDigest(t, c) == ContinuationDigest(t', c') <==> t == t' && c == c'
  {
    hide FramedDigest, FM.ContinuationTexts;
    if ContinuationDigest(t, c) == ContinuationDigest(t', c') {
      FramedDigestInjective("GGT050-CONTINUATION-V1", FM.ContinuationTexts(t, c), FM.ContinuationTexts(t', c'));
      ContinuationTextsExactly(t, c, t', c');
    }
  }

  ghost predicate HoldableFacts(f: Facts) {
    && HoldableOwner(f.active, f.activeRow) && HoldableOwner(f.stopping, f.stoppingRow) && HoldableContinuation(f.task, f.continuation)
    && HoldableLease(f.continuation.resource, f.lease) && HoldableAdmission(f.task, f.admission)
  }

  /** A receipt identifies what was repaired: the same receipt means the same backup, digests, time and rows. */
  lemma ReceiptIdentifies(args: Args, f: Facts, pre: string, post: string, siblings: string, stamp: string,
                          args': Args, f': Facts, pre': string, post': string, siblings': string, stamp': string)
    requires HoldableFacts(f) && HoldableFacts(f')
    requires SignedReceipt(args, f, pre, post, siblings, stamp) == SignedReceipt(args', f', pre', post', siblings', stamp')
    ensures args.snapshot == args'.snapshot && args.sourceSet == args'.sourceSet
    ensures pre == pre' && post == post' && siblings == siblings' && stamp == stamp'
    ensures f == f'.(admission := f.admission) && Blurred(f.admission) == Blurred(f'.admission)
  {
    hide OwnerDigest, ContinuationDigest, LeaseDigest, AdmissionDigest, ReceiptDigest, HoldableOwner, HoldableContinuation,
      HoldableLease, HoldableAdmission, Blurred;
    OwnerDigestExactly(f.active, f.activeRow, f'.active, f'.activeRow);
    OwnerDigestExactly(f.stopping, f.stoppingRow, f'.stopping, f'.stoppingRow);
    ContinuationDigestExactly(f.task, f.continuation, f'.task, f'.continuation);
    LeaseDigestExactly(f.continuation.resource, f.lease, f'.continuation.resource, f'.lease);
    AdmissionDigestExactly(f.task, f.admission, f'.task, f'.admission);
  }

  ghost predicate HoldableArgs(args: Args) {
    Addressable(Encode([args.snapshot, args.sourceSet, args.liveSourceSet]))
  }

  /** Different arguments are different operations. */
  lemma OperationIdExactly(args: Args, args': Args)
    requires HoldableArgs(args) && HoldableArgs(args')
    ensures OperationId(args) == OperationId(args') <==> args == args'
  {
    hide FramedDigest;
    var a, b := [args.snapshot, args.sourceSet, args.liveSourceSet], [args'.snapshot, args'.sourceSet, args'.liveSourceSet];
    if OperationId(args) == OperationId(args') {
      FramedDigestInjective("GGT050-OWNER-BINDING-REMEDIATION-V2" + [0 as char], a, b);
      assert a[0] == b[0] && a[1] == b[1] && a[2] == b[2];
    }
  }

  /** What an admission digest can tell apart: a NULL and the text `<null>` look alike, the monitor generation is not seen. */
  function Blurred(a: Admission): Admission {
    a.(runtime := Some(OrNull(a.runtime)), replyRoom := Some(OrNull(a.replyRoom)),
       replyThreadRoot := Some(OrNull(a.replyThreadRoot)), replyEventId := Some(OrNull(a.replyEventId)),
       monitorRoom := Some(OrNull(a.monitorRoom)), renderVersion := Some(OrNull(a.renderVersion)), monitorGeneration := None)
  }

  lemma AdmissionDigestExactly(t: string, a: Admission, t': string, a': Admission)
    requires HoldableAdmission(t, a) && HoldableAdmission(t', a')
    ensures AdmissionDigest(t, a) == AdmissionDigest(t', a') <==> t == t' && Blurred(a) == Blurred(a')
  {
    hide FramedDigest, Decimal, AdmissionText, OrNull;
    if AdmissionDigest(t, a) == AdmissionDigest(t', a') {
      FramedDigestInjective("GGT050-ADMISSION-V1", AdmissionTexts(t, a), AdmissionTexts(t', a'));
      var x, y := AdmissionTexts(t, a), AdmissionTexts(t', a');
      assert forall i :: 0 <= i < |x| ==> x[i] == y[i];
      DecimalInjective(a.revision, a'.revision);
      Id.AdmissionTexts(a.state, a'.state);
    }
  }

  /** Two admissions that the digest cannot tell apart although the quoted snapshot can. */
  lemma NullLooksLikeText(t: string, a: Admission)
    requires a.replyRoom.None?
    ensures var b := a.(replyRoom := Some("<null>"));
      a != b && AdmissionDigest(t, a) == AdmissionDigest(t, b)
      && Cells.QuoteRow(AdmissionCells(t, a)) != Cells.QuoteRow(AdmissionCells(t, b))
  {
    hide FramedDigest, Cells.Quote, Decimal, AdmissionText;
    var b := a.(replyRoom := Some("<null>"));
    assert AdmissionTexts(t, a) == AdmissionTexts(t, b);
    var x, y := Cells.QuoteRow(AdmissionCells(t, a)), Cells.QuoteRow(AdmissionCells(t, b));
    assert x[4] == Cells.Quote(Cells.Null) && y[4] == Cells.Quote(Cells.Text("<null>"));
    Cells.QuoteExact(Cells.Null, Cells.Text("<null>"));
  }

  /** A successful run leaves exactly the repaired lease row, and the repaired admission up to `<null>`. */
  lemma AttestedRows(env: Env, d: Durable)
    requires Attested(env, d) && FirstLease(d.business).Some? && FirstAdmission(d.business).Some?
    requires
      var f, stamp := ReadBackup(env).value.facts, d.receipts[OperationId(env.args)].timestamp;
      var l, a := FirstLease(d.business).value, FirstAdmission(d.business).value;
      && HoldableLease(l.0, l.1) && HoldableLease(f.continuation.resource, LeaseAfter(f))
      && HoldableAdmission(a.0, a.1) && HoldableAdmission(f.task, AdmissionAfter(f, stamp))
    ensures
      var f, stamp := ReadBackup(env).value.facts, d.receipts[OperationId(env.args)].timestamp;
      var a := FirstAdmission(d.business).value;
      && FirstLease(d.business).value == (f.continuation.resource, LeaseAfter(f))
      && a.0 == f.task && Blurred(a.1) == Blurred(AdmissionAfter(f, stamp))
  {
    hide ReadBackup, SignedReceipt, BusinessDigest, SiblingDigest, LeaseDigest, AdmissionDigest, FirstLease, FirstAdmission, Blurred,
      HoldableLease, HoldableAdmission, LedgerAuthentic, ExpectedWitness, OperationId;
    var f, stamp := ReadBackup(env).value.facts, d.receipts[OperationId(env.args)].timestamp;
    var l, a := FirstLease(d.business).value, FirstAdmission(d.business).value;
    LeaseDigestExactly(l.0, l.1, f.continuation.resource, LeaseAfter(f));
    AdmissionDigestExactly(a.0, a.1, f.task, AdmissionAfter(f, stamp));
  }

  // ------------------------------------------------- remediate, then migrate

  /** The same facts, as the migration sees them. */
  function ForMigration(f: Facts): FM.Facts {
    FM.Facts(f.active, f.activeRow, f.stopping, f.stoppingRow, f.task, f.continuation)
  }

  /** After any runs, a remediated database has no reference to the stopping runtime and is eligible for migration. */
  lemma RemediatedIsEligible(env: Env, d: Durable, stamp: string)
    requires Ready(env) && DonePhase(env, d, stamp)
    requires Orderly(env)
    ensures var f := TheBackup(env).facts;
      && FM.References(env.retained.business, f.stopping) == 2 && FM.References(d.business, f.stopping) == 0
      && LoadFacts(env.retained.business).Some? && LoadFacts(d.business).None?
      && FM.Eligible(env.retained.business, env.codec).None?
      && FM.Eligible(d.business, env.codec) == Some(ForMigration(f))
  {
    hide ReadBackup, BusinessDigest, FM.Downstream, LoadFacts, FM.Eligible, FM.BoundTo, FM.References, FM.FindOwners, Repaired,
      Witnessed, ReceiptAt, OperationId;
    var f, db := TheBackup(env).facts, env.retained.business;
    BackupMeans(env);
    RepairBinds(db, f, stamp);
    RepairedEligibleExactly(db, f, stamp, env.codec);
    NeverBothEligible(db, env.codec);
    if LoadFacts(d.business).Some? {
      NeverBothEligible(d.business, env.codec);
    }
  }

  /** The migration's own provisos, on a database whose facts are `f`. */
  ghost predicate Migratable(x: FM.Fixture, f: FM.Facts, operation: string, place: FM.Place, at: string, codec: Codec) {
    && operation !in x.receipts && FT.ReceiptsSealed(x.receipts)
    && FT.FitsBoth(x.store, f, at) && FT.Projectable(x.store, f, at)
    && var m := FM.Prepare(x, operation, place, at, codec);
       m.Ok? ==> FT.Holdable(m.value)
  }

  /**
   * The chain. Remediate under any weather until it is done, prepare a migration manifest, migrate: both owners
   * are stopped and the continuation is terminal, one revision up. The provisos are the migration's own.
   */
  lemma RemediateThenMigrate(env: Env, d: Durable, stamp: string, x: FM.Fixture, operation: string, place: FM.Place, at: string)
    returns (m: FM.Manifest, after: FM.Fixture)
    requires Ready(env) && DonePhase(env, d, stamp) && x.store == d.business
    requires Orderly(env)
    requires Migratable(x, ForMigration(TheBackup(env).facts), operation, place, at, env.codec)
    ensures FM.Prepare(x, operation, place, at, env.codec) == Ok(m)
    ensures FM.Execute(x, m, env.codec) == Ok((FM.Migrated, after))
    ensures Ended(after.store, TheBackup(env).facts, at)
  {
    hide ReadBackup, BusinessDigest, FM.Downstream, FM.Eligible, FM.Execute, FM.References, LoadFacts, DonePhase, TheBackup, FT.FitsBoth,
      FT.Projectable, FT.Holdable, FT.ReceiptsSealed, Ready, FT.Stopped, Ended, Snapshot, FM.Projected;
    var f := TheBackup(env).facts;
    RemediatedIsEligible(env, d, stamp);
    m := FM.Prepare(x, operation, place, at, env.codec).value;
    FT.FreshManifestMigrates(x, operation, place, at, env.codec);
    after := FT.AfterMigration(x, ForMigration(f), m);
    FT.PreparedFacts(x, operation, place, at, env.codec);
    FM.EligibleIsConsistent(x.store, env.codec);
    StoppedIsEnded(x.store, f, at);
  }

  ghost predicate Ended(db: Store, f: Facts, at: string) {
    && f.active in db.runtimes && db.runtimes[f.active] == f.activeRow.(state := OwnerStopped, heartbeatAt := at)
    && f.stopping in db.runtimes && db.runtimes[f.stopping] == f.stoppingRow.(state := OwnerStopped, heartbeatAt := at)
    && f.task in db.continuations && db.continuations[f.task]
         == f.continuation.(state := ContinuationTerminal, revision := f.continuation.revision + 1, heartbeatAt := at)
  }

  lemma StoppedIsEnded(db: Store, f: Facts, at: string)
    requires FM.Consistent(db, ForMigration(f))
    ensures Ended(FT.Stopped(db, ForMigration(f), at), f, at)
  {
  }

  // ---------------------------------------------------- the imperative form

  lemma RollbackHalts(env: Env, b: Backup, d: Durable, w: Weather, f: Failure)
    ensures AfterPublicationRollback(env, b, d, w, f).Halt? && AfterPublicationRollback(env, b, d, w, f).d == d
    ensures FinishPublication(env, b, d, w).d == d
  {
  }

  /** A database file as the command sees it: the durable state and the copy an open transaction works on. */
  class Database {
    var durable: Durable
    var copy: Durable

    constructor (start: Durable)
      ensures durable == start && copy == start
    {
      durable, copy := start, start;
    }

    method Begin()
      modifies this
      ensures durable == old(durable) && copy == durable
    {
      copy := durable;
    }

    /** A commit that may or may not reach the disk. */
    method Commit(applied: bool)
      modifies this
      ensures durable == if applied then old(copy) else old(durable)
      ensures copy == durable
    {
      if applied { durable := copy; }
      copy := durable;
    }

    /** `execute_business`: every statement works on the open transaction. */
    method ExecuteBusiness(env: Env, b: Backup, stamp: string) returns (r: Result<(), Failure>)
      modifies this
      ensures durable == old(durable)
      ensures r.Ok? <==> OwnerBinding.ExecuteBusiness(env, b, old(copy), stamp).Ok?
      ensures r.Ok? ==> copy == OwnerBinding.ExecuteBusiness(env, b, old(copy), stamp).value
      ensures r.Err? ==> r.error == OwnerBinding.ExecuteBusiness(env, b, old(copy), stamp).error
    {
      hide BusinessDigest, LoadFacts, SameFacts, FM.Eligible, SignedReceipt, Insertable, OperationId, SiblingDigest;
      var facts := LoadFacts(copy.business);
      if facts.None? { return Err(Failure("eligibility", "facts")); }
      if !SameFacts(facts.value, b.facts) { return Err(Failure("eligibility", "owner-identity")); }
      var f := facts.value;
      var db := copy.business;
      if !LeaseUnchanged(db, f) { return Err(Failure("cas", "lease")); }
      copy := copy.(business := db.(leases := db.leases[f.continuation.resource := LeaseAfter(f)]));
      db := copy.business;
      if !AdmissionUnchanged(db, f) { return Err(Failure("cas", "admission")); }
      copy := copy.(business := db.(admissions := db.admissions[f.task := AdmissionAfter(f, stamp)]));
      if FM.Eligible(copy.business, env.codec).None? { return Err(Failure("cas", "post-state")); }
      var post := BusinessDigest(copy.business);
      var op := OperationId(env.args);
      var receipt := SignedReceipt(env.args, f, b.business, post, SiblingDigest(copy.receipts, op), stamp);
      if !Insertable(copy.receipts, op, receipt) { return Err(Failure("cas", "receipt")); }
      copy := copy.(receipts := copy.receipts[op := receipt]);
      return Ok(());
    }

    /** The publication half of `remediate_paths_opening`; `None` means that the run goes on. */
    method Publish(env: Env, b: Backup, w: Weather) returns (stop: Option<Report>)
      modifies this
      ensures Publication(env, b, old(durable), w) == if stop.None? then Proceed(durable) else Halt(durable, stop.value)
    {
      hide BusinessDigest, LedgerAuthentic, ExpectedWitness, PublicationTx, TablesAuthentic, AfterPublicationRollback, FinishPublication;
      if !w.readable(LedgerRead) { return Some(Reported(Err(Failure("migration", "ledger")))); }
      if Latest(durable.ledger) == VERSION - 1 {
        if !w.readable(LiveRead) { return Some(Reported(Err(UNREADABLE))); }
        if !LegacyAbsence(env, durable, b.business) { return Some(Reported(Err(INCOMPATIBLE))); }
        if !w.beginsPublication { return Some(Reported(Err(Failure("migration", "busy")))); }
        Begin();
        var tx := PublicationTx(env, b, copy, w);
        if tx.Err? {
          match tx.error {
            case StopDied => return Some(Died);
            case StopFailed(f) =>
              RollbackHalts(env, b, durable, w, f);
              return Some(AfterPublicationRollback(env, b, durable, w, f).report);
          }
        }
        copy := tx.value;
        match w.answer(BeforePublicationCommit) {
          case Die => return Some(Died);
          case Reject(f) =>
            RollbackHalts(env, b, durable, w, f);
            return Some(AfterPublicationRollback(env, b, durable, w, f).report);
          case Pass =>
        }
        Commit(w.publication.applied);
        RollbackHalts(env, b, durable, w, APPLY);
        var step := FinishPublication(env, b, durable, w);
        return if step.Halt? then Some(step.report) else None;
      }
      if Latest(durable.ledger) == VERSION && w.readable(LiveRead) && SchemaAuthentic(env, durable) && WitnessExact(env, durable, b.business) {
        return None;
      }
      return Some(Reported(Err(INCOMPATIBLE)));
    }

    /** The business half. */
    method RepairBindings(env: Env, b: Backup, w: Weather) returns (report: Report)
      modifies this
      ensures (durable, report) == Repair(env, b, old(durable), w)
    {
      hide BusinessDigest, OwnerBinding.ExecuteBusiness, ReceiptRepeat, AfterBusinessRollback, FinishBusiness;
      if !w.readable(CurrentRead) { return Reported(Err(UNREADABLE)); }
      var repeat := ReceiptRepeat(env, b, durable);
      if repeat.Err? { return Reported(Err(repeat.error)); }
      if repeat.value {
        return Reported(if w.closes then Ok(AlreadyRemediated) else Err(UNREADABLE));
      }
      if BusinessDigest(durable.business) != b.business { return Reported(Err(Failure("receipt", "post-state"))); }
      if !w.beginsBusiness { return Reported(Err(Failure("database", "busy"))); }
      Begin();
      if !w.readable(BusinessTxRead) {
        return AfterBusinessRollback(env, b, durable, w, UNREADABLE);
      }
      var result := ExecuteBusiness(env, b, w.stamp);
      if result.Err? {
        return AfterBusinessRollback(env, b, durable, w, result.error);
      }
      match w.answer(BeforeBusinessCommit) {
        case Die => return Died;
        case Reject(f) => return Reported(Err(f));
        case Pass =>
      }
      Commit(w.business.applied);
      return FinishBusiness(env, b, durable, w);
    }

    /** `remediate_paths_opening`. */
    method Remediate(env: Env, w: Weather) returns (report: Report)
      modifies this
      ensures (durable, report) == Run(env, old(durable), w)
    {
      hide ReadBackup, Publication, Repair;
      if !w.readable(BackupRead) { return Reported(Err(UNREADABLE)); }
      var b := ReadBackup(env);
      if b.Err? { return Reported(Err(b.error)); }
      match w.answer(BeforePublication) {
        case Die => return Died;
        case Reject(f) => return Reported(Err(f));
        case Pass =>
      }
      if !w.opens { return Reported(Err(Failure("database", "connect"))); }
      var stop := Publish(env, b.value, w);
      if stop.Some? { return stop.value; }
      report := RepairBindings(env, b.value, w);
    }
  }
}
