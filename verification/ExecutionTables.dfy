/** What the three transactions that leave a receipt decide on every database and manifest, column by column. */
module ExecutionTables {
  import opened Prelude
  import opened Bytes
  import opened Tables
  import opened Snapshots
  import opened Sql
  import opened EligibilitySql
  import Receipts
  import FM = FixtureMigration
  import FT = FixtureMigrationTheorems
  import LO = LegacyOwner
  import OB = OwnerBinding
  import OT = OwnerBindingTheorems

  // -------------------------------------------------------------- siblings

  /** Operation, digest, operation, digest, ... of every receipt but one's own, in the order of the operations. */
  lemma {:induction false} PairsExactly(operations: seq<string>, digests: map<string, string>, i: nat)
    requires (forall op :: op in operations ==> op in digests) && i < |operations|
    ensures var p := Receipts.Pairs(operations, digests);
      |p| == 2 * |operations| && p[2 * i] == operations[i] && p[2 * i + 1] == digests[operations[i]]
  {
    if |operations| > 1 {
      PairsExactly(operations[1..], digests, if i > 0 then i - 1 else 0);
    } else {
      assert operations[1..] == [];
    }
  }

  // ------------------------------------------------------ fixture migration

  ghost function MigratedStore(db: Store, f: FM.Facts, stamp: string): Store {
    db.(runtimes := db.runtimes[f.active := f.activeRow.(state := OwnerStopped, heartbeatAt := stamp)]
                               [f.stopping := f.stoppingRow.(state := OwnerStopped, heartbeatAt := stamp)],
        continuations := db.continuations[f.task :=
          f.continuation.(state := ContinuationTerminal, revision := f.continuation.revision + 1, heartbeatAt := stamp)])
  }

  /** The digests of the manifest are those of the rows found. */
  ghost predicate ManifestNames(f: FM.Facts, m: FM.Manifest) {
    && m.active == FramedDigest("", [f.active, f.activeRow.startedAt, f.activeRow.heartbeatAt, "active", f.activeRow.fingerprint])
    && m.stopping == FramedDigest("", [f.stopping, f.stoppingRow.startedAt, f.stoppingRow.heartbeatAt, "stopping", f.stoppingRow.fingerprint])
    && m.continuation == FM.ContinuationDigest(f.task, f.continuation)
  }

  /** Everything the first execution of a manifest checks, apart from the receipt's own key. */
  ghost predicate Due(x: FM.Fixture, m: FM.Manifest, f: FM.Facts, codec: Codec) {
    && FM.SiblingDigest(x.receipts, m.operation) == m.siblings && m.operation !in x.receipts
    && Snapshot(x.versions, x.store) == m.pre && FixtureRows(x.store, f, codec) && ManifestNames(f, m)
    && Snapshot(x.versions, MigratedStore(x.store, f, m.stamp)) == m.post
  }

  ghost predicate DigestRecorded(x: FM.Fixture, m: FM.Manifest) {
    exists op :: op in x.receipts && x.receipts[op].manifestDigest == m.manifestDigest
  }

  ghost predicate SameColumns(r: FM.Receipt, m: FM.Manifest) {
    && r.manifestDigest == m.manifestDigest && r.pre == m.pre && r.post == m.post && r.active == m.active && r.stopping == m.stopping
    && r.continuation == m.continuation && r.receiptDigest == m.receiptDigest && r.siblings == m.siblings && r.stamp == m.stamp
  }

  /** Everything a repeated execution checks: all nine columns of the receipt, and the state it left. */
  ghost predicate AlreadyDone(x: FM.Fixture, m: FM.Manifest) {
    && FM.SiblingDigest(x.receipts, m.operation) == m.siblings && m.operation in x.receipts
    && SameColumns(x.receipts[m.operation], m)
    && Snapshot(x.versions, x.store) == m.post
  }

  ghost function MigratedFixture(x: FM.Fixture, m: FM.Manifest, f: FM.Facts): FM.Fixture {
    FM.Fixture(MigratedStore(x.store, f, m.stamp), x.versions, x.receipts[m.operation :=
      FM.Receipt(m.manifestDigest, m.pre, m.post, m.active, m.stopping, m.continuation, m.receiptDigest, m.siblings, m.stamp)])
  }

  lemma NamesExactly(f: FM.Facts, m: FM.Manifest)
    requires f.activeRow.state == OwnerActive && f.stoppingRow.state == OwnerStopping
    ensures FM.FactsMatch(f, m) <==> ManifestNames(f, m)
  {
    hide FramedDigest;
  }

  lemma StatesOf(db: Store, f: FM.Facts, codec: Codec)
    requires FixtureRows(db, f, codec)
    ensures f.activeRow.state == OwnerActive && f.stoppingRow.state == OwnerStopping && f.active != f.stopping
    ensures db.continuations.Keys == {f.task}
  {
    hide RestRows, BoundRows, Mentions;
    assert |db.continuations.Keys| == 1;
    SingletonIsUnique(db.continuations.Keys);
  }

  lemma UpdatesExactly(db: Store, f: FM.Facts, stamp: string, codec: Codec)
    requires FM.Eligible(db, codec) == Some(f)
    ensures FM.ApplyUpdates(db, f, stamp) == Some(MigratedStore(db, f, stamp)) && FM.EligiblePost(MigratedStore(db, f, stamp), f, stamp)
  {
    hide FM.Eligible, FM.EligiblePost;
    FM.EligibleIsConsistent(db, codec);
    FT.UpdatesSucceed(db, f, stamp);
    var after := MigratedStore(db, f, stamp);
    assert after.runtimes == FT.Stopped(db, f, stamp).runtimes;
    assert after.continuations == FT.Stopped(db, f, stamp).continuations;
  }

  ghost function OwnerWhere(token: string, row: Runtime, state: OwnerState): (string, Runtime) -> bool {
    (k: string, r: Runtime) =>
      && k == token && r.startedAt == row.startedAt && r.heartbeatAt == row.heartbeatAt && r.state == state && row.state == state
      && r.fingerprint == row.fingerprint
  }

  ghost function OwnerSet(stamp: string): Runtime -> Runtime {
    (r: Runtime) => r.(state := OwnerStopped, heartbeatAt := stamp)
  }

  /** `update_owner` as the statement it is: every column guarded. */
  lemma OwnerUpdateExactly(runtimes: map<string, Runtime>, token: string, row: Runtime, state: OwnerState, stamp: string)
    ensures FM.UpdateOwner(runtimes, token, row, state, stamp) ==
      if Count(runtimes, OwnerWhere(token, row, state)) != 1 then None else Some(Update(runtimes, OwnerWhere(token, row, state), OwnerSet(stamp)))
  {
    ByKey(runtimes, OwnerWhere(token, row, state), OwnerSet(stamp), token);
  }

  /** The continuation update: every column guarded. */
  lemma ContinuationUpdateExactly(continuations: map<string, Continuation>, task: string, c: Continuation, stamp: string)
    ensures FM.UpdateContinuation(continuations, task, c, stamp).Some? <==>
      c.state == ContinuationBlocked && task in continuations && continuations[task] == c
    ensures FM.UpdateContinuation(continuations, task, c, stamp).Some? ==>
      var after := FM.UpdateContinuation(continuations, task, c, stamp).value;
      && after.Keys == continuations.Keys && (forall k :: k in after && k != task ==> after[k] == continuations[k])
      && after[task] == c.(state := ContinuationTerminal, revision := c.revision + 1, heartbeatAt := stamp)
  {
  }

  /** `eligible_post`: both owners stopped at the stamp, and the same continuation terminal one revision up. */
  lemma PostExactly(db: Store, f: FM.Facts, stamp: string)
    requires f.active != f.stopping
    ensures FM.EligiblePost(db, f, stamp) <==>
      && f.active in db.runtimes && db.runtimes[f.active].state == OwnerStopped && db.runtimes[f.active].heartbeatAt == stamp
      && f.stopping in db.runtimes && db.runtimes[f.stopping].state == OwnerStopped && db.runtimes[f.stopping].heartbeatAt == stamp
      && f.task in db.continuations && db.continuations[f.task].state == ContinuationTerminal && db.continuations[f.task].heartbeatAt == stamp
      && db.continuations[f.task].revision == f.continuation.revision + 1 && db.continuations[f.task].fence == f.continuation.fence
      && db.continuations[f.task].resource == f.continuation.resource && db.continuations[f.task].delivery == f.continuation.delivery
  {
    var stopped := set k | k in db.runtimes && k in {f.active, f.stopping} && db.runtimes[k].state == OwnerStopped && db.runtimes[k].heartbeatAt == stamp;
    assert stopped <= {f.active, f.stopping};
    if f.active in stopped && f.stopping in stopped {
      assert stopped == {f.active, f.stopping};
    } else if |stopped| == 2 {
      Cover(stopped, f.active, f.stopping);
      assert false;
    }
  }

  lemma Cover(s: set<string>, a: string, b: string)
    requires s <= {a, b} && a != b && (a !in s || b !in s)
    ensures |s| < 2
  {
    if a !in s {
      assert s == if b in s then {b} else {};
    } else {
      assert s == {a};
    }
  }

  /** `execute_transaction` on every database and manifest. */
  lemma ExecuteExactly(x: FM.Fixture, m: FM.Manifest, codec: Codec)
    ensures AlreadyDone(x, m) ==> FM.Execute(x, m, codec) == Ok((FM.AlreadyMigrated, x))
    ensures forall f :: Due(x, m, f, codec) ==>
      FM.Execute(x, m, codec) == if DigestRecorded(x, m) then Err(FM.MigrateDatabase) else Ok((FM.Migrated, MigratedFixture(x, m, f)))
    ensures !AlreadyDone(x, m) && (forall f :: !Due(x, m, f, codec)) ==> FM.Execute(x, m, codec) == Err(FM.MigrateRejected)
  {
    hide FM.SiblingDigest, Snapshot, FM.Eligible, FixtureRows, ManifestNames, FM.FactsMatch, FM.ApplyUpdates, FM.EligiblePost, MigratedStore;
    var facts := FM.Eligible(x.store, codec);
    if facts.Some? {
      var f := facts.value;
      EligibleExactly(x.store, f, codec);
      StatesOf(x.store, f, codec);
      NamesExactly(f, m);
      UpdatesExactly(x.store, f, m.stamp, codec);
      if FM.SiblingDigest(x.receipts, m.operation) == m.siblings && m.operation !in x.receipts {
        assert Due(x, m, f, codec) <==> FM.Advance(x.versions, x.store, m, codec) == Ok(MigratedStore(x.store, f, m.stamp));
      }
    }
    forall f | Due(x, m, f, codec)
      ensures facts == Some(f)
    {
      EligibleExactly(x.store, f, codec);
    }
  }

  // ----------------------------------------------------------- legacy owner

  ghost predicate ReconcileDue(x: LO.Fixture, m: LO.Manifest, owner: string) {
    && m.manifestDigest == LO.ManifestDigest(m) && LO.SiblingDigest(x.receipts, m.operation) == m.siblings && m.operation !in x.receipts
    && LO.LogicalDigest(x.versions, x.store) == m.pre
    && QuietRows(x.store, owner) && LegacyFingerprint(x.store.runtimes[owner].fingerprint)
    && LO.LogicalDigest(x.versions, StoppedStore(x.store, owner, m.heartbeat)) == m.post && m.receiptDigest == LO.ReceiptDigest(m)
  }

  ghost function StoppedStore(db: Store, owner: string, now: string): Store
    requires owner in db.runtimes
  {
    db.(runtimes := db.runtimes[owner := db.runtimes[owner].(state := OwnerStopped, heartbeatAt := now)])
  }

  ghost predicate SameReceipt(r: LO.Receipt, m: LO.Manifest) {
    && r.manifestDigest == m.manifestDigest && r.pre == m.pre && r.post == m.post && r.receiptDigest == m.receiptDigest
    && r.siblings == m.siblings && r.heartbeat == m.heartbeat
  }

  ghost predicate ReconciledBefore(x: LO.Fixture, m: LO.Manifest) {
    && m.manifestDigest == LO.ManifestDigest(m) && LO.SiblingDigest(x.receipts, m.operation) == m.siblings && m.operation in x.receipts
    && SameReceipt(x.receipts[m.operation], m)
    && m.receiptDigest == LO.ReceiptDigest(m) && LO.LogicalDigest(x.versions, x.store) == m.post
  }

  ghost function ReconciledFixture(x: LO.Fixture, m: LO.Manifest, owner: string): LO.Fixture
    requires owner in x.store.runtimes
  {
    LO.Fixture(StoppedStore(x.store, owner, m.heartbeat), x.versions,
      x.receipts[m.operation := LO.Receipt(m.manifestDigest, m.pre, m.post, m.receiptDigest, m.siblings, m.heartbeat)])
  }

  /** The transaction of `reconcile` on every database and manifest. */
  lemma ReconcileOwnerExactly(x: LO.Fixture, m: LO.Manifest)
    ensures ReconciledBefore(x, m) ==> LO.Reconcile(x, m) == Ok((LO.AlreadyStopped, x))
    ensures forall owner :: ReconcileDue(x, m, owner) ==>
      LO.Reconcile(x, m) ==
        if exists op :: op in x.receipts && x.receipts[op].manifestDigest == m.manifestDigest then Err(LO.DatabaseError)
        else Ok((LO.Recovered, ReconciledFixture(x, m, owner)))
    ensures !ReconciledBefore(x, m) && (forall owner :: !ReconcileDue(x, m, owner)) ==> LO.Reconcile(x, m) == Err(LO.Rejected)
  {
    hide LO.SiblingDigest, LO.LogicalDigest, LO.ManifestDigest, LO.ReceiptDigest, LO.Eligible, QuietRows, LegacyFingerprint, FM.ValidLegacy;
    var found := LO.Eligible(x.store);
    if found.Some? {
      var owner := found.value;
      QuietExactly(x.store, owner);
      FingerprintExactly(x.store.runtimes[owner].fingerprint);
      assert OwnerStoppedAt(x.store, owner, m.heartbeat) == StoppedStore(x.store, owner, m.heartbeat);
      assert m.operation !in x.receipts && LO.Reconcile(x, m) != Err(LO.Rejected) ==> ReconcileDue(x, m, owner);
    }
    forall owner | ReconcileDue(x, m, owner)
      ensures found == Some(owner)
    {
      QuietExactly(x.store, owner);
    }
  }

  // ------------------------------------------------------------ remediation

  /** The five digests by which the live rows are compared with those of the backup. */
  ghost predicate FactsAgree(f: OB.Facts, g: OB.Facts) {
    && FramedDigest("GGT050-OWNER-V1", [f.active, f.activeRow.startedAt, f.activeRow.heartbeatAt, OwnerText(f.activeRow.state), f.activeRow.fingerprint])
       == FramedDigest("GGT050-OWNER-V1", [g.active, g.activeRow.startedAt, g.activeRow.heartbeatAt, OwnerText(g.activeRow.state), g.activeRow.fingerprint])
    && FramedDigest("GGT050-OWNER-V1", [f.stopping, f.stoppingRow.startedAt, f.stoppingRow.heartbeatAt, OwnerText(f.stoppingRow.state), f.stoppingRow.fingerprint])
       == FramedDigest("GGT050-OWNER-V1", [g.stopping, g.stoppingRow.startedAt, g.stoppingRow.heartbeatAt, OwnerText(g.stoppingRow.state), g.stoppingRow.fingerprint])
    && FramedDigest("GGT050-CONTINUATION-V1", FM.ContinuationTexts(f.task, f.continuation))
       == FramedDigest("GGT050-CONTINUATION-V1", FM.ContinuationTexts(g.task, g.continuation))
    && FramedDigest("GGT050-LEASE-V1", OB.LeaseTexts(f.continuation.resource, f.lease))
       == FramedDigest("GGT050-LEASE-V1", OB.LeaseTexts(g.continuation.resource, g.lease))
    && FramedDigest("GGT050-ADMISSION-V1", OB.AdmissionTexts(f.task, f.admission))
       == FramedDigest("GGT050-ADMISSION-V1", OB.AdmissionTexts(g.task, g.admission))
  }

  lemma AgreeExactly(f: OB.Facts, g: OB.Facts)
    ensures OB.SameFacts(f, g) <==> FactsAgree(f, g)
  {
    hide FramedDigest, OB.LeaseTexts, OB.AdmissionTexts, FM.ContinuationTexts;
  }

  ghost function BoundStore(db: Store, f: OB.Facts, stamp: string): Store {
    db.(leases := db.leases[f.continuation.resource := f.lease.(owner := f.active)],
        admissions := db.admissions[f.task := f.admission.(runtime := Some(f.active), revision := f.admission.revision + 1, updatedAt := stamp)])
  }

  /** No receipt of this operation, with this digest, or of this backup. */
  ghost predicate ReceiptIsNew(receipts: map<string, OB.Receipt>, operation: string, r: OB.Receipt) {
    && operation !in receipts
    && (forall op :: op in receipts ==> receipts[op].digest != r.digest)
    && (forall op :: op in receipts ==> receipts[op].snapshot != r.snapshot || receipts[op].sourceSet != r.sourceSet)
  }

  ghost function RepairReceipt(env: OB.Env, b: OB.Backup, d: OB.Durable, f: OB.Facts, stamp: string): OB.Receipt {
    OB.SignedReceipt(env.args, f, b.business, BusinessDigest(BoundStore(d.business, f, stamp)),
                     OB.SiblingDigest(d.receipts, OB.OperationId(env.args)), stamp)
  }

  /** `execute_business` on every state: the first of its checks that fails, or the two updates and the receipt. */
  lemma BusinessTable(env: OB.Env, b: OB.Backup, d: OB.Durable, stamp: string)
    ensures (forall f :: !LegacyRows(d.business, f)) ==> OB.ExecuteBusiness(env, b, d, stamp) == Err(OB.Failure("eligibility", "facts"))
    ensures forall f :: LegacyRows(d.business, f) && !FactsAgree(f, b.facts) ==>
      OB.ExecuteBusiness(env, b, d, stamp) == Err(OB.Failure("eligibility", "owner-identity"))
    ensures forall f :: LegacyRows(d.business, f) && FactsAgree(f, b.facts) && !RestRows(d.business, f.task, f.continuation, env.codec) ==>
      OB.ExecuteBusiness(env, b, d, stamp) == Err(OB.Failure("cas", "post-state"))
    ensures forall f :: LegacyRows(d.business, f) && FactsAgree(f, b.facts) && RestRows(d.business, f.task, f.continuation, env.codec) ==>
      var r := RepairReceipt(env, b, d, f, stamp);
      OB.ExecuteBusiness(env, b, d, stamp) ==
        if !ReceiptIsNew(d.receipts, OB.OperationId(env.args), r) then Err(OB.Failure("cas", "receipt"))
        else Ok(d.(business := BoundStore(d.business, f, stamp), receipts := d.receipts[OB.OperationId(env.args) := r]))
  {
    hide OB.LoadFacts, LegacyRows, FactsAgree, OB.SameFacts, RestRows, FM.Eligible, BusinessDigest, OB.SiblingDigest, OB.OperationId;
    hide OB.SignedReceipt, FM.Downstream, OB.LeaseUnchanged, OB.AdmissionUnchanged;
    var facts := OB.LoadFacts(d.business);
    if facts.Some? {
      LoadFactsExactly(d.business, facts.value);
    }
    forall f | LegacyRows(d.business, f)
      ensures facts == Some(f) && (OB.SameFacts(f, b.facts) <==> FactsAgree(f, b.facts))
      ensures OB.LeaseUnchanged(d.business, f) && OB.AdmissionUnchanged(d.business, f) && OB.Repaired(d.business, f, stamp) == BoundStore(d.business, f, stamp)
      ensures FM.Eligible(BoundStore(d.business, f, stamp), env.codec).Some? <==> RestRows(d.business, f.task, f.continuation, env.codec)
      ensures OB.Insertable(d.receipts, OB.OperationId(env.args), RepairReceipt(env, b, d, f, stamp))
        <==> ReceiptIsNew(d.receipts, OB.OperationId(env.args), RepairReceipt(env, b, d, f, stamp))
    {
      LoadFactsExactly(d.business, f);
      AgreeExactly(f, b.facts);
      OT.LoadFactsMeans(d.business);
      OT.GuardsHold(d.business, f);
      OT.RepairedEligibleExactly(d.business, f, stamp, env.codec);
      DownstreamExactly(d.business, f.task, f.continuation, env.codec);
    }
  }
}
