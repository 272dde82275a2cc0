/** When the projected snapshot is the actual one, and what that gives the migration. */
module FixtureMigrationTheorems {
  import opened Prelude
  import opened Bytes
  import opened Cells
  import opened Tables
  import opened Snapshots
  import opened FixtureMigration
  import Id = SnapshotIdentity
  import Receipts
  import S = Streams

  // ------------------------------------------------------------- one line

  /** The projection rewrites the line of `k`: SQLite's quoting of `k` is the helper's quoting of an owner. */
  predicate Recognised(k: string, f: Facts) {
    UpToNul(k) in {f.active, f.stopping}
  }

  function AfterRow(k: string, r: Runtime, f: Facts, stamp: string): Runtime {
    if k in {f.active, f.stopping} then r.(state := OwnerStopped, heartbeatAt := stamp) else r
  }

  /** A condition on the row and the stamp alone; NUL-free tokens and stamp satisfy it. */
  predicate RowCommutes(k: string, r: Runtime, f: Facts, stamp: string) {
    if k in {f.active, f.stopping} then Recognised(k, f) && NulFree(stamp)
    else Recognised(k, f) ==> r.state == OwnerStopped && UpToNul(r.heartbeatAt) == stamp
  }

  lemma LineRecognised(k: string, r: Runtime, f: Facts, token: string)
    ensures QuoteRow(RuntimeCells(k, r))[0] == Quoted(token) <==> UpToNul(k) == token
  {
    if Quoted(UpToNul(k)) == Quoted(token) {
      QuotedInjective(UpToNul(k), token);
    }
  }

  lemma QuotedStamp(stamp: string, s: string)
    ensures Quote(Text(s)) == Quoted(stamp) <==> UpToNul(s) == stamp
  {
    if Quoted(UpToNul(s)) == Quoted(stamp) {
      QuotedInjective(UpToNul(s), stamp);
    }
  }

  lemma StateText(state: OwnerState)
    ensures Quote(Text(OwnerText(state))) == Quoted("stopped") <==> state == OwnerStopped
  {
    assert NulFree(OwnerText(state));
    if Quoted(OwnerText(state)) == Quoted("stopped") {
      QuotedInjective(OwnerText(state), "stopped");
      Id.OwnerTexts(state, OwnerStopped);
    }
  }

  lemma RuntimeLine(k: string, r: Runtime, f: Facts, stamp: string)
    requires k in {f.active, f.stopping} ==> r.state != OwnerStopped
    ensures ProjectRuntime(QuoteRow(RuntimeCells(k, r)), f, stamp) == QuoteRow(RuntimeCells(k, AfterRow(k, r, f, stamp)))
       <==> RowCommutes(k, r, f, stamp)
  {
    hide Quote, Quoted, UpToNul, NulFree, OwnerText;
    var r' := AfterRow(k, r, f, stamp);
    var before, after := QuoteRow(RuntimeCells(k, r)), QuoteRow(RuntimeCells(k, r'));
    var projected := ProjectRuntime(before, f, stamp);
    LineRecognised(k, r, f, f.active);
    LineRecognised(k, r, f, f.stopping);
    QuotedStamp(stamp, r'.heartbeatAt);
    StateText(r.state);
    StateText(r'.state);
    NulFreeIsVisible(stamp);
    assert after[2] == Quote(Text(r'.heartbeatAt)) && after[3] == Quote(Text(OwnerText(r'.state)));
    assert before[3] == Quote(Text(OwnerText(r.state)));
    assert projected == after ==> projected[2] == after[2] && projected[3] == after[3];
    assert RowCommutes(k, r, f, stamp) ==> projected == after;
  }

  lemma NulFreeIsVisible(s: string)
    ensures NulFree(s) <==> UpToNul(s) == s
  {
  }

  lemma ContinuationLine(task: string, c: Continuation, f: Facts, stamp: string)
    requires task == f.task && c == f.continuation && c.state == ContinuationBlocked
    ensures var c' := c.(state := ContinuationTerminal, revision := c.revision + 1, heartbeatAt := stamp);
      ProjectContinuation(QuoteRow(ContinuationCells(task, c)), f, stamp) == QuoteRow(ContinuationCells(task, c'))
      <==> NulFree(task) && NulFree(stamp)
  {
    hide Quoted, UpToNul, NulFree, ContinuationText, Decimal;
    var c' := c.(state := ContinuationTerminal, revision := c.revision + 1, heartbeatAt := stamp);
    var before, after := QuoteRow(ContinuationCells(task, c)), QuoteRow(ContinuationCells(task, c'));
    var projected := ProjectContinuation(before, f, stamp);
    QuotedStamp(task, task);
    QuotedStamp(stamp, stamp);
    NulFreeIsVisible(task);
    NulFreeIsVisible(stamp);
    TerminalText();
    assert after[5] == Quote(Text(ContinuationText(ContinuationTerminal))) && before[5] == Quote(Text(ContinuationText(ContinuationBlocked)));
    assert after[4] == Decimal(c.revision + 1) && after[11] == Quote(Text(stamp));
    assert projected == after ==> projected[5] == after[5] && projected[11] == after[11];
    assert NulFree(task) && NulFree(stamp) ==> projected == after;
  }

  lemma TerminalText()
    ensures Quote(Text(ContinuationText(ContinuationTerminal))) == Quoted("terminal")
    ensures Quote(Text(ContinuationText(ContinuationBlocked))) != Quoted("terminal")
  {
    assert NulFree("terminal") && NulFree("blocked");
    if Quoted("blocked") == Quoted("terminal") {
      QuotedInjective("blocked", "terminal");
    }
  }

  // ------------------------------------------------------------ whole tables

  /**
   * What a caller can check before preparing: every owner row is recognised by its quoted token and no
   * other row is, unless it already reads as the projection would write it; task and stamp hold no NUL.
   */
  predicate Projectable(db: Store, f: Facts, stamp: string) {
    && NulFree(f.task) && NulFree(stamp)
    && forall k :: k in db.runtimes ==> RowCommutes(k, db.runtimes[k], f, stamp)
  }

  function Stopped(db: Store, f: Facts, stamp: string): Store {
    var c := f.continuation;
    db.(runtimes := map k | k in db.runtimes :: AfterRow(k, db.runtimes[k], f, stamp),
        continuations := map[f.task := c.(state := ContinuationTerminal, revision := c.revision + 1, heartbeatAt := stamp)])
  }

  /** On an eligible store no compare-and-swap is refused, and the three updates have exactly this effect. */
  lemma UpdatesSucceed(db: Store, f: Facts, stamp: string)
    requires Consistent(db, f)
    ensures ApplyUpdates(db, f, stamp) == Some(Stopped(db, f, stamp))
    ensures EligiblePost(Stopped(db, f, stamp), f, stamp)
  {
    var after := Stopped(db, f, stamp);
    assert f.active != f.stopping;
    assert after.runtimes == db.runtimes[f.active := AfterRow(f.active, f.activeRow, f, stamp)]
                                        [f.stopping := AfterRow(f.stopping, f.stoppingRow, f, stamp)];
    assert db.continuations[f.task := after.continuations[f.task]] == after.continuations;
    assert (set k | k in after.runtimes && k in {f.active, f.stopping}
               && after.runtimes[k].state == OwnerStopped && after.runtimes[k].heartbeatAt == stamp) == {f.active, f.stopping};
  }

  lemma LinesAfter(db: Store, f: Facts, stamp: string)
    ensures var after := Stopped(db, f, stamp);
      Lines(after) == Lines(db)[0 := QuoteTable(ByText(after.runtimes, RuntimeCells))]
                               [8 := QuoteTable(ByText(after.continuations, ContinuationCells))]
  {
    hide ByText, EventRows, QuoteTable;
    var after := Stopped(db, f, stamp);
    var expected := Contents(db)[0 := ByText(after.runtimes, RuntimeCells)]
                                [8 := ByText(after.continuations, ContinuationCells)];
    assert Contents(after) == expected;
  }

  lemma RuntimeTable(db: Store, f: Facts, stamp: string)
    requires Consistent(db, f)
    ensures var after := Stopped(db, f, stamp);
      EachLine(QuoteTable(ByText(db.runtimes, RuntimeCells)), line => ProjectRuntime(line, f, stamp))
        == QuoteTable(ByText(after.runtimes, RuntimeCells))
      <==> forall k :: k in db.runtimes ==> RowCommutes(k, db.runtimes[k], f, stamp)
  {
    hide ProjectRuntime, RuntimeCells, QuoteRow, RowCommutes, Ordered, TotalOrder;
    TextLessIsTotalOrder();
    var after := Stopped(db, f, stamp);
    var keys := Ordered(db.runtimes.Keys, TextLess);
    assert after.runtimes.Keys == db.runtimes.Keys;
    var projected := EachLine(QuoteTable(ByText(db.runtimes, RuntimeCells)), line => ProjectRuntime(line, f, stamp));
    var actual := QuoteTable(ByText(after.runtimes, RuntimeCells));
    assert |projected| == |actual| == |keys|;
    forall i | 0 <= i < |keys|
      ensures projected[i] == actual[i] <==> RowCommutes(keys[i], db.runtimes[keys[i]], f, stamp)
    {
      var k := keys[i];
      assert projected[i] == ProjectRuntime(QuoteRow(RuntimeCells(k, db.runtimes[k])), f, stamp);
      assert actual[i] == QuoteRow(RuntimeCells(k, AfterRow(k, db.runtimes[k], f, stamp)));
      RuntimeLine(k, db.runtimes[k], f, stamp);
    }
    if projected == actual {
      forall k | k in db.runtimes
        ensures RowCommutes(k, db.runtimes[k], f, stamp)
      {
        var i :| 0 <= i < |keys| && keys[i] == k;
        assert projected[i] == actual[i];
      }
    }
  }

  lemma SingleRow(task: string, c: Continuation)
    ensures ByText(map[task := c], ContinuationCells) == [ContinuationCells(task, c)]
  {
  }

  lemma OneLine(row: Row, row': Row, f: Facts, stamp: string)
    ensures EachLine(QuoteTable([row]), line => ProjectContinuation(line, f, stamp)) == QuoteTable([row'])
       <==> ProjectContinuation(QuoteRow(row), f, stamp) == QuoteRow(row')
  {
    hide ProjectContinuation, QuoteRow;
    var projected, actual := EachLine(QuoteTable([row]), line => ProjectContinuation(line, f, stamp)), QuoteTable([row']);
    assert projected[0] == ProjectContinuation(QuoteRow(row), f, stamp) && actual[0] == QuoteRow(row');
    assert projected == [projected[0]] && actual == [actual[0]];
  }

  lemma ContinuationTable(db: Store, f: Facts, stamp: string)
    requires Consistent(db, f)
    ensures var after := Stopped(db, f, stamp);
      EachLine(QuoteTable(ByText(db.continuations, ContinuationCells)), line => ProjectContinuation(line, f, stamp))
        == QuoteTable(ByText(after.continuations, ContinuationCells))
      <==> NulFree(f.task) && NulFree(stamp)
  {
    hide ProjectContinuation, ContinuationCells, QuoteRow, ByText, InState, NulFree, QuoteTable;
    var c := f.continuation;
    var c' := c.(state := ContinuationTerminal, revision := c.revision + 1, heartbeatAt := stamp);
    SingleRow(f.task, c);
    SingleRow(f.task, c');
    ContinuationLine(f.task, c, f, stamp);
    OneLine(ContinuationCells(f.task, c), ContinuationCells(f.task, c'), f, stamp);
  }

  /** The projected tables of the old store are the tables of the new one exactly when it is projectable. */
  lemma LinesCommute(db: Store, f: Facts, stamp: string)
    requires Consistent(db, f)
    ensures ProjectLines(Lines(db), f, stamp) == Lines(Stopped(db, f, stamp)) <==> Projectable(db, f, stamp)
  {
    hide Consistent, Lines, RowCommutes, Stopped;
    LinesAfter(db, f, stamp);
    RuntimeTable(db, f, stamp);
    ContinuationTable(db, f, stamp);
    LinesAt(db);
    var projected, actual := ProjectLines(Lines(db), f, stamp), Lines(Stopped(db, f, stamp));
    assert projected == actual <==> projected[0] == actual[0] && projected[8] == actual[8];
  }

  lemma LinesAt(db: Store)
    ensures Lines(db)[0] == QuoteTable(ByText(db.runtimes, RuntimeCells))
    ensures Lines(db)[8] == QuoteTable(ByText(db.continuations, ContinuationCells))
  {
  }

  /**
   * Projection commutes with update, exactly. The digest computed in advance is the digest the updates
   * produce if and only if the store is projectable.
   */
  lemma ProjectionCommutes(v: Versions, db: Store, f: Facts, stamp: string)
    requires Consistent(db, f)
    requires Fits(ProjectLines(Lines(db), f, stamp)) && Fits(Lines(Stopped(db, f, stamp)))
    ensures Projected(v, db, f, stamp) == Snapshot(v, Stopped(db, f, stamp)) <==> Projectable(db, f, stamp)
  {
    hide Consistent, Lines, Stopped, Fits, Projectable, ProjectLines, Digest;
    LinesCommute(db, f, stamp);
    if Projected(v, db, f, stamp) == Snapshot(v, Stopped(db, f, stamp)) {
      LinesAreRectangular(Stopped(db, f, stamp));
      LinesAreRectangular(db);
      ProjectionKeepsShape(Lines(db), f, stamp);
      DigestInjective(SchemaHeader(v), SchemaHeader(v), ProjectLines(Lines(db), f, stamp), Lines(Stopped(db, f, stamp)));
    }
  }

  lemma ProjectionKeepsShape(tables: seq<seq<S.Line>>, f: Facts, stamp: string)
    requires Rectangular(tables)
    ensures Rectangular(ProjectLines(tables, f, stamp))
  {
  }

  /** Ordinary identifiers and stamps never meet the exception. */
  lemma PlainIsProjectable(db: Store, f: Facts, stamp: string)
    requires forall k :: k in db.runtimes ==> NulFree(k)
    requires NulFree(f.task) && NulFree(stamp)
    ensures Projectable(db, f, stamp)
  {
  }

  // ------------------------------------------------------- prepare, migrate

  /** The texts an address space can hold. */
  ghost predicate Holdable(m: Manifest) {
    Addressable(Encode(ManifestTexts(m)))
  }

  /** Every receipt was written from a sealed manifest of its own operation. */
  ghost predicate ReceiptsSealed(receipts: map<string, Receipt>) {
    forall op :: op in receipts ==>
      exists m: Manifest :: m.operation == op && Holdable(m) && receipts[op].manifestDigest == FramedDigest("", ManifestTexts(m))
  }

  lemma ManifestTextsHead(m: Manifest)
    ensures ManifestTexts(m) != [] && ManifestTexts(m)[0] == m.operation
  {
  }

  /** An authentic manifest is identified by its digest in every field. */
  lemma ManifestIdentified(m: Manifest, n: Manifest)
    requires Authentic(m) && Authentic(n) && Holdable(m) && Holdable(n) && m.manifestDigest == n.manifestDigest
    ensures m == n
  {
    hide FramedDigest;
    FramedDigestInjective("", ManifestTexts(m), ManifestTexts(n));
    var a, b := ManifestTexts(m), ManifestTexts(n);
    assert forall i :: 0 <= i < |a| ==> a[i] == b[i];
  }

  /** The UNIQUE manifest digest never collides with another operation's. */
  lemma DigestIsFree(receipts: map<string, Receipt>, m: Manifest)
    requires ReceiptsSealed(receipts) && Authentic(m) && Holdable(m) && m.operation !in receipts
    ensures !DigestTaken(receipts, m.manifestDigest)
  {
    hide FramedDigest, ManifestTexts;
    forall op | op in receipts
      ensures receipts[op].manifestDigest != m.manifestDigest
    {
      var n: Manifest :| n.operation == op && Holdable(n) && receipts[op].manifestDigest == FramedDigest("", ManifestTexts(n));
      ManifestTextsHead(n);
      ManifestTextsHead(m);
      if FramedDigest("", ManifestTexts(n)) == FramedDigest("", ManifestTexts(m)) {
        FramedDigestInjective("", ManifestTexts(n), ManifestTexts(m));
        assert false;
      }
    }
  }

  lemma ExecuteKeepsReceiptsSealed(x: Fixture, m: Manifest, codec: Codec)
    requires ReceiptsSealed(x.receipts) && Authentic(m) && Holdable(m) && Execute(x, m, codec).Ok?
    ensures ReceiptsSealed(Execute(x, m, codec).value.1.receipts)
  {
    hide FramedDigest, ManifestTexts, Advance, Snapshot, SiblingDigest, Holdable;
    var after := Execute(x, m, codec).value.1.receipts;
    forall op | op in after
      ensures exists n: Manifest :: n.operation == op && Holdable(n) && after[op].manifestDigest == FramedDigest("", ManifestTexts(n))
    {
      if op == m.operation && op !in x.receipts {
        assert after[op] == ReceiptOf(m);
      } else {
        assert after[op] == x.receipts[op];
      }
    }
  }

  ghost predicate FitsBoth(db: Store, f: Facts, stamp: string) {
    Fits(ProjectLines(Lines(db), f, stamp)) && Fits(Lines(Stopped(db, f, stamp)))
  }

  ghost function AfterMigration(x: Fixture, f: Facts, m: Manifest): Fixture {
    x.(store := Stopped(x.store, f, m.stamp), receipts := x.receipts[m.operation := ReceiptOf(m)])
  }

  lemma PreparedFacts(x: Fixture, operation: string, place: Place, stamp: string, codec: Codec)
    requires Prepare(x, operation, place, stamp, codec).Ok?
    ensures var m := Prepare(x, operation, place, stamp, codec).value;
      && Eligible(x.store, codec).Some? && Authentic(m) && FactsMatch(Eligible(x.store, codec).value, m)
      && m.operation == operation && m.stamp == stamp && m.pre == Snapshot(x.versions, x.store)
      && m.post == Projected(x.versions, x.store, Eligible(x.store, codec).value, stamp)
      && m.siblings == SiblingDigest(x.receipts, operation)
  {
    hide Eligible, Snapshot, Projected, SiblingDigest, FramedDigest, OwnerTexts, ContinuationTexts;
  }

  /**
   * A manifest prepared on a database that has not changed since migrates it, if and only if the store
   * is projectable; the effect is then exactly both owners stopped and the continuation ended.
   */
  lemma FreshManifestMigrates(x: Fixture, operation: string, place: Place, stamp: string, codec: Codec)
    requires Prepare(x, operation, place, stamp, codec).Ok? && operation !in x.receipts && ReceiptsSealed(x.receipts)
    requires Holdable(Prepare(x, operation, place, stamp, codec).value)
    requires Eligible(x.store, codec).Some? && FitsBoth(x.store, Eligible(x.store, codec).value, stamp)
    ensures var m, f := Prepare(x, operation, place, stamp, codec).value, Eligible(x.store, codec).value;
      Execute(x, m, codec) ==
        if Projectable(x.store, f, stamp) then Ok((Migrated, AfterMigration(x, f, m))) else Err(MigrateRejected)
  {
    hide Eligible, Snapshot, Projected, SiblingDigest, Prepare, FactsMatch, Projectable, Stopped, FitsBoth,
      Holdable, ReceiptsSealed, DigestTaken, Authentic, Consistent;
    var m, f := Prepare(x, operation, place, stamp, codec).value, Eligible(x.store, codec).value;
    PreparedFacts(x, operation, place, stamp, codec);
    EligibleIsConsistent(x.store, codec);
    UpdatesSucceed(x.store, f, stamp);
    FitsMeans(x.store, f, stamp);
    ProjectionCommutes(x.versions, x.store, f, stamp);
    DigestIsFree(x.receipts, m);
  }

  /** The half that needs nothing of the manifest: a store that is not projectable rejects its own fresh manifest. */
  lemma RejectedUnlessProjectable(x: Fixture, operation: string, place: Place, stamp: string, codec: Codec)
    requires Prepare(x, operation, place, stamp, codec).Ok? && operation !in x.receipts
    requires Eligible(x.store, codec).Some? && FitsBoth(x.store, Eligible(x.store, codec).value, stamp)
    requires !Projectable(x.store, Eligible(x.store, codec).value, stamp)
    ensures Execute(x, Prepare(x, operation, place, stamp, codec).value, codec) == Err(MigrateRejected)
  {
    hide Eligible, Snapshot, Projected, SiblingDigest, Prepare, FactsMatch, Projectable, Stopped, FitsBoth, DigestTaken, Authentic, Consistent;
    var f := Eligible(x.store, codec).value;
    PreparedFacts(x, operation, place, stamp, codec);
    EligibleIsConsistent(x.store, codec);
    UpdatesSucceed(x.store, f, stamp);
    FitsMeans(x.store, f, stamp);
    ProjectionCommutes(x.versions, x.store, f, stamp);
  }

  lemma FitsMeans(db: Store, f: Facts, stamp: string)
    requires FitsBoth(db, f, stamp)
    ensures Fits(ProjectLines(Lines(db), f, stamp)) && Fits(Lines(Stopped(db, f, stamp)))
  {
  }

  lemma SiblingsUnchanged(receipts: map<string, Receipt>, op: string, r: Receipt)
    ensures SiblingDigest(receipts[op := r], op) == SiblingDigest(receipts, op)
  {
    hide FramedDigest, Receipts.Siblings;
    assert Digests(receipts[op := r]) - {op} == Digests(receipts) - {op};
    Receipts.OwnIsSkipped(Digests(receipts[op := r]), Digests(receipts), op);
  }

  /** A rerun of any migration that went through changes nothing. */
  lemma RerunIsAlreadyMigrated(x: Fixture, m: Manifest, codec: Codec)
    requires Execute(x, m, codec).Ok?
    ensures var after := Execute(x, m, codec).value.1; Execute(after, m, codec) == Ok((AlreadyMigrated, after))
  {
    hide Eligible, Snapshot, SiblingDigest, FactsMatch, ApplyUpdates, DigestTaken, EligiblePost;
    SiblingsUnchanged(x.receipts, m.operation, ReceiptOf(m));
  }

  /** A manifest migrates only the very store it was prepared on. */
  lemma StaleManifestIsRejected(x: Fixture, y: Fixture, operation: string, place: Place, stamp: string, codec: Codec)
    requires Prepare(x, operation, place, stamp, codec).Ok?
    requires Id.Plain(x.store) && Id.Plain(y.store) && Fits(Lines(x.store)) && Fits(Lines(y.store))
    requires y.store != x.store && operation !in y.receipts
    ensures Execute(y, Prepare(x, operation, place, stamp, codec).value, codec) == Err(MigrateRejected)
  {
    hide Eligible, Snapshot, SiblingDigest, FactsMatch, ApplyUpdates, DigestTaken, EligiblePost, Prepare, Lines, Fits, Id.Plain, Projected;
    PreparedFacts(x, operation, place, stamp, codec);
    if Snapshot(x.versions, x.store) == Snapshot(y.versions, y.store) {
      Id.SnapshotDetermines(x.versions, x.store, y.versions, y.store);
    }
  }
}
