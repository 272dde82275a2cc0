/** The logical digest is injective, its projection commutes exactly when the stamp and tokens allow it, and what follows. */
module LegacyOwnerTheorems {
  import opened Prelude
  import opened Bytes
  import opened Cells
  import opened Tables
  import opened Snapshots
  import opened LegacyOwner
  import FM = FixtureMigration
  import FT = FixtureMigrationTheorems
  import Receipts
  import S = Streams

  // ----------------------------------------------------------- injectivity

  lemma {:induction false} RowPartsSplit(columns: seq<string>, a: S.Line, b: S.Line, x: seq<string>, y: seq<string>)
    requires |a| == |b| == |columns| && RowParts(columns, a) + x == RowParts(columns, b) + y
    ensures a == b && x == y
    decreases columns
  {
    if columns != [] {
      var p, q := RowParts(columns[1..], a[1..]), RowParts(columns[1..], b[1..]);
      assert RowParts(columns, a) + x == [columns[0], a[0]] + (p + x);
      assert RowParts(columns, b) + y == [columns[0], b[0]] + (q + y);
      PrefixesOfEqualLength([columns[0], a[0]], [columns[0], b[0]], p + x, q + y);
      assert [columns[0], a[0]][1] == [columns[0], b[0]][1];
      RowPartsSplit(columns[1..], a[1..], b[1..], x, y);
      assert a == [a[0]] + a[1..] && b == [b[0]] + b[1..];
    } else {
      assert x == RowParts(columns, a) + x && y == RowParts(columns, b) + y;
    }
  }

  ghost predicate Even(columns: seq<string>, lines: seq<S.Line>) {
    forall j :: 0 <= j < |lines| ==> |lines[j]| == |columns|
  }

  /** What follows a table never looks like another row of it. */
  ghost predicate Stops(columns: seq<string>, tail: seq<string>) {
    tail == [] || (columns != [] && tail[0] != columns[0])
  }

  lemma RowStarts(columns: seq<string>, lines: seq<S.Line>, x: seq<string>)
    requires lines != [] && columns != [] && Even(columns, lines)
    ensures TableParts(columns, lines) + x != [] && (TableParts(columns, lines) + x)[0] == columns[0]
    ensures TableParts(columns, lines) + x == RowParts(columns, lines[0]) + (TableParts(columns, lines[1..]) + x)
  {
    assert |lines[0]| == |columns|;
    assert RowParts(columns, lines[0]) == [columns[0], lines[0][0]] + RowParts(columns[1..], lines[0][1..]);
  }

  lemma {:induction false} TablePartsSplit(columns: seq<string>, a: seq<S.Line>, b: seq<S.Line>, x: seq<string>, y: seq<string>)
    requires columns != [] && Even(columns, a) && Even(columns, b) && Stops(columns, x) && Stops(columns, y)
    requires TableParts(columns, a) + x == TableParts(columns, b) + y
    ensures a == b && x == y
    decreases a
  {
    if a != [] { RowStarts(columns, a, x); }
    if b != [] { RowStarts(columns, b, y); }
    assert a == [] ==> TableParts(columns, a) + x == x;
    assert b == [] ==> TableParts(columns, b) + y == y;
    if a != [] && b != [] {
      RowPartsSplit(columns, a[0], b[0], TableParts(columns, a[1..]) + x, TableParts(columns, b[1..]) + y);
      TablePartsSplit(columns, a[1..], b[1..], x, y);
      assert a == [a[0]] + a[1..] && b == [b[0]] + b[1..];
    }
  }

  /** No table's name is the first column of the table before it. */
  lemma NamesSeparate(i: nat)
    ensures LogicalName(i + 1) != LogicalColumns(i)[0]
  {
  }

  ghost predicate EvenFrom(i: nat, tables: seq<seq<S.Line>>) {
    forall k :: 0 <= k < |tables| ==> Even(LogicalColumns(i + k), tables[k])
  }

  lemma {:induction false} AllPartsInjective(i: nat, a: seq<seq<S.Line>>, b: seq<seq<S.Line>>)
    requires |a| == |b| && EvenFrom(i, a) && EvenFrom(i, b) && AllParts(i, a) == AllParts(i, b)
    ensures a == b
    decreases a
  {
    hide LogicalName, LogicalColumns, TableParts, Even;
    if a != [] {
      var columns, x, y := LogicalColumns(i), AllParts(i + 1, a[1..]), AllParts(i + 1, b[1..]);
      assert [LogicalName(i)] + TableParts(columns, a[0]) + x == [LogicalName(i)] + (TableParts(columns, a[0]) + x);
      assert [LogicalName(i)] + TableParts(columns, b[0]) + y == [LogicalName(i)] + (TableParts(columns, b[0]) + y);
      PrefixesOfEqualLength([LogicalName(i)], [LogicalName(i)], TableParts(columns, a[0]) + x, TableParts(columns, b[0]) + y);
      NamesSeparate(i);
      assert Even(LogicalColumns(i + 0), a[0]) && Even(LogicalColumns(i + 0), b[0]);
      TablePartsSplit(columns, a[0], b[0], x, y);
      forall k | 0 <= k < |a[1..]|
        ensures Even(LogicalColumns(i + 1 + k), a[1..][k]) && Even(LogicalColumns(i + 1 + k), b[1..][k])
      {
        assert Even(LogicalColumns(i + (k + 1)), a[k + 1]) && Even(LogicalColumns(i + (k + 1)), b[k + 1]);
      }
      AllPartsInjective(i + 1, a[1..], b[1..]);
      assert a == [a[0]] + a[1..] && b == [b[0]] + b[1..];
    }
  }

  /** Equal framed streams: the same versions and the same value in every cell of all six tables. */
  lemma PartsInjective(v: Versions, a: seq<seq<S.Line>>, w: Versions, b: seq<seq<S.Line>>)
    requires |a| == |b| && EvenFrom(0, a) && EvenFrom(0, b)
    requires Addressable(Encode(Parts(v, a))) && Addressable(Encode(Parts(w, b)))
    requires FramedDigest("", Parts(v, a)) == FramedDigest("", Parts(w, b))
    ensures v == w && a == b
  {
    hide FramedDigest, AllParts, EvenFrom;
    FramedDigestInjective("", Parts(v, a), Parts(w, b));
    var p, q := [Decimal(v.schema), Decimal(v.user)], [Decimal(w.schema), Decimal(w.user)];
    PrefixesOfEqualLength(p, q, AllParts(0, a), AllParts(0, b));
    assert p[0] == q[0] && p[1] == q[1];
    DecimalInjective(v.schema, w.schema);
    DecimalInjective(v.user, w.user);
    AllPartsInjective(0, a, b);
  }

  lemma TablesAreEven(db: Store, owners: seq<S.Line>)
    requires Even(LogicalColumns(0), owners)
    ensures EvenFrom(0, [owners] + OtherTables(db))
  {
    hide ByText;
    ByTextWide(db.admissions, AdmissionView, 5);
    ByTextWide(db.queue, WorkView, 7);
    ByTextWide(db.leases, LeaseView, 7);
    ByTextWide(db.continuations, ContinuationView, 7);
    ByTextWide(db.dispositions, DispositionView, 5);
    var tables := [owners] + OtherTables(db);
    forall k | 0 <= k < |tables|
      ensures Even(LogicalColumns(0 + k), tables[k])
    {
      if k == 1 { } else if k == 2 { } else if k == 3 { } else if k == 4 { } else if k == 5 { } else { assert k == 0; }
    }
  }

  lemma OwnerLinesAreEven(db: Store)
    ensures Even(LogicalColumns(0), OwnerLines(db))
  {
  }

  // -------------------------------------------------- projection and update

  /** The projection rewrites another row only if the two tokens agree up to their first NUL. */
  predicate OtherRowFits(k: string, r: Runtime, owner: string, stamp: string) {
    k != owner && UpToNul(k) == UpToNul(owner) ==> r.state == OwnerStopped && UpToNul(r.heartbeatAt) == stamp
  }

  /** What a caller can check before preparing. */
  predicate Projectable(db: Store, owner: string, stamp: string) {
    NulFree(stamp) && forall k :: k in db.runtimes ==> OtherRowFits(k, db.runtimes[k], owner, stamp)
  }

  lemma OwnerLine(k: string, r: Runtime, owner: string, stamp: string)
    requires k == owner ==> r.state != OwnerStopped
    ensures var r' := if k == owner then r.(state := OwnerStopped, heartbeatAt := stamp) else r;
      ProjectLine(QuoteRow(RuntimeCells(k, r)), Quote(Text(owner)), stamp) == QuoteRow(RuntimeCells(k, r'))
      <==> (k == owner ==> NulFree(stamp)) && OtherRowFits(k, r, owner, stamp)
  {
    hide Quote, Quoted, UpToNul, NulFree, OwnerText;
    var r' := if k == owner then r.(state := OwnerStopped, heartbeatAt := stamp) else r;
    var before, after := QuoteRow(RuntimeCells(k, r)), QuoteRow(RuntimeCells(k, r'));
    var projected := ProjectLine(before, Quote(Text(owner)), stamp);
    QuoteExact(Text(k), Text(owner));
    FT.QuotedStamp(stamp, r'.heartbeatAt);
    FT.StateText(r'.state);
    FT.NulFreeIsVisible(stamp);
    assert before[0] == Quote(Text(k));
    assert after[2] == Quote(Text(r'.heartbeatAt)) && after[3] == Quote(Text(OwnerText(r'.state)));
    assert projected == after ==> projected[2] == after[2] && projected[3] == after[3];
    assert (k == owner ==> NulFree(stamp)) && OtherRowFits(k, r, owner, stamp) ==> projected == after;
  }

  lemma OwnerTableCommutes(db: Store, owner: string, stamp: string)
    requires owner in db.runtimes && db.runtimes[owner].state != OwnerStopped
    ensures ProjectedLines(db, Quote(Text(owner)), stamp) == OwnerLines(OwnerStoppedAt(db, owner, stamp)) <==> Projectable(db, owner, stamp)
  {
    hide ProjectLine, RuntimeCells, QuoteRow, OtherRowFits, Ordered, NulFree, Quote;
    TextLessIsTotalOrder();
    var after := OwnerStoppedAt(db, owner, stamp);
    var keys := Ordered(db.runtimes.Keys, TextLess);
    assert after.runtimes.Keys == db.runtimes.Keys;
    var projected, actual := ProjectedLines(db, Quote(Text(owner)), stamp), OwnerLines(after);
    assert |projected| == |actual| == |keys|;
    forall i | 0 <= i < |keys|
      ensures projected[i] == actual[i] <==> (keys[i] == owner ==> NulFree(stamp)) && OtherRowFits(keys[i], db.runtimes[keys[i]], owner, stamp)
    {
      OwnerLine(keys[i], db.runtimes[keys[i]], owner, stamp);
    }
    if projected == actual {
      forall k | k in db.runtimes
        ensures (k == owner ==> NulFree(stamp)) && OtherRowFits(k, db.runtimes[k], owner, stamp)
      {
        var i :| 0 <= i < |keys| && keys[i] == k;
        assert projected[i] == actual[i];
      }
    }
  }

  lemma OthersUntouched(db: Store, owner: string, stamp: string)
    requires owner in db.runtimes
    ensures OtherTables(OwnerStoppedAt(db, owner, stamp)) == OtherTables(db)
  {
  }

  ghost predicate Holdable(v: Versions, tables: seq<seq<S.Line>>) {
    Addressable(Encode(Parts(v, tables)))
  }

  ghost predicate HoldableBoth(v: Versions, db: Store, owner: string, stamp: string)
    requires owner in db.runtimes
  {
    && Holdable(v, [ProjectedLines(db, Quote(Text(owner)), stamp)] + OtherTables(db))
    && Holdable(v, [OwnerLines(OwnerStoppedAt(db, owner, stamp))] + OtherTables(db))
  }

  /** The projected logical digest is the one the update produces, exactly when the store is projectable. */
  lemma ProjectionCommutes(v: Versions, db: Store, owner: string, stamp: string)
    requires owner in db.runtimes && db.runtimes[owner].state != OwnerStopped && HoldableBoth(v, db, owner, stamp)
    ensures ProjectedDigest(v, db, Quote(Text(owner)), stamp) == LogicalDigest(v, OwnerStoppedAt(db, owner, stamp)) <==> Projectable(db, owner, stamp)
  {
    hide Projectable, OwnerLines, ProjectedLines, OtherTables, OwnerStoppedAt, Parts, FramedDigest, Quote;
    OthersUntouched(db, owner, stamp);
    OwnerTableCommutes(db, owner, stamp);
    var p, q := ProjectedLines(db, Quote(Text(owner)), stamp), OwnerLines(OwnerStoppedAt(db, owner, stamp));
    var a, b := [p] + OtherTables(db), [q] + OtherTables(db);
    if FramedDigest("", Parts(v, a)) == FramedDigest("", Parts(v, b)) {
      OwnerLinesAreEven(OwnerStoppedAt(db, owner, stamp));
      ProjectedAreEven(db, Quote(Text(owner)), stamp);
      TablesAreEven(db, p);
      TablesAreEven(db, q);
      PartsInjective(v, a, v, b);
      assert a[0] == b[0];
    }
  }

  lemma ProjectedAreEven(db: Store, owner: string, stamp: string)
    ensures Even(LogicalColumns(0), ProjectedLines(db, owner, stamp))
  {
  }

  // --------------------------------------------------- prepare, reconcile

  lemma Prepared(x: Fixture, operation: string, place: FM.Place, stamp: string)
    requires Prepare(x, operation, place, stamp).Ok?
    ensures Eligible(x.store).Some?
    ensures var m, owner := Prepare(x, operation, place, stamp).value, Eligible(x.store).value;
      && m.manifestDigest == ManifestDigest(m) && m.receiptDigest == ReceiptDigest(m) && m.operation == operation && m.heartbeat == stamp
      && m.siblings == SiblingDigest(x.receipts, operation) && m.pre == LogicalDigest(x.versions, x.store)
      && m.post == ProjectedDigest(x.versions, x.store, Quote(Text(owner)), stamp)
  {
    hide Eligible, LogicalDigest, ProjectedDigest, SiblingDigest, FramedDigest, Quote;
  }

  ghost predicate HoldableManifest(m: Manifest) {
    Addressable(Encode(ManifestTexts(m)))
  }

  /** Every receipt was written from a sealed manifest of its own operation. */
  ghost predicate ReceiptsSealed(receipts: map<string, Receipt>) {
    forall op :: op in receipts ==>
      exists m: Manifest :: m.operation == op && HoldableManifest(m) && receipts[op].manifestDigest == ManifestDigest(m)
  }

  lemma FirstIsOperation(m: Manifest)
    ensures ManifestTexts(m) != [] && ManifestTexts(m)[0] == m.operation
  {
  }

  /** The UNIQUE manifest digest never collides with another operation's. */
  lemma DigestIsFree(receipts: map<string, Receipt>, m: Manifest)
    requires ReceiptsSealed(receipts) && HoldableManifest(m) && m.operation !in receipts
    ensures !DigestTaken(receipts, ManifestDigest(m))
  {
    hide FramedDigest, ManifestTexts;
    forall op | op in receipts
      ensures receipts[op].manifestDigest != ManifestDigest(m)
    {
      var n: Manifest :| n.operation == op && HoldableManifest(n) && receipts[op].manifestDigest == ManifestDigest(n);
      FirstIsOperation(n);
      FirstIsOperation(m);
      if ManifestDigest(n) == ManifestDigest(m) {
        FramedDigestInjective("", ManifestTexts(n), ManifestTexts(m));
        assert false;
      }
    }
  }

  lemma ReconcileKeepsReceiptsSealed(x: Fixture, m: Manifest)
    requires ReceiptsSealed(x.receipts) && HoldableManifest(m) && Reconcile(x, m).Ok?
    ensures ReceiptsSealed(Reconcile(x, m).value.1.receipts)
  {
    hide ManifestDigest, Eligible, LogicalDigest, SiblingDigest, HoldableManifest, ReceiptDigest, FM.ValidLegacy, OwnerStoppedAt, DigestTaken;
    var after := Reconcile(x, m).value.1.receipts;
    forall op | op in after
      ensures exists n: Manifest :: n.operation == op && HoldableManifest(n) && after[op].manifestDigest == ManifestDigest(n)
    {
      if op == m.operation && op !in x.receipts {
        assert after[op] == ReceiptOf(m);
      } else {
        assert after[op] == x.receipts[op];
      }
    }
  }

  /**
   * A manifest prepared on an unchanged database reconciles it if and only if the store is projectable and the
   * owner's fingerprint is a legacy one, which the preparation does not check.
   */
  lemma FreshManifestReconciles(x: Fixture, operation: string, place: FM.Place, stamp: string)
    requires Prepare(x, operation, place, stamp).Ok? && operation !in x.receipts && Eligible(x.store).Some?
    requires HoldableBoth(x.versions, x.store, Eligible(x.store).value, stamp)
    requires ReceiptsSealed(x.receipts) && HoldableManifest(Prepare(x, operation, place, stamp).value)
    ensures var m, owner := Prepare(x, operation, place, stamp).value, Eligible(x.store).value;
      Reconcile(x, m) ==
        if Projectable(x.store, owner, stamp) && FM.ValidLegacy(x.store.runtimes[owner].fingerprint)
        then Ok((Recovered, x.(store := OwnerStoppedAt(x.store, owner, stamp), receipts := x.receipts[operation := ReceiptOf(m)])))
        else Err(Rejected)
  {
    hide Eligible, LogicalDigest, ProjectedDigest, SiblingDigest, Prepare, HoldableBoth, Projectable, DigestTaken, ManifestDigest, ReceiptDigest,
      FM.ValidLegacy, OwnerStoppedAt, Quote, ReceiptsSealed, HoldableManifest;
    var owner := Eligible(x.store).value;
    Prepared(x, operation, place, stamp);
    DigestIsFree(x.receipts, Prepare(x, operation, place, stamp).value);
    OwnerIsLive(x.store);
    ProjectionCommutes(x.versions, x.store, owner, stamp);
  }

  lemma OwnerIsLive(db: Store)
    requires Eligible(db).Some?
    ensures Eligible(db).value in db.runtimes && db.runtimes[Eligible(db).value].state != OwnerStopped
  {
  }

  lemma SiblingsUnchanged(receipts: map<string, Receipt>, op: string, r: Receipt)
    ensures SiblingDigest(receipts[op := r], op) == SiblingDigest(receipts, op)
  {
    hide FramedDigest, Receipts.Siblings;
    assert Digests(receipts[op := r]) - {op} == Digests(receipts) - {op};
    Receipts.OwnIsSkipped(Digests(receipts[op := r]), Digests(receipts), op);
  }

  /** A rerun of any reconciliation that went through answers `AlreadyStopped` and changes nothing. */
  lemma RerunIsAlreadyStopped(x: Fixture, m: Manifest)
    requires Reconcile(x, m).Ok?
    ensures var after := Reconcile(x, m).value.1; Reconcile(after, m) == Ok((AlreadyStopped, after))
  {
    hide Eligible, LogicalDigest, SiblingDigest, DigestTaken, ManifestDigest, ReceiptDigest, FM.ValidLegacy, OwnerStoppedAt;
    SiblingsUnchanged(x.receipts, m.operation, ReceiptOf(m));
  }

  /** A database with one live runtime, whose fingerprint holds a space, and nothing else. */
  function SpacedFixture(): Fixture {
    Fixture(
      Store(map["o" := Runtime("1", "1", OwnerActive, "a b")], map[], map[], map[], map[], [], map[], map[], map[], map[], map[], map[], []),
      Versions(0, 0), map[])
  }

  /** It can be prepared, and the manifest is then rejected. */
  lemma PreparedThenRejected(place: FM.Place)
    ensures var m := Prepare(SpacedFixture(), "op", place, "2"); m.Ok? && Reconcile(SpacedFixture(), m.value) == Err(Rejected)
  {
    hide LogicalDigest, ProjectedDigest, SiblingDigest, ManifestDigest, ReceiptDigest, Quote;
    var x := SpacedFixture();
    assert LiveOwners(x.store) == {"o"};
    assert !LikePid("a b") && !FM.ValidLegacy("a b") by { assert FM.Whitespace("a b"[1]); }
    assert Eligible(x.store) == Some("o");
  }
}
