/** Stores with short texts meet the size assumption under which snapshot streams decode. */
module SnapshotSizes {
  import opened Prelude
  import opened Bytes
  import opened Cells
  import opened Tables
  import opened Snapshots
  import S = Streams

  lemma {:induction false} Utf8Length(s: string)
    ensures |Utf8(s)| <= 4 * |s|
  {
    if s != [] { Utf8Length(s[1..]); }
  }

  lemma {:induction false} DoubledLength(s: string)
    ensures |Doubled(s)| <= 2 * |s|
  {
    if s != [] { DoubledLength(s[1..]); }
  }

  lemma {:induction false} UpToNulLength(s: string)
    ensures |UpToNul(s)| <= |s|
  {
    if s != [] { UpToNulLength(s[1..]); }
  }

  const SHORT: nat := 10000

  lemma ShortIsStorable(s: string)
    requires |s| < SHORT
    ensures |Utf8(s)| < Pow256(7)
  {
    Utf8Length(s);
    assert Pow256(3) == 0x100_0000 && Pow256(7) == 0x1_0000_0000 * Pow256(3);
  }

  ghost predicate ShortLine(line: S.Line) {
    forall i :: 0 <= i < |line| ==> |line[i]| < SHORT
  }

  ghost predicate ShortTable(lines: seq<S.Line>) {
    forall j :: 0 <= j < |lines| ==> ShortLine(lines[j])
  }

  lemma {:induction false} FlatIsShort(lines: seq<S.Line>)
    requires ShortTable(lines)
    ensures ShortLine(S.Flat(lines))
  {
    if lines != [] {
      FlatIsShort(lines[1..]);
      assert ShortLine(lines[0]);
    }
  }

  lemma ShortTablesFit(tables: seq<seq<S.Line>>)
    requires forall i :: 0 <= i < |tables| ==> ShortTable(tables[i])
    ensures Fits(tables)
  {
    forall i | 0 <= i < |tables|
      ensures S.Storable(Encode(S.Flat(tables[i])))
    {
      FlatIsShort(tables[i]);
      var flat := S.Flat(tables[i]);
      forall j | 0 <= j < |flat|
        ensures |Encode(flat)[j]| < Pow256(7)
      {
        ShortIsStorable(flat[j]);
      }
    }
  }

  predicate TinyCell(c: Cell) {
    match c
    case Null => true
    case Int(n) => 0 <= n <= 9
    case Text(s) => |s| <= 1000
  }

  predicate TinyRow(row: Row) {
    forall i :: 0 <= i < |row| ==> TinyCell(row[i])
  }

  lemma TinyQuote(c: Cell)
    requires TinyCell(c)
    ensures |Quote(c)| < SHORT
  {
    if c.Text? {
      UpToNulLength(c.s);
      DoubledLength(UpToNul(c.s));
    }
  }

  lemma TinyTable(rows: seq<Row>)
    requires forall j :: 0 <= j < |rows| ==> TinyRow(rows[j])
    ensures ShortTable(QuoteTable(rows))
  {
    forall j, i | 0 <= j < |rows| && 0 <= i < |rows[j]|
      ensures |QuoteTable(rows)[j][i]| < SHORT
    {
      TinyQuote(rows[j][i]);
    }
  }

  lemma TinyByText<V>(m: map<string, V>, cells: (string, V) -> Row)
    requires forall k :: k in m ==> TinyRow(cells(k, m[k]))
    ensures ShortTable(QuoteTable(ByText(m, cells)))
  {
    hide TinyRow, Ordered;
    TextLessIsTotalOrder();
    var keys := Ordered(m.Keys, TextLess);
    assert forall i :: 0 <= i < |keys| ==> keys[i] in m;
    TinyTable(ByText(m, cells));
  }

  lemma TinyEvents(m: map<EventKey, Event>)
    requires forall k :: k in m ==> TinyRow(EventCells(k, m[k]))
    ensures ShortTable(QuoteTable(EventRows(m)))
  {
    hide TinyRow, Ordered;
    EventLessIsTotalOrder();
    var keys := Ordered(m.Keys, EventLess);
    assert forall i :: 0 <= i < |keys| ==> keys[i] in m;
    TinyTable(EventRows(m));
  }

  ghost predicate TinyRows<V(!new)>(m: map<string, V>, cells: (string, V) -> Row) {
    forall k :: k in m ==> TinyRow(cells(k, m[k]))
  }

  /** Every cell of the store is tiny; it has no sessions and no outbox rows. */
  ghost predicate Tiny(db: Store) {
    && TinyRows(db.runtimes, RuntimeCells) && TinyRows(db.tasks, TaskCells) && (forall k :: k in db.events ==> TinyRow(EventCells(k, db.events[k])))
    && TinyRows(db.deliveries, DeliveryCells) && TinyRows(db.admissions, AdmissionCells) && db.sessions == []
    && TinyRows(db.dispositions, DispositionCells) && TinyRows(db.leases, LeaseCells) && TinyRows(db.continuations, ContinuationCells)
    && TinyRows(db.responses, ResponseCells) && TinyRows(db.queue, WorkCells) && TinyRows(db.claims, ClaimCells) && db.outbox == []
  }

  lemma TinyLines(db: Store)
    requires Tiny(db)
    ensures forall i :: 0 <= i < 13 ==> ShortTable(Lines(db)[i])
  {
    hide TinyRow, ByText, EventRows, ShortTable, QuoteTable;
    TinyByText(db.runtimes, RuntimeCells);
    TinyByText(db.tasks, TaskCells);
    TinyEvents(db.events);
    TinyByText(db.deliveries, DeliveryCells);
    TinyByText(db.admissions, AdmissionCells);
    TinyByText(db.dispositions, DispositionCells);
    TinyByText(db.leases, LeaseCells);
    TinyByText(db.continuations, ContinuationCells);
    TinyByText(db.responses, ResponseCells);
    TinyByText(db.queue, WorkCells);
    TinyByText(db.claims, ClaimCells);
    EmptyIsShort();
    assert Each(db.sessions, SessionCells) == [] && Each(db.outbox, OutboxCells) == [];
  }

  lemma EmptyIsShort()
    ensures ShortTable(QuoteTable([]))
  {
  }
}
