/** A snapshot determines the whole store: equal digests of NUL-free stores mean equal stores. */
module SnapshotIdentity {
  import opened Prelude
  import opened Cells
  import opened Tables
  import opened Snapshots
  import Bytes

  // -------------------------------------------------- enumerations are names

  lemma OwnerTexts(a: OwnerState, b: OwnerState)
    requires OwnerText(a) == OwnerText(b)
    ensures a == b
  {
  }

  lemma AdmissionTexts(a: AdmissionState, b: AdmissionState)
    requires AdmissionText(a) == AdmissionText(b)
    ensures a == b
  {
  }

  lemma LeaseTexts(a: LeaseState, b: LeaseState)
    requires LeaseText(a) == LeaseText(b)
    ensures a == b
  {
  }

  lemma ContinuationTexts(a: ContinuationState, b: ContinuationState)
    requires ContinuationText(a) == ContinuationText(b)
    ensures a == b
  {
  }

  // ------------------------------------------------------ rows are their cells

  ghost predicate Faithful<K(!new), V(!new)>(cells: (K, V) -> Row) {
    forall k, v, k', v' :: cells(k, v) == cells(k', v') ==> k == k' && v == v'
  }

  lemma EventFaithful(k: EventKey, v: Event, k': EventKey, v': Event)
    requires EventCells(k, v) == EventCells(k', v')
    ensures k == k' && v == v'
  {
  }

  lemma SessionFaithful(s: Session, t: Session)
    requires SessionCells(s) == SessionCells(t)
    ensures s == t
  {
  }

  lemma OutboxFaithful(s: Outbox, t: Outbox)
    requires OutboxCells(s) == OutboxCells(t)
    ensures s == t
  {
  }

  // -------------------------------------------------- tables are their lines

  ghost predicate PlainRows(rows: seq<Row>) {
    forall j, c :: 0 <= j < |rows| && c in rows[j] && c.Text? ==> NulFree(c.s)
  }

  /** No text anywhere in the store holds a NUL character. */
  ghost predicate Plain(db: Store) {
    forall i :: 0 <= i < 13 ==> PlainRows(Contents(db)[i])
  }

  lemma QuoteTableInjective(a: seq<Row>, b: seq<Row>)
    requires PlainRows(a) && PlainRows(b) && QuoteTable(a) == QuoteTable(b)
    ensures a == b
  {
    assert |a| == |QuoteTable(a)| == |QuoteTable(b)| == |b|;
    forall j | 0 <= j < |a|
      ensures a[j] == b[j]
    {
      var p, q := QuoteTable(a)[j], QuoteTable(b)[j];
      assert p == q && |p| == |a[j]| && |q| == |b[j]|;
      forall i | 0 <= i < |a[j]|
        ensures a[j][i] == b[j][i]
      {
        assert p[i] == q[i];
        QuoteExact(a[j][i], b[j][i]);
        assert a[j][i] in a[j] && b[j][i] in b[j];
      }
    }
  }

  lemma SameKeysAndRows<K(!new), V(!new)>(m: map<K, V>, n: map<K, V>, ks: seq<K>)
    requires (forall k :: k in ks <==> k in m) && (forall k :: k in ks <==> k in n)
    requires forall i :: 0 <= i < |ks| ==> m[ks[i]] == n[ks[i]]
    ensures m == n
  {
  }

  lemma MapIsItsRows<K(!new), V(!new)>(m: map<K, V>, n: map<K, V>, less: (K, K) -> bool, cells: (K, V) -> Row)
    requires TotalOrder(less) && Faithful(cells) && RowsOf(m, less, cells) == RowsOf(n, less, cells)
    ensures m == n
  {
    hide TotalOrder, Ordered;
    var a, b := RowsOf(m, less, cells), RowsOf(n, less, cells);
    var ks, js := Ordered(m.Keys, less), Ordered(n.Keys, less);
    assert |ks| == |a| == |b| == |js|;
    forall i | 0 <= i < |ks|
      ensures ks[i] == js[i] && m[ks[i]] == n[js[i]]
    {
      assert cells(ks[i], m[ks[i]]) == a[i] == b[i] == cells(js[i], n[js[i]]);
    }
    assert ks == js;
    SameKeysAndRows(m, n, ks);
  }

  lemma TextMapIsItsRows<V(!new)>(m: map<string, V>, n: map<string, V>, cells: (string, V) -> Row)
    requires Faithful(cells) && ByText(m, cells) == ByText(n, cells)
    ensures m == n
  {
    TextLessIsTotalOrder();
    MapIsItsRows(m, n, TextLess, cells);
  }

  lemma EachIsItsRows<T(!new)>(a: seq<T>, b: seq<T>, cells: T -> Row)
    requires forall s, t :: cells(s) == cells(t) ==> s == t
    requires Each(a, cells) == Each(b, cells)
    ensures a == b
  {
  }

  lemma ContentsDetermine(a: Store, b: Store)
    requires Contents(a) == Contents(b)
    ensures a == b
  {
    hide ByText, EventRows;
    assert forall i :: 0 <= i < 13 ==> Contents(a)[i] == Contents(b)[i];
    TaskTables(a, b);
    DeliveryTables(a, b);
    QueueTables(a, b);
    OtherTables(a, b);
  }

  lemma TaskTables(a: Store, b: Store)
    requires ByText(a.runtimes, RuntimeCells) == ByText(b.runtimes, RuntimeCells)
    requires ByText(a.tasks, TaskCells) == ByText(b.tasks, TaskCells)
    requires ByText(a.admissions, AdmissionCells) == ByText(b.admissions, AdmissionCells)
    requires ByText(a.deliveries, DeliveryCells) == ByText(b.deliveries, DeliveryCells)
    ensures a.runtimes == b.runtimes && a.tasks == b.tasks && a.admissions == b.admissions && a.deliveries == b.deliveries
  {
    hide ByText;
    forall k, v, k', v' | RuntimeCells(k, v) == RuntimeCells(k', v')
      ensures k == k' && v == v'
    {
    }
    TextMapIsItsRows(a.runtimes, b.runtimes, RuntimeCells);
    forall k, v, k', v' | TaskCells(k, v) == TaskCells(k', v')
      ensures k == k' && v == v'
    {
    }
    TextMapIsItsRows(a.tasks, b.tasks, TaskCells);
    forall k, v, k', v' | AdmissionCells(k, v) == AdmissionCells(k', v')
      ensures k == k' && v == v'
    {
    }
    TextMapIsItsRows(a.admissions, b.admissions, AdmissionCells);
    forall k, v, k', v' | DeliveryCells(k, v) == DeliveryCells(k', v')
      ensures k == k' && v == v'
    {
    }
    TextMapIsItsRows(a.deliveries, b.deliveries, DeliveryCells);
  }

  lemma DeliveryTables(a: Store, b: Store)
    requires ByText(a.dispositions, DispositionCells) == ByText(b.dispositions, DispositionCells)
    requires ByText(a.leases, LeaseCells) == ByText(b.leases, LeaseCells)
    requires ByText(a.continuations, ContinuationCells) == ByText(b.continuations, ContinuationCells)
    requires ByText(a.responses, ResponseCells) == ByText(b.responses, ResponseCells)
    ensures a.dispositions == b.dispositions && a.leases == b.leases && a.continuations == b.continuations && a.responses == b.responses
  {
    hide ByText;
    forall k, v, k', v' | DispositionCells(k, v) == DispositionCells(k', v')
      ensures k == k' && v == v'
    {
    }
    TextMapIsItsRows(a.dispositions, b.dispositions, DispositionCells);
    forall k, v, k', v' | LeaseCells(k, v) == LeaseCells(k', v')
      ensures k == k' && v == v'
    {
    }
    TextMapIsItsRows(a.leases, b.leases, LeaseCells);
    forall k, v, k', v' | ContinuationCells(k, v) == ContinuationCells(k', v')
      ensures k == k' && v == v'
    {
    }
    TextMapIsItsRows(a.continuations, b.continuations, ContinuationCells);
    forall k, v, k', v' | ResponseCells(k, v) == ResponseCells(k', v')
      ensures k == k' && v == v'
    {
    }
    TextMapIsItsRows(a.responses, b.responses, ResponseCells);
  }

  lemma QueueTables(a: Store, b: Store)
    requires ByText(a.queue, WorkCells) == ByText(b.queue, WorkCells)
    requires ByText(a.claims, ClaimCells) == ByText(b.claims, ClaimCells)
    ensures a.queue == b.queue && a.claims == b.claims
  {
    hide ByText;
    forall k, v, k', v' | WorkCells(k, v) == WorkCells(k', v')
      ensures k == k' && v == v'
    {
    }
    TextMapIsItsRows(a.queue, b.queue, WorkCells);
    forall k, v, k', v' | ClaimCells(k, v) == ClaimCells(k', v')
      ensures k == k' && v == v'
    {
    }
    TextMapIsItsRows(a.claims, b.claims, ClaimCells);
  }

  lemma OtherTables(a: Store, b: Store)
    requires EventRows(a.events) == EventRows(b.events)
    requires Each(a.sessions, SessionCells) == Each(b.sessions, SessionCells)
    requires Each(a.outbox, OutboxCells) == Each(b.outbox, OutboxCells)
    ensures a.events == b.events && a.sessions == b.sessions && a.outbox == b.outbox
  {
    forall k, v, k', v' | EventCells(k, v) == EventCells(k', v')
      ensures k == k' && v == v'
    {
      EventFaithful(k, v, k', v');
    }
    EventLessIsTotalOrder();
    MapIsItsRows(a.events, b.events, EventLess, EventCells);
    forall s, t | SessionCells(s) == SessionCells(t)
      ensures s == t
    {
      SessionFaithful(s, t);
    }
    EachIsItsRows(a.sessions, b.sessions, SessionCells);
    forall s, t | OutboxCells(s) == OutboxCells(t)
      ensures s == t
    {
      OutboxFaithful(s, t);
    }
    EachIsItsRows(a.outbox, b.outbox, OutboxCells);
  }

  lemma LinesDetermine(a: Store, b: Store)
    requires Plain(a) && Plain(b) && Lines(a) == Lines(b)
    ensures a == b
  {
    hide Contents, PlainRows;
    forall i | 0 <= i < 13
      ensures Contents(a)[i] == Contents(b)[i]
    {
      assert Lines(a)[i] == Lines(b)[i];
      QuoteTableInjective(Contents(a)[i], Contents(b)[i]);
    }
    assert Contents(a) == Contents(b);
    ContentsDetermine(a, b);
  }

  /** Equal snapshots of NUL-free stores: the stores are the same, row for row in all thirteen tables. */
  lemma SnapshotDetermines(v: Versions, a: Store, w: Versions, b: Store)
    requires Plain(a) && Plain(b) && Fits(Lines(a)) && Fits(Lines(b))
    requires Snapshot(v, a) == Snapshot(w, b)
    ensures a == b && SchemaHeader(v) == SchemaHeader(w)
  {
    hide Lines, Contents, Plain, Fits, Digest;
    LinesAreRectangular(a);
    LinesAreRectangular(b);
    DigestInjective(SchemaHeader(v), SchemaHeader(w), Lines(a), Lines(b));
    LinesDetermine(a, b);
  }

  lemma BusinessDigestDetermines(a: Store, b: Store)
    requires Plain(a) && Plain(b) && Fits(Lines(a)) && Fits(Lines(b))
    requires BusinessDigest(a) == BusinessDigest(b)
    ensures a == b
  {
    hide Lines, Contents, Plain, Fits, Digest;
    LinesAreRectangular(a);
    LinesAreRectangular(b);
    var domain := Bytes.Utf8(BUSINESS_DOMAIN);
    DigestInjective(domain, domain, Lines(a), Lines(b));
    LinesDetermine(a, b);
  }
}
