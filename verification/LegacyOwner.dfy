/** Reconciliation of a single legacy owner: a fully framed logical digest, its projection, and the transaction. */
module LegacyOwner {
  import opened Prelude
  import opened Bytes
  import opened Cells
  import opened Tables
  import opened Snapshots
  import FM = FixtureMigration
  import Receipts
  import S = Streams

  // ---------------------------------------------------------- logical digest

  function AdmissionView(task: string, a: Admission): Row {
    [Text(task), Text(AdmissionText(a.state)), Int(a.revision), MaybeText(a.runtime), Text(a.updatedAt)]
  }

  function WorkView(queue: string, w: Work): Row {
    [Text(queue), Text(WorkText(w.state)), Int(w.revision), MaybeText(w.owner), MaybeInt(w.ownerFence), Int(w.sendStarted), Text(w.updatedAt)]
  }

  function LeaseView(resource: string, l: Lease): Row {
    [Text(resource), Text(l.task), Text(l.owner), Int(l.fence), Text(LeaseText(l.state)), Text(l.heartbeatAt), Text(l.expiresAt)]
  }

  function ContinuationView(task: string, c: Continuation): Row {
    [Text(task), Text(c.resource), Text(c.delivery), Int(c.fence), Int(c.revision), Text(ContinuationText(c.state)), Text(c.heartbeatAt)]
  }

  function DispositionView(delivery: string, d: Disposition): Row {
    [Text(delivery), Text(d.task), Int(d.attempt), Text(DispositionText(d.state)), MaybeText(d.reason)]
  }

  function LogicalName(i: nat): (name: string)
    ensures name != []
  {
    match i
    case 0 => "runtime_instances"
    case 1 => "task_admissions"
    case 2 => "agent_work_queue"
    case 3 => "execution_leases"
    case 4 => "task_continuations"
    case _ => "delivery_dispositions"
  }

  function LogicalColumns(i: nat): (columns: seq<string>)
    ensures |columns| > 0
  {
    match i
    case 0 => ["instance_token", "started_at", "heartbeat_at", "state", "process_fingerprint"]
    case 1 => ["task_id", "state", "revision", "runtime_instance", "updated_at"]
    case 2 => ["queue_id", "state", "revision", "runtime_owner", "owner_fence", "send_started", "updated_at"]
    case 3 => ["resource_key", "task_id", "owner_token", "fence", "state", "heartbeat_at", "expires_at"]
    case 4 => ["task_id", "resource_key", "delivery_id", "lease_fence", "revision", "state", "heartbeat_at"]
    case _ => ["delivery_id", "task_id", "attempt", "state", "reason_code"]
  }

  function OtherTables(db: Store): (r: seq<seq<S.Line>>)
    ensures |r| == 5
  {
    [QuoteTable(ByText(db.admissions, AdmissionView)), QuoteTable(ByText(db.queue, WorkView)), QuoteTable(ByText(db.leases, LeaseView)),
     QuoteTable(ByText(db.continuations, ContinuationView)), QuoteTable(ByText(db.dispositions, DispositionView))]
  }

  function OwnerLines(db: Store): seq<S.Line> {
    QuoteTable(ByText(db.runtimes, RuntimeCells))
  }

  /** Each value behind the name of its column. */
  function RowParts(columns: seq<string>, line: S.Line): seq<string>
    decreases line
  {
    if columns == [] || line == [] then [] else [columns[0], line[0]] + RowParts(columns[1..], line[1..])
  }

  function TableParts(columns: seq<string>, lines: seq<S.Line>): seq<string>
    decreases lines
  {
    if lines == [] then [] else RowParts(columns, lines[0]) + TableParts(columns, lines[1..])
  }

  /** The tables from the `i`-th on, each behind its name. */
  function AllParts(i: nat, tables: seq<seq<S.Line>>): seq<string>
    decreases tables
  {
    if tables == [] then [] else [LogicalName(i)] + TableParts(LogicalColumns(i), tables[0]) + AllParts(i + 1, tables[1..])
  }

  function Parts(v: Versions, tables: seq<seq<S.Line>>): seq<string> {
    [Decimal(v.schema), Decimal(v.user)] + AllParts(0, tables)
  }

  /** `logical_digest`. */
  function LogicalDigest(v: Versions, db: Store): string {
    FramedDigest("", Parts(v, [OwnerLines(db)] + OtherTables(db)))
  }

  /** `owner` is already quoted by SQLite. */
  function ProjectLine(line: S.Line, owner: string, stamp: string): S.Line {
    if |line| == 5 && line[0] == owner then line[2 := Quoted(stamp)][3 := Quoted("stopped")] else line
  }

  function ProjectedLines(db: Store, owner: string, stamp: string): seq<S.Line> {
    FM.EachLine(OwnerLines(db), line => ProjectLine(line, owner, stamp))
  }

  /** `logical_digest_projected`. */
  function ProjectedDigest(v: Versions, db: Store, owner: string, stamp: string): string {
    FramedDigest("", Parts(v, [ProjectedLines(db, owner, stamp)] + OtherTables(db)))
  }

  // ----------------------------------------------------- prepare, reconcile

  function Lower(c: char): char {
    if 'A' <= c <= 'Z' then (c as int + 32) as char else c
  }

  /** SQLite's `LIKE 'pid:%'`, which ignores ASCII case. */
  predicate LikePid(s: string) {
    |s| >= 4 && Lower(s[0]) == 'p' && Lower(s[1]) == 'i' && Lower(s[2]) == 'd' && s[3] == ':'
  }

  predicate NothingOpen(db: Store) {
    && (forall t :: t in db.admissions ==> db.admissions[t].state == AdmissionTerminal)
    && (forall q :: q in db.queue ==> !OpenWork(db.queue[q]))
    && (forall k :: k in db.leases ==> db.leases[k].state == LeaseReleased)
    && (forall t :: t in db.continuations ==> db.continuations[t].state == ContinuationTerminal)
    && (forall d :: d in db.dispositions ==> db.dispositions[d].state in {DispositionAcknowledged, DispositionTerminal})
  }

  /** `eligible`, with the one owner it leaves. */
  function Eligible(db: Store): (r: Option<string>)
    ensures r.Some? ==> LiveOwners(db) == {r.value} && r.value in db.runtimes
  {
    if |LiveOwners(db)| != 1 then None
    else
      var owner := Only(LiveOwners(db));
      assert owner in LiveOwners(db);
      if LikePid(db.runtimes[owner].fingerprint) || !NothingOpen(db) then None else Some(owner)
  }

  datatype Manifest = Manifest(
    operation: string, place: FM.Place, pre: string, post: string, siblings: string, heartbeat: string,
    manifestDigest: string, receiptDigest: string)

  datatype Receipt = Receipt(
    manifestDigest: string, pre: string, post: string, receiptDigest: string, siblings: string, heartbeat: string)

  datatype Fixture = Fixture(store: Store, versions: Versions, receipts: map<string, Receipt>)

  function ManifestTexts(m: Manifest): seq<string> {
    [m.operation, m.place.root, m.place.marker, m.place.config, m.place.configIdentity, m.place.database,
      m.place.databaseIdentity, m.place.binary, m.place.binaryIdentity, m.place.service, m.place.evidence, m.pre, m.post, m.heartbeat]
  }

  function ManifestDigest(m: Manifest): string {
    FramedDigest("", ManifestTexts(m))
  }

  function ReceiptDigest(m: Manifest): string {
    FramedDigest("", [m.operation, m.manifestDigest, m.pre, m.post, m.heartbeat, "recovered"])
  }

  function Digests(receipts: map<string, Receipt>): map<string, string> {
    map op | op in receipts :: receipts[op].receiptDigest
  }

  function SiblingDigest(receipts: map<string, Receipt>, operation: string): string {
    FramedDigest("", Receipts.Siblings(Digests(receipts), operation))
  }

  datatype ReconcileError = Rejected | DatabaseError

  datatype Outcome = Recovered | AlreadyStopped

  /** `prepare_manifest`. */
  function Prepare(x: Fixture, operation: string, place: FM.Place, heartbeat: string): Result<Manifest, ReconcileError> {
    var owner := Eligible(x.store);
    if owner.None? then Err(Rejected)
    else
      var m := Manifest(operation, place, LogicalDigest(x.versions, x.store),
        ProjectedDigest(x.versions, x.store, Quote(Text(owner.value)), heartbeat), SiblingDigest(x.receipts, operation), heartbeat, "", "");
      var signed := m.(manifestDigest := ManifestDigest(m));
      Ok(signed.(receiptDigest := ReceiptDigest(signed)))
  }

  function ReceiptOf(m: Manifest): Receipt {
    Receipt(m.manifestDigest, m.pre, m.post, m.receiptDigest, m.siblings, m.heartbeat)
  }

  predicate DigestTaken(receipts: map<string, Receipt>, digest: string) {
    exists op :: op in receipts && receipts[op].manifestDigest == digest
  }

  /** The transaction of `reconcile`. */
  function Reconcile(x: Fixture, m: Manifest): Result<(Outcome, Fixture), ReconcileError> {
    if m.manifestDigest != ManifestDigest(m) || SiblingDigest(x.receipts, m.operation) != m.siblings then
      Err(Rejected)
    else if m.operation in x.receipts then
      if m.receiptDigest != ReceiptDigest(m) || x.receipts[m.operation] != ReceiptOf(m) || LogicalDigest(x.versions, x.store) != m.post
      then Err(Rejected)
      else Ok((AlreadyStopped, x))
    else
      var owner := Eligible(x.store);
      if LogicalDigest(x.versions, x.store) != m.pre || owner.None? || !FM.ValidLegacy(x.store.runtimes[owner.value].fingerprint) then
        Err(Rejected)
      else
        var after := OwnerStoppedAt(x.store, owner.value, m.heartbeat);
        if LogicalDigest(x.versions, after) != m.post || m.receiptDigest != ReceiptDigest(m) then Err(Rejected)
        else if DigestTaken(x.receipts, m.manifestDigest) then Err(DatabaseError)
        else Ok((Recovered, x.(store := after, receipts := x.receipts[m.operation := ReceiptOf(m)])))
  }

  // ------------------------------------------------------------- the loops

  method HashLines(seed: seq<string>, columns: seq<string>, lines: seq<S.Line>) returns (parts: seq<string>)
    ensures parts == seed + TableParts(columns, lines)
  {
    hide RowParts;
    parts := seed;
    assert lines[0..] == lines;
    for j := 0 to |lines|
      invariant parts + TableParts(columns, lines[j..]) == seed + TableParts(columns, lines)
    {
      assert lines[j..][0] == lines[j] && lines[j..][1..] == lines[j + 1..];
      ghost var row, rest := RowParts(columns, lines[j]), TableParts(columns, lines[j + 1..]);
      assert parts + (row + rest) == parts + row + rest;
      parts := parts + RowParts(columns, lines[j]);
    }
  }

  /** The accumulator of `logical_digest_projected`: the parts in the order they are hashed. */
  method HashTables(v: Versions, tables: seq<seq<S.Line>>) returns (parts: seq<string>)
    ensures parts == Parts(v, tables)
  {
    hide LogicalName, LogicalColumns, TableParts;
    parts := [Decimal(v.schema), Decimal(v.user)];
    assert tables[0..] == tables;
    for i := 0 to |tables|
      invariant parts + AllParts(i, tables[i..]) == Parts(v, tables)
    {
      assert tables[i..][0] == tables[i] && tables[i..][1..] == tables[i + 1..];
      ghost var section, rest := TableParts(LogicalColumns(i), tables[i]), AllParts(i + 1, tables[i + 1..]);
      assert parts + ([LogicalName(i)] + section + rest) == parts + [LogicalName(i)] + section + rest;
      parts := HashLines(parts + [LogicalName(i)], LogicalColumns(i), tables[i]);
    }
  }
}
