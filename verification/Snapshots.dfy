/** The state snapshot: every business row, quoted cell by cell, in key order. */
module Snapshots {
  import opened Prelude
  import opened Bytes
  import opened Cells
  import opened Tables
  import S = Streams

  // ------------------------------------------------------ enumerated columns

  function OwnerText(s: OwnerState): string {
    match s case OwnerActive => "active" case OwnerStopping => "stopping" case OwnerStopped => "stopped"
  }

  function StatusText(s: Status): string {
    match s
    case Queued => "queued"
    case Dispatched => "dispatched"
    case Running => "running"
    case Completed => "completed"
    case Failed => "failed"
    case TimedOut => "timed_out"
    case Cancelled => "cancelled"
  }

  function AdmissionText(s: AdmissionState): string {
    match s
    case AdmissionReady => "ready"
    case AdmissionEnqueued => "enqueued"
    case AdmissionDispatching => "dispatching"
    case AdmissionRunning => "running"
    case AdmissionTerminal => "terminal"
    case AdmissionRecovery => "recovery_needed"
  }

  function SessionText(s: SessionState): string {
    match s case SessionReady => "ready" case SessionPrompting => "prompting" case SessionClosed => "closed"
  }

  function DispositionText(s: DispositionState): string {
    match s
    case DispositionPrepared => "prepared"
    case DispositionAcknowledged => "acknowledged"
    case DispositionUnknown => "outcome_unknown"
    case DispositionTerminal => "terminal"
  }

  function LeaseText(s: LeaseState): string {
    match s case LeaseActive => "active" case LeaseReleased => "released" case LeaseRecovery => "recovery_needed"
  }

  function ContinuationText(s: ContinuationState): string {
    match s
    case ContinuationReady => "ready"
    case ContinuationInFlight => "in_flight"
    case ContinuationRecovery => "recovery_needed"
    case ContinuationBlocked => "blocked"
    case ContinuationTerminal => "terminal"
  }

  function WorkText(s: WorkState): string {
    match s
    case WorkQueued => "queued"
    case WorkClaimed => "claimed"
    case WorkRunning => "running"
    case WorkPaused => "paused"
    case WorkCompleted => "completed"
    case WorkExpired => "expired"
    case WorkSuperseded => "superseded"
    case WorkRecovery => "recovery_needed"
  }

  function MaybeText(o: Option<string>): Cell {
    if o.Some? then Text(o.value) else Null
  }

  function MaybeInt(o: Option<int>): Cell {
    if o.Some? then Int(o.value) else Null
  }

  // ------------------------------------------------------------------- rows

  type Row = seq<Cell>

  function RuntimeCells(token: string, r: Runtime): Row {
    [Text(token), Text(r.startedAt), Text(r.heartbeatAt), Text(OwnerText(r.state)), Text(r.fingerprint)]
  }

  function TaskCells(task: string, t: Task): Row {
    [Text(task), Text(t.root), MaybeText(t.parent), Text(t.fromAgent), Text(t.toAgent), Text(t.conversation),
     MaybeText(t.replyTo), Text(t.text), Int(t.priority), Int(t.depth), Int(t.hops), MaybeText(t.deadline), Int(t.version)]
  }

  function EventCells(key: EventKey, e: Event): Row {
    [Text(e.id), Text(key.task), Int(key.index), Text(StatusText(e.status)), Text(e.timestamp), Text(e.payload)]
  }

  function DeliveryCells(delivery: string, d: Delivery): Row {
    [Text(delivery), Text(d.task), Int(d.attempt), Text(d.target), Text(d.dispatchedAt), MaybeText(d.acknowledgedAt)]
  }

  function AdmissionCells(task: string, a: Admission): Row {
    [Text(task), Text(AdmissionText(a.state)), Int(a.revision), MaybeText(a.runtime), MaybeText(a.replyRoom),
     MaybeText(a.replyThreadRoot), MaybeText(a.replyEventId), MaybeText(a.monitorRoom), MaybeInt(a.monitorGeneration),
     MaybeText(a.renderVersion), Text(a.createdAt), Text(a.updatedAt)]
  }

  function SessionCells(s: Session): Row {
    [Text(s.session), Text(s.endpoint), Text(s.conversation), Text(s.cwd), Text(s.backend), Int(s.protocol),
     Text(SessionText(s.state)), Text(s.createdAt), Text(s.updatedAt), Text(s.directories),
     Int(s.compatibilityVersion), Text(s.compatibilityHash)]
  }

  function DispositionCells(delivery: string, d: Disposition): Row {
    [Text(delivery), Text(d.task), Int(d.attempt), Text(DispositionText(d.state)), MaybeText(d.session),
     MaybeText(d.child), MaybeText(d.reapStatus), MaybeText(d.reapAt), MaybeText(d.reason)]
  }

  function LeaseCells(resource: string, l: Lease): Row {
    [Text(resource), Text(l.task), Text(l.owner), Int(l.fence), Text(LeaseText(l.state)),
     Text(l.acquiredAt), Text(l.heartbeatAt), Text(l.expiresAt)]
  }

  function ContinuationCells(task: string, c: Continuation): Row {
    [Text(task), Text(c.resource), Text(c.delivery), Int(c.fence), Int(c.revision), Text(ContinuationText(c.state)),
     Int(c.nextTurn), Int(c.completedTurns), Int(c.noProgress), Text(c.prompt), Text(c.startedAt), Text(c.heartbeatAt),
     Text(c.lastProgressAt), Int(c.outputBytes), Text(c.generation), Int(c.generationVersion)]
  }

  function ResponseCells(key: string, r: Response): Row {
    [Text(key), Text(r.task), Text(r.delivery), Text(r.resource), Int(r.fence), Int(r.revision), Text(r.hash),
     Text(r.outcome), Int(r.outputBytes), Text(r.generation), Text(r.createdAt)]
  }

  function WorkCells(queue: string, w: Work): Row {
    [Text(queue), Text(w.task), Text(w.delivery), Text(WorkText(w.state)), Int(w.revision), MaybeText(w.owner),
     MaybeInt(w.ownerFence), Int(w.sendStarted), Text(w.updatedAt)]
  }

  function ClaimCells(claim: string, c: Claim): Row {
    [Text(claim), Text(c.owner), Text(c.task), Int(c.ownerFence), Text(c.state), Text(c.updatedAt)]
  }

  function OutboxCells(o: Outbox): Row {
    [Text(o.kind), Text(o.source), Text(o.projection), Text(o.state), MaybeText(o.claimOwner),
     MaybeInt(o.claimRevision), Text(o.updatedAt)]
  }

  // ----------------------------------------------------------------- tables

  predicate EventLess(a: EventKey, b: EventKey) {
    TextLess(a.task, b.task) || (a.task == b.task && a.index < b.index)
  }

  lemma EventLessIsTotalOrder()
    ensures TotalOrder(EventLess)
  {
    TextLessIsTotalOrder();
    forall a, b, c | EventLess(a, b) && EventLess(b, c)
      ensures EventLess(a, c)
    {
    }
    forall a, b {:trigger EventLess(a, b)}
      ensures (a != b ==> EventLess(a, b) || EventLess(b, a)) && !(EventLess(a, b) && EventLess(b, a))
    {
      assert a != b ==> a.task != b.task || a.index != b.index;
      assert !(TextLess(a.task, b.task) && TextLess(b.task, a.task));
      assert !(TextLess(a.task, a.task) && TextLess(a.task, a.task));
    }
  }

  /** `SELECT … FROM m ORDER BY key`. */
  function RowsOf<K(!new, ==), V>(m: map<K, V>, less: (K, K) -> bool, cells: (K, V) -> Row): (r: seq<Row>)
    requires TotalOrder(less)
    ensures |r| == |m.Keys|
    ensures var keys := Ordered(m.Keys, less); forall i :: 0 <= i < |r| ==> r[i] == cells(keys[i], m[keys[i]])
  {
    var keys := Ordered(m.Keys, less);
    seq(|keys|, i requires 0 <= i < |keys| => cells(keys[i], m[keys[i]]))
  }

  function ByText<V>(m: map<string, V>, cells: (string, V) -> Row): seq<Row> {
    TextLessIsTotalOrder();
    RowsOf(m, TextLess, cells)
  }

  function EventRows(m: map<EventKey, Event>): seq<Row> {
    EventLessIsTotalOrder();
    RowsOf(m, EventLess, EventCells)
  }

  function Each<T>(rows: seq<T>, cells: T -> Row): (r: seq<Row>)
    ensures |r| == |rows| && forall i :: 0 <= i < |r| ==> r[i] == cells(rows[i])
  {
    seq(|rows|, i requires 0 <= i < |rows| => cells(rows[i]))
  }

  function TableName(i: nat): (name: string)
    ensures name != [] && 'a' <= name[0] <= 'z'
  {
    match i
    case 0 => "runtime_instances"
    case 1 => "tasks"
    case 2 => "task_events"
    case 3 => "deliveries"
    case 4 => "task_admissions"
    case 5 => "sessions"
    case 6 => "delivery_dispositions"
    case 7 => "execution_leases"
    case 8 => "task_continuations"
    case 9 => "continuation_response_receipts"
    case 10 => "agent_work_queue"
    case 11 => "workspace_claims"
    case _ => "projection_outbox"
  }

  function TableNames(): (names: seq<string>)
    ensures |names| == 13 && forall i :: 0 <= i < 13 ==> names[i] == TableName(i)
  {
    seq(13, i => if i >= 0 then TableName(i) else "")
  }

  const WIDTHS: seq<nat> := [5, 13, 6, 6, 12, 12, 9, 8, 16, 11, 9, 6, 7]

  /** The thirteen tables, each as its rows in key order. */
  function Contents(db: Store): (r: seq<seq<Row>>)
    ensures |r| == 13
  {
    [ByText(db.runtimes, RuntimeCells), ByText(db.tasks, TaskCells), EventRows(db.events),
     ByText(db.deliveries, DeliveryCells), ByText(db.admissions, AdmissionCells), Each(db.sessions, SessionCells),
     ByText(db.dispositions, DispositionCells), ByText(db.leases, LeaseCells), ByText(db.continuations, ContinuationCells),
     ByText(db.responses, ResponseCells), ByText(db.queue, WorkCells), ByText(db.claims, ClaimCells),
     Each(db.outbox, OutboxCells)]
  }

  function QuoteTable(rows: seq<Row>): (r: seq<S.Line>)
    ensures |r| == |rows| && forall i :: 0 <= i < |r| ==> r[i] == QuoteRow(rows[i])
  {
    seq(|rows|, i requires 0 <= i < |rows| => QuoteRow(rows[i]))
  }

  function Lines(db: Store): (r: seq<seq<S.Line>>)
    ensures |r| == 13 && forall i :: 0 <= i < 13 ==> r[i] == QuoteTable(Contents(db)[i])
  {
    seq(13, i requires 0 <= i < 13 => QuoteTable(Contents(db)[i]))
  }

  /** `i64::to_be_bytes`. */
  function SignedBytes(n: int): (r: seq<byte>)
    ensures |r| == 8
  {
    BigEndian(n % 0x1_0000_0000_0000_0000, 8)
  }

  datatype Versions = Versions(schema: int, user: int)

  function SchemaHeader(v: Versions): (r: seq<byte>)
    ensures |r| == 16
  {
    SignedBytes(v.schema) + SignedBytes(v.user)
  }

  function Digest(header: seq<byte>, tables: seq<seq<S.Line>>): string
    requires |tables| == 13
  {
    DigestText(header + S.Body(TableNames(), tables))
  }

  /** `snapshot` without a projection. */
  function Snapshot(v: Versions, db: Store): string {
    Digest(SchemaHeader(v), Lines(db))
  }

  const BUSINESS_DOMAIN: string := "GGT050-OWNER-BINDING-BUSINESS-STATE-V1"

  /** `owner_binding_business_snapshot`: a label in place of the schema versions. */
  function BusinessDigest(db: Store): string {
    Digest(Utf8(BUSINESS_DOMAIN), Lines(db))
  }

  /** Every value is short enough that its length begins with a zero byte. */
  ghost predicate Fits(tables: seq<seq<S.Line>>) {
    forall i :: 0 <= i < |tables| ==> S.Storable(Encode(S.Flat(tables[i])))
  }

  ghost predicate Rectangular(tables: seq<seq<S.Line>>) {
    && |tables| == 13
    && forall i, j :: 0 <= i < 13 && 0 <= j < |tables[i]| ==> |tables[i][j]| == WIDTHS[i]
  }

  ghost predicate Wide(rows: seq<Row>, width: nat) {
    forall j :: 0 <= j < |rows| ==> |rows[j]| == width
  }

  lemma ByTextWide<V>(m: map<string, V>, cells: (string, V) -> Row, width: nat)
    requires forall k, v :: |cells(k, v)| == width
    ensures Wide(ByText(m, cells), width)
  {
  }

  lemma EventsWide(m: map<EventKey, Event>)
    ensures Wide(EventRows(m), 6)
  {
  }

  lemma ContentsWide(db: Store)
    ensures forall i :: 0 <= i < 13 ==> Wide(Contents(db)[i], WIDTHS[i])
  {
    hide ByText, EventRows, Wide;
    ByTextWide(db.runtimes, RuntimeCells, 5);
    ByTextWide(db.tasks, TaskCells, 13);
    EventsWide(db.events);
    ByTextWide(db.deliveries, DeliveryCells, 6);
    ByTextWide(db.admissions, AdmissionCells, 12);
    EachWide(db.sessions, SessionCells, 12);
    ByTextWide(db.dispositions, DispositionCells, 9);
    ByTextWide(db.leases, LeaseCells, 8);
    ByTextWide(db.continuations, ContinuationCells, 16);
    ByTextWide(db.responses, ResponseCells, 11);
    ByTextWide(db.queue, WorkCells, 9);
    ByTextWide(db.claims, ClaimCells, 6);
    EachWide(db.outbox, OutboxCells, 7);
  }

  lemma EachWide<T>(rows: seq<T>, cells: T -> Row, width: nat)
    requires forall r :: |cells(r)| == width
    ensures Wide(Each(rows, cells), width)
  {
  }

  lemma LinesAreRectangular(db: Store)
    ensures Rectangular(Lines(db))
  {
    hide Contents;
    ContentsWide(db);
    forall i, j | 0 <= i < 13 && 0 <= j < |Lines(db)[i]|
      ensures |Lines(db)[i][j]| == WIDTHS[i]
    {
      assert Wide(Contents(db)[i], WIDTHS[i]);
    }
  }

  lemma NamesStartVisibly()
    ensures S.Named(TableNames())
  {
  }

  lemma RectangularIsShaped(a: seq<seq<S.Line>>)
    requires Rectangular(a) && Fits(a)
    ensures S.Shaped(WIDTHS, a)
  {
  }

  /** Equal digests mean equal headers and equal tables, value for value. */
  lemma DigestInjective(g: seq<byte>, h: seq<byte>, a: seq<seq<S.Line>>, b: seq<seq<S.Line>>)
    requires Rectangular(a) && Rectangular(b) && Fits(a) && Fits(b) && |g| == |h|
    requires Digest(g, a) == Digest(h, b)
    ensures g == h && a == b
  {
    hide TableNames, S.Body, WIDTHS;
    assert S.Shaped(WIDTHS, a) && S.Shaped(WIDTHS, b) by { RectangularIsShaped(a); RectangularIsShaped(b); }
    DigestTextInjective(g + S.Body(TableNames(), a), h + S.Body(TableNames(), b));
    NamesStartVisibly();
    S.StreamInjective(g, h, TableNames(), WIDTHS, a, b);
  }
}
