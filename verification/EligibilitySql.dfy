/** When the fixture migration, the remediation and the legacy-owner reconciliation accept a database, row by row. */
module EligibilitySql {
  import opened Prelude
  import opened Bytes
  import opened Tables
  import opened Sql
  import opened Rows
  import opened Snapshots
  import FM = FixtureMigration
  import OB = OwnerBinding
  import LO = LegacyOwner

  // ----------------------------------------------------------------- owners

  ghost function RuntimeIn(state: OwnerState): (string, Runtime) -> bool {
    (k: string, r: Runtime) => r.state == state
  }

  /** Printable in the legacy way: not empty, no `pid:` in front, ASCII, and no tab, line feed, vertical tab, form feed, return or space. */
  ghost predicate LegacyFingerprint(s: string) {
    && |s| > 0
    && !(|s| >= 4 && s[0] == 'p' && s[1] == 'i' && s[2] == 'd' && s[3] == ':')
    && forall i :: 0 <= i < |s| ==> (s[i] as int) <= 127 && (s[i] as int) != 32 && !(9 <= (s[i] as int) <= 13)
  }

  lemma FingerprintExactly(s: string)
    ensures FM.ValidLegacy(s) <==> LegacyFingerprint(s)
  {
    assert "pid:" <= s <==> |s| >= 4 && s[0] == 'p' && s[1] == 'i' && s[2] == 'd' && s[3] == ':' by {
      assert |s| >= 4 ==> (s[..4] == "pid:" <==> s[0] == 'p' && s[1] == 'i' && s[2] == 'd' && s[3] == ':');
    }
    forall i | 0 <= i < |s|
      ensures (s[i] as int) < 128 && !FM.Whitespace(s[i]) <==> (s[i] as int) <= 127 && (s[i] as int) != 32 && !(9 <= (s[i] as int) <= 13)
    {
    }
  }

  /** One active and one stopping runtime; the stopping one started earlier and was last heard of no later than the other's start. */
  ghost predicate OwnerRows(db: Store, active: string, stopping: string) {
    && Count(db.runtimes, RuntimeIn(OwnerActive)) == 1 && Count(db.runtimes, RuntimeIn(OwnerStopping)) == 1
    && active in db.runtimes && db.runtimes[active].state == OwnerActive && LegacyFingerprint(db.runtimes[active].fingerprint)
    && stopping in db.runtimes && db.runtimes[stopping].state == OwnerStopping && LegacyFingerprint(db.runtimes[stopping].fingerprint)
    && TextLess(db.runtimes[stopping].startedAt, db.runtimes[active].startedAt)
    && !TextLess(db.runtimes[active].startedAt, db.runtimes[stopping].heartbeatAt)
  }

  lemma InStateExactly(db: Store, state: OwnerState)
    ensures FM.InState(db, state) == Where(db.runtimes, RuntimeIn(state))
  {
  }

  lemma OwnersExactly(db: Store, active: string, stopping: string)
    ensures FM.FindOwners(db) == Some(FM.Owners(active, stopping)) <==> OwnerRows(db, active, stopping)
  {
    hide LegacyFingerprint, FM.ValidLegacy, Where;
    InStateExactly(db, OwnerActive);
    InStateExactly(db, OwnerStopping);
    if |FM.InState(db, OwnerActive)| == 1 && |FM.InState(db, OwnerStopping)| == 1 {
      var a, s := Only(FM.InState(db, OwnerActive)), Only(FM.InState(db, OwnerStopping));
      assert a in FM.InState(db, OwnerActive) && s in FM.InState(db, OwnerStopping);
      FingerprintExactly(db.runtimes[a].fingerprint);
      FingerprintExactly(db.runtimes[s].fingerprint);
      assert active in db.runtimes && db.runtimes[active].state == OwnerActive ==> active in FM.InState(db, OwnerActive);
      assert stopping in db.runtimes && db.runtimes[stopping].state == OwnerStopping ==> stopping in FM.InState(db, OwnerStopping);
    }
  }

  // --------------------------------------------------------------- sessions

  ghost predicate ReapedRow(p: Disposition) {
    if p.child == None then p.reapStatus == None && p.reapAt == None else p.reapStatus == Some("reaped") && p.reapAt != None
  }

  /** The rows that `OPEN_SESSION_COUNT` joins, for a session that needs no attention. */
  ghost predicate SessionJoin(db: Store, s: Session, d: string, k: string) {
    && d in db.dispositions && d in db.deliveries && k in db.leases
    && var p, row, l := db.dispositions[d], db.deliveries[d], db.leases[k];
    && row.task == p.task && row.attempt == p.attempt && l.task == row.task
    && row.task in db.tasks && row.task in db.continuations
    && var t, c := db.tasks[row.task], db.continuations[row.task];
    && c.resource == k && c.delivery == d && c.fence == l.fence && c.state == ContinuationBlocked
    && p.session == Some(s.session) && row.target == s.endpoint && t.conversation == s.conversation
    && p.state == DispositionTerminal && ReapedRow(p) && row.acknowledgedAt != None && l.state == LeaseReleased
    && LastEvent(db.events, row.task, t.version + 1) && db.events[EventKey(row.task, t.version + 1)].status !in {Queued, Dispatched, Running}
  }

  ghost predicate SessionAtRest(db: Store, s: Session) {
    s.state == SessionClosed || (s.state == SessionReady && exists d, k :: SessionJoin(db, s, d, k))
  }

  lemma TaskOverExactly(db: Store, task: string)
    ensures FM.TaskOver(db, task) <==>
      && task in db.tasks && LastEvent(db.events, task, db.tasks[task].version + 1)
      && db.events[EventKey(task, db.tasks[task].version + 1)].status !in {Queued, Dispatched, Running}
  {
    hide LatestSeq;
    AlignedExactly(db, task);
    if task in db.tasks && LastEvent(db.events, task, db.tasks[task].version + 1) {
      LastEventExactly(db.events, task, db.tasks[task].version + 1);
      TerminalExactly(db.events[EventKey(task, db.tasks[task].version + 1)].status);
    }
  }

  lemma SessionExactly(db: Store, s: Session)
    ensures FM.SessionQuiet(db, s) <==> SessionAtRest(db, s)
  {
    hide FM.TaskOver, LastEvent;
    forall d, k
      ensures d in db.dispositions && k in db.leases && FM.SessionSettledBy(db, s, d, k) <==> SessionJoin(db, s, d, k)
    {
      if d in db.dispositions && k in db.leases {
        TaskOverExactly(db, db.dispositions[d].task);
      }
    }
    if FM.SessionQuiet(db, s) && s.state == SessionReady {
      var d, k :| d in db.dispositions && k in db.leases && FM.SessionSettledBy(db, s, d, k);
      assert SessionJoin(db, s, d, k);
    }
    if SessionAtRest(db, s) && s.state == SessionReady {
      var d, k :| SessionJoin(db, s, d, k);
      assert d in db.dispositions && k in db.leases && FM.SessionSettledBy(db, s, d, k);
    }
  }

  // ------------------------------------------------- what hangs on the task

  /** A response receipt of the revision before, whose hash and length are those of the last event's canonical payload. */
  ghost predicate ResponseRow(db: Store, task: string, c: Continuation, codec: Codec) {
    exists k, n :: k in db.responses && LastEvent(db.events, task, n)
      && ResponseFits(db.responses[k], task, c, db.events[EventKey(task, n)].payload, codec)
  }

  ghost predicate ResponseFits(r: Response, task: string, c: Continuation, payload: string, codec: Codec) {
    && r.task == task && r.delivery == c.delivery && r.resource == c.resource && r.fence == c.fence
    && r.revision + 1 == c.revision && r.generation == c.generation && r.outcome == "structured"
    && codec.canonicalJson(payload) == Some(payload) && r.outputBytes == |Utf8(payload)|
    && r.hash == FramedDigest("continuation-response", [payload])
  }

  lemma ResponseExactly(db: Store, task: string, c: Continuation, codec: Codec)
    ensures FM.ResponseValid(db, task, c, codec) <==> ResponseRow(db, task, c, codec)
  {
    hide LatestSeq, FramedDigest, Utf8;
    var at := LatestSeq(db.events, task);
    if at.Some? {
      LastEventExactly(db.events, task, at.value);
    }
    if FM.ResponseValid(db, task, c, codec) {
      var payload := db.events[EventKey(task, at.value)].payload;
      var k :| k in db.responses && FM.ResponseMatches(db.responses[k], task, c) && FM.ResponseAttests(db.responses[k], payload, codec);
      assert k in db.responses && LastEvent(db.events, task, at.value) && ResponseFits(db.responses[k], task, c, payload, codec);
    }
    if ResponseRow(db, task, c, codec) {
      var k, n :| k in db.responses && LastEvent(db.events, task, n) && ResponseFits(db.responses[k], task, c, db.events[EventKey(task, n)].payload, codec);
      LastEventExactly(db.events, task, n);
      assert FM.ResponseMatches(db.responses[k], task, c) && FM.ResponseAttests(db.responses[k], db.events[EventKey(task, n)].payload, codec);
    }
  }

  ghost function OpenRow(): (string, Work) -> bool {
    (k: string, w: Work) => w.state != WorkCompleted && w.state != WorkExpired && w.state != WorkSuperseded
  }

  ghost predicate NothingInFlight(db: Store) {
    && Count(db.queue, OpenRow()) == 0 && |db.claims| == 0
    && forall i :: 0 <= i < |db.outbox| ==> db.outbox[i].state != "pending" && db.outbox[i].state != "sending"
  }

  lemma PendingExactly(db: Store)
    ensures FM.NothingPending(db) <==> NothingInFlight(db)
  {
    Nothing(db.queue, OpenRow());
    assert |db.claims| == 0 <==> db.claims == map[];
  }

  /** The one delivery: acknowledged, settled and reaped; its task ended; its response attested; nothing else open. */
  ghost predicate RestRows(db: Store, task: string, c: Continuation, codec: Codec) {
    && (forall i :: 0 <= i < |db.sessions| ==> SessionAtRest(db, db.sessions[i]))
    && |db.deliveries| == 1 && c.delivery in db.deliveries
    && |db.dispositions| == 1 && c.delivery in db.dispositions
    && db.deliveries[c.delivery].task == task && db.deliveries[c.delivery].acknowledgedAt != None
    && db.dispositions[c.delivery].task == task && db.dispositions[c.delivery].attempt == db.deliveries[c.delivery].attempt
    && db.dispositions[c.delivery].state == DispositionTerminal && ReapedRow(db.dispositions[c.delivery])
    && task in db.tasks && LastEvent(db.events, task, db.tasks[task].version + 1)
    && db.events[EventKey(task, db.tasks[task].version + 1)].status !in {Queued, Dispatched, Running}
    && ResponseRow(db, task, c, codec) && NothingInFlight(db)
  }

  lemma DownstreamExactly(db: Store, task: string, c: Continuation, codec: Codec)
    ensures FM.Downstream(db, task, c, codec) <==> RestRows(db, task, c, codec)
  {
    hide FM.SessionQuiet, SessionAtRest, FM.TaskOver, LastEvent, FM.ResponseValid, ResponseRow, FM.NothingPending, NothingInFlight;
    forall i | 0 <= i < |db.sessions|
      ensures FM.SessionQuiet(db, db.sessions[i]) <==> SessionAtRest(db, db.sessions[i])
    {
      SessionExactly(db, db.sessions[i]);
    }
    TaskOverExactly(db, task);
    ResponseExactly(db, task, c, codec);
    PendingExactly(db);
  }

  // ---------------------------------------------------------------- binding

  ghost function LeaseBound(owner: string, task: string, c: Continuation): (string, Lease) -> bool {
    (k: string, l: Lease) => k == c.resource && l.task == task && l.owner == owner && l.fence == c.fence && l.state == LeaseReleased
  }

  ghost function AdmissionBound(owner: string, task: string): (string, Admission) -> bool {
    (k: string, a: Admission) => k == task && a.state == AdmissionTerminal && a.runtime == Some(owner)
  }

  /** The only lease and the only admission are bound to `owner`. */
  ghost predicate BoundRows(db: Store, owner: string, task: string, c: Continuation) {
    && |db.leases| == 1 && Count(db.leases, LeaseBound(owner, task, c)) == 1
    && |db.admissions| == 1 && Count(db.admissions, AdmissionBound(owner, task)) == 1
  }

  lemma BoundExactly(db: Store, owner: string, task: string, c: Continuation)
    ensures BoundRows(db, owner, task, c) <==> |db.leases| == 1 && |db.admissions| == 1 && FM.BoundTo(db, owner, task, c)
  {
    ByKey(db.leases, LeaseBound(owner, task, c), (l: Lease) => l, c.resource);
    ByKey(db.admissions, AdmissionBound(owner, task), (a: Admission) => a, task);
  }

  ghost function LeaseOwner(token: string): (string, Lease) -> bool {
    (k: string, l: Lease) => l.owner == token
  }

  ghost function AdmissionOwner(token: string): (string, Admission) -> bool {
    (k: string, a: Admission) => a.runtime == Some(token)
  }

  ghost function WorkOwner(token: string): (string, Work) -> bool {
    (k: string, w: Work) => w.owner == Some(token)
  }

  ghost function ClaimOwner(token: string): (string, Claim) -> bool {
    (k: string, c: Claim) => c.owner == token
  }

  /** The sum of four counts over leases, admissions, queue and claims. */
  ghost function Mentions(db: Store, token: string): nat {
    Count(db.leases, LeaseOwner(token)) + Count(db.admissions, AdmissionOwner(token)) + Count(db.queue, WorkOwner(token)) + Count(db.claims, ClaimOwner(token))
  }

  lemma ReferencesExactly(db: Store, token: string)
    ensures FM.References(db, token) == Mentions(db, token)
  {
    assert Where(db.leases, LeaseOwner(token)) == set k | k in db.leases && db.leases[k].owner == token;
    assert Where(db.admissions, AdmissionOwner(token)) == set t | t in db.admissions && db.admissions[t].runtime == Some(token);
    assert Where(db.queue, WorkOwner(token)) == set q | q in db.queue && db.queue[q].owner == Some(token);
    assert Where(db.claims, ClaimOwner(token)) == set k | k in db.claims && db.claims[k].owner == token;
  }

  // ------------------------------------------------------ the three verdicts

  ghost predicate OneContinuation(db: Store, task: string, c: Continuation) {
    |db.continuations| == 1 && task in db.continuations && db.continuations[task] == c && c.state == ContinuationBlocked && c.revision >= 2
  }

  /** Every condition of the migration's `eligible`. */
  ghost predicate FixtureRows(db: Store, f: FM.Facts, codec: Codec) {
    && OwnerRows(db, f.active, f.stopping) && db.runtimes[f.active] == f.activeRow && db.runtimes[f.stopping] == f.stoppingRow
    && OneContinuation(db, f.task, f.continuation)
    && RestRows(db, f.task, f.continuation, codec)
    && BoundRows(db, f.active, f.task, f.continuation)
    && Mentions(db, f.stopping) == 0
  }

  lemma SoleContinuation(db: Store, task: string)
    requires |db.continuations.Keys| == 1
    ensures |db.continuations| == 1 && (task in db.continuations <==> task == Only(db.continuations.Keys))
  {
  }

  /** A database is eligible for fixture migration, with these facts, exactly when its rows say so. */
  lemma EligibleExactly(db: Store, f: FM.Facts, codec: Codec)
    ensures FM.Eligible(db, codec) == Some(f) <==> FixtureRows(db, f, codec)
  {
    hide FM.FindOwners, OwnerRows, FM.Downstream, RestRows, FM.BoundTo, BoundRows, FM.References, Mentions;
    OwnersExactly(db, f.active, f.stopping);
    DownstreamExactly(db, f.task, f.continuation, codec);
    BoundExactly(db, f.active, f.task, f.continuation);
    ReferencesExactly(db, f.stopping);
    OwnerRowsExist(db, f.active, f.stopping);
    assert |db.continuations| == |db.continuations.Keys|;
    if FM.FindOwners(db).Some? { FM.OwnersExist(db); }
    if |db.continuations.Keys| == 1 { SoleContinuation(db, f.task); }
  }

  lemma OwnerRowsExist(db: Store, active: string, stopping: string)
    ensures OwnerRows(db, active, stopping) ==> active in db.runtimes && stopping in db.runtimes
  {
  }

  /** So preparation succeeds exactly then, and otherwise rejects; a migration without a receipt rejects too. */
  lemma IneligibleIsRejected(x: FM.Fixture, operation: string, place: FM.Place, stamp: string, codec: Codec, m: FM.Manifest)
    ensures FM.Prepare(x, operation, place, stamp, codec).Ok? <==> exists f :: FixtureRows(x.store, f, codec)
    ensures (forall f :: !FixtureRows(x.store, f, codec)) ==> FM.Prepare(x, operation, place, stamp, codec) == Err(FM.MigrateRejected)
    ensures (forall f :: !FixtureRows(x.store, f, codec)) && m.operation !in x.receipts ==> FM.Execute(x, m, codec) == Err(FM.MigrateRejected)
  {
    hide FM.Eligible, FixtureRows, Snapshot, FM.Projected, FM.SiblingDigest, FM.Sealed;
    var facts := FM.Eligible(x.store, codec);
    if facts.Some? { EligibleExactly(x.store, facts.value, codec); }
    if exists f :: FixtureRows(x.store, f, codec) {
      var f :| FixtureRows(x.store, f, codec);
      EligibleExactly(x.store, f, codec);
    }
  }

  /** Every condition of the remediation's `load_facts`. */
  ghost predicate LegacyRows(db: Store, f: OB.Facts) {
    && OwnerRows(db, f.active, f.stopping) && db.runtimes[f.active] == f.activeRow && db.runtimes[f.stopping] == f.stoppingRow
    && OneContinuation(db, f.task, f.continuation)
    && BoundRows(db, f.stopping, f.task, f.continuation)
    && f.continuation.resource in db.leases && db.leases[f.continuation.resource] == f.lease
    && f.task in db.admissions && db.admissions[f.task] == f.admission
    && f.admission.monitorGeneration == None && f.admission.revision != 9223372036854775807
    && Mentions(db, f.stopping) == 2
  }

  lemma LoadFactsExactly(db: Store, f: OB.Facts)
    ensures OB.LoadFacts(db) == Some(f) <==> LegacyRows(db, f)
  {
    hide FM.FindOwners, OwnerRows, BoundRows, FM.References, Mentions;
    OwnersExactly(db, f.active, f.stopping);
    BoundExactly(db, f.stopping, f.task, f.continuation);
    ReferencesExactly(db, f.stopping);
    OwnerRowsExist(db, f.active, f.stopping);
    assert |db.continuations| == |db.continuations.Keys|;
    if FM.FindOwners(db).Some? { FM.OwnersExist(db); }
    if |db.continuations.Keys| == 1 { SoleContinuation(db, f.task); }
  }

  ghost function NotStopped(): (string, Runtime) -> bool {
    (k: string, r: Runtime) => r.state == OwnerActive || r.state == OwnerStopping
  }

  /** Every condition of the legacy-owner `eligible`: one live runtime, not of the new kind, and nothing open. */
  ghost predicate QuietRows(db: Store, owner: string) {
    && Count(db.runtimes, NotStopped()) == 1 && owner in db.runtimes && db.runtimes[owner].state != OwnerStopped
    && !NewKind(db.runtimes[owner].fingerprint)
    && (forall t :: t in db.admissions ==> db.admissions[t].state == AdmissionTerminal)
    && Count(db.queue, OpenRow()) == 0
    && (forall k :: k in db.leases ==> db.leases[k].state == LeaseReleased)
    && (forall t :: t in db.continuations ==> db.continuations[t].state == ContinuationTerminal)
    && (forall d :: d in db.dispositions ==> db.dispositions[d].state == DispositionAcknowledged || db.dispositions[d].state == DispositionTerminal)
  }

  /** `LIKE 'pid:%'` in either case. */
  ghost predicate NewKind(s: string) {
    |s| >= 4 && s[0] in {'p', 'P'} && s[1] in {'i', 'I'} && s[2] in {'d', 'D'} && s[3] == ':'
  }

  lemma NewKindExactly(s: string)
    ensures LO.LikePid(s) <==> NewKind(s)
  {
  }

  lemma QuietExactly(db: Store, owner: string)
    ensures LO.Eligible(db) == Some(owner) <==> QuietRows(db, owner)
  {
    hide NewKind, LO.LikePid;
    assert Where(db.runtimes, NotStopped()) == LiveOwners(db);
    Nothing(db.queue, OpenRow());
    if owner in db.runtimes {
      NewKindExactly(db.runtimes[owner].fingerprint);
      assert owner in LiveOwners(db) <==> db.runtimes[owner].state != OwnerStopped;
    }
    if |LiveOwners(db)| == 1 {
      var o := Only(LiveOwners(db));
      assert o in LiveOwners(db);
      NewKindExactly(db.runtimes[o].fingerprint);
    }
  }
}
