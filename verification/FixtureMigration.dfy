/** The isolated fixture migration: eligibility, the prepared manifest, and the transaction that must land on it. */
module FixtureMigration {
  import opened Prelude
  import opened Bytes
  import opened Cells
  import opened Tables
  import opened Snapshots
  import Receipts
  import S = Streams

  // ------------------------------------------------------------ eligibility

  datatype Facts = Facts(
    active: string, activeRow: Runtime, stopping: string, stoppingRow: Runtime, task: string, continuation: Continuation)

  predicate Whitespace(c: char) {
    c as int in {9, 10, 11, 12, 13, 32}
  }

  predicate ValidLegacy(fingerprint: string) {
    && fingerprint != "" && !("pid:" <= fingerprint)
    && forall i :: 0 <= i < |fingerprint| ==> (fingerprint[i] as int) < 128 && !Whitespace(fingerprint[i])
  }

  function InState(db: Store, state: OwnerState): set<string> {
    set k | k in db.runtimes && db.runtimes[k].state == state
  }

  datatype Owners = Owners(active: string, stopping: string)

  predicate OwnersFit(active: Runtime, stopping: Runtime) {
    && ValidLegacy(active.fingerprint) && ValidLegacy(stopping.fingerprint)
    && TextLess(stopping.startedAt, active.startedAt) && TextAtMost(stopping.heartbeatAt, active.startedAt)
  }

  /** Exactly one active and one older stopping runtime, both with legacy fingerprints. */
  function FindOwners(db: Store): (r: Option<Owners>)
    ensures r.Some? ==> InState(db, OwnerActive) == {r.value.active} && InState(db, OwnerStopping) == {r.value.stopping}
  {
    if |InState(db, OwnerActive)| != 1 || |InState(db, OwnerStopping)| != 1 then
      None
    else
      var a, s := Only(InState(db, OwnerActive)), Only(InState(db, OwnerStopping));
      assert a in InState(db, OwnerActive) && s in InState(db, OwnerStopping);
      if OwnersFit(db.runtimes[a], db.runtimes[s]) then Some(Owners(a, s)) else None
  }

  predicate Reaped(p: Disposition) {
    || (p.child.None? && p.reapStatus.None? && p.reapAt.None?)
    || (p.child.Some? && p.reapStatus == Some("reaped") && p.reapAt.Some?)
  }

  predicate TaskOver(db: Store, task: string) {
    Aligned(db, task) && Finished(db.events, task)
  }

  /** The disposition of delivery `d` agrees with its delivery row and is settled. */
  predicate DispositionSettled(db: Store, d: string) {
    && d in db.dispositions && d in db.deliveries
    && db.deliveries[d].task == db.dispositions[d].task && db.deliveries[d].attempt == db.dispositions[d].attempt
    && db.dispositions[d].state == DispositionTerminal && Reaped(db.dispositions[d])
  }

  predicate SessionSettledBy(db: Store, s: Session, d: string, k: string) {
    && DispositionSettled(db, d) && k in db.leases && db.leases[k].task == db.dispositions[d].task
    && var task := db.dispositions[d].task; var l := db.leases[k];
    && TaskOver(db, task) && task in db.continuations
    && var c := db.continuations[task];
    && c.resource == k && c.delivery == d && c.fence == l.fence && c.state == ContinuationBlocked
    && db.dispositions[d].session == Some(s.session) && db.deliveries[d].target == s.endpoint
    && db.tasks[task].conversation == s.conversation
    && db.deliveries[d].acknowledgedAt.Some? && l.state == LeaseReleased
  }

  /** A session that `OPEN_SESSION_COUNT` does not count. */
  predicate SessionQuiet(db: Store, s: Session) {
    || s.state == SessionClosed
    || (s.state == SessionReady
        && exists d, k :: d in db.dispositions && k in db.leases && SessionSettledBy(db, s, d, k))
  }

  const RESPONSE_NAMESPACE: string := "continuation-response"

  predicate ResponseMatches(r: Response, task: string, c: Continuation) {
    && r.task == task && r.delivery == c.delivery && r.resource == c.resource && r.fence == c.fence
    && r.revision == c.revision - 1 && r.generation == c.generation
  }

  predicate ResponseAttests(r: Response, payload: string, codec: Codec) {
    && codec.canonicalJson(payload) == Some(payload)
    && r.hash == FramedDigest(RESPONSE_NAMESPACE, [payload])
    && r.outputBytes == |Utf8(payload)| && r.outcome == "structured"
  }

  predicate ResponseValid(db: Store, task: string, c: Continuation, codec: Codec) {
    var at := LatestSeq(db.events, task);
    && at.Some?
    && exists k :: k in db.responses && ResponseMatches(db.responses[k], task, c)
                   && ResponseAttests(db.responses[k], db.events[EventKey(task, at.value)].payload, codec)
  }

  predicate DeliveryDone(db: Store, task: string, d: string) {
    && d in db.deliveries && db.deliveries[d].task == task && db.deliveries[d].acknowledgedAt.Some?
    && DispositionSettled(db, d) && db.dispositions[d].task == task
  }

  /** Everything eligibility asks that mentions neither owner. */
  predicate Downstream(db: Store, task: string, c: Continuation, codec: Codec) {
    && (forall i :: 0 <= i < |db.sessions| ==> SessionQuiet(db, db.sessions[i]))
    && DeliveryDone(db, task, c.delivery)
    && TaskOver(db, task) && ResponseValid(db, task, c, codec)
    && |db.deliveries| == 1 && |db.dispositions| == 1
    && NothingPending(db)
  }

  predicate NothingPending(db: Store) {
    && (forall q :: q in db.queue ==> !OpenWork(db.queue[q]))
    && db.claims == map[]
    && forall i :: 0 <= i < |db.outbox| ==> db.outbox[i].state !in {"pending", "sending"}
  }

  /** The lease and the admission of the continued task both name `owner`. */
  predicate BoundTo(db: Store, owner: string, task: string, c: Continuation) {
    && c.resource in db.leases && db.leases[c.resource].task == task && db.leases[c.resource].owner == owner
    && db.leases[c.resource].fence == c.fence && db.leases[c.resource].state == LeaseReleased
    && task in db.admissions && db.admissions[task].state == AdmissionTerminal && db.admissions[task].runtime == Some(owner)
  }

  function References(db: Store, token: string): nat {
    |set k | k in db.leases && db.leases[k].owner == token|
    + |set t | t in db.admissions && db.admissions[t].runtime == Some(token)|
    + |set q | q in db.queue && db.queue[q].owner == Some(token)|
    + |set k | k in db.claims && db.claims[k].owner == token|
  }

  lemma Unreferenced(db: Store, token: string)
    requires forall k :: k in db.leases ==> db.leases[k].owner != token
    requires forall t :: t in db.admissions ==> db.admissions[t].runtime != Some(token)
    requires forall q :: q in db.queue ==> db.queue[q].owner != Some(token)
    requires forall k :: k in db.claims ==> db.claims[k].owner != token
    ensures References(db, token) == 0
  {
  }

  predicate Continued(c: Continuation) {
    c.state == ContinuationBlocked && c.revision >= 2
  }

  /** The rows found are the whole work and all of it hangs on the active runtime. */
  predicate Qualifies(db: Store, f: Facts, codec: Codec) {
    && Continued(f.continuation) && Downstream(db, f.task, f.continuation, codec)
    && BoundTo(db, f.active, f.task, f.continuation)
    && References(db, f.stopping) == 0 && |db.leases| == 1 && |db.admissions| == 1
  }

  function FactsOf(db: Store, owners: Owners, task: string): Facts
    requires owners.active in db.runtimes && owners.stopping in db.runtimes && task in db.continuations
  {
    Facts(owners.active, db.runtimes[owners.active], owners.stopping, db.runtimes[owners.stopping], task, db.continuations[task])
  }

  /** `eligible`. */
  function Eligible(db: Store, codec: Codec): Option<Facts> {
    var owners := FindOwners(db);
    if owners.None? || |db.continuations.Keys| != 1 then
      None
    else
      OwnersExist(db);
      var f := FactsOf(db, owners.value, Only(db.continuations.Keys));
      if Qualifies(db, f, codec) then Some(f) else None
  }

  lemma OwnersExist(db: Store)
    requires FindOwners(db).Some?
    ensures var o := FindOwners(db).value;
      && o.active in db.runtimes && db.runtimes[o.active].state == OwnerActive
      && o.stopping in db.runtimes && db.runtimes[o.stopping].state == OwnerStopping
  {
  }

  lemma EligibleIsConsistent(db: Store, codec: Codec)
    requires Eligible(db, codec).Some?
    ensures Consistent(db, Eligible(db, codec).value)
  {
    hide Downstream, BoundTo, References;
    OwnersExist(db);
    var task := Only(db.continuations.Keys);
    assert db.continuations == map[task := db.continuations[task]] by {
      assert db.continuations.Keys == {task};
    }
  }

  /** The facts are rows of the store. */
  predicate Consistent(db: Store, f: Facts) {
    && f.active in db.runtimes && db.runtimes[f.active] == f.activeRow && f.activeRow.state == OwnerActive
    && f.stopping in db.runtimes && db.runtimes[f.stopping] == f.stoppingRow && f.stoppingRow.state == OwnerStopping
    && InState(db, OwnerActive) == {f.active} && InState(db, OwnerStopping) == {f.stopping}
    && db.continuations == map[f.task := f.continuation] && Continued(f.continuation)
  }

  // ---------------------------------------------------------------- updates

  function UpdateOwner(runtimes: map<string, Runtime>, token: string, row: Runtime, state: OwnerState, stamp: string)
    : Option<map<string, Runtime>>
  {
    if token in runtimes && runtimes[token] == row && row.state == state then
      Some(runtimes[token := row.(state := OwnerStopped, heartbeatAt := stamp)])
    else
      None
  }

  function UpdateContinuation(continuations: map<string, Continuation>, task: string, c: Continuation, stamp: string)
    : Option<map<string, Continuation>>
  {
    if task in continuations && continuations[task] == c && c.state == ContinuationBlocked then
      Some(continuations[task := c.(state := ContinuationTerminal, revision := c.revision + 1, heartbeatAt := stamp)])
    else
      None
  }

  function ApplyUpdates(db: Store, f: Facts, stamp: string): Option<Store> {
    var first := UpdateOwner(db.runtimes, f.active, f.activeRow, OwnerActive, stamp);
    if first.None? then None else
    var second := UpdateOwner(first.value, f.stopping, f.stoppingRow, OwnerStopping, stamp);
    if second.None? then None else
    var third := UpdateContinuation(db.continuations, f.task, f.continuation, stamp);
    if third.None? then None else Some(db.(runtimes := second.value, continuations := third.value))
  }

  /** `eligible_post`. */
  predicate EligiblePost(db: Store, f: Facts, stamp: string) {
    && |set k | k in db.runtimes && k in {f.active, f.stopping}
               && db.runtimes[k].state == OwnerStopped && db.runtimes[k].heartbeatAt == stamp| == 2
    && f.task in db.continuations
    && var c := db.continuations[f.task];
       c.resource == f.continuation.resource && c.delivery == f.continuation.delivery && c.fence == f.continuation.fence
       && c.revision == f.continuation.revision + 1 && c.state == ContinuationTerminal && c.heartbeatAt == stamp
  }

  // ------------------------------------------------------------- projection

  function ProjectRuntime(line: S.Line, f: Facts, stamp: string): S.Line {
    if |line| == 5 && (line[0] == Quoted(f.active) || line[0] == Quoted(f.stopping)) then
      line[2 := Quoted(stamp)][3 := Quoted("stopped")]
    else
      line
  }

  function ProjectContinuation(line: S.Line, f: Facts, stamp: string): S.Line {
    if |line| == 16 && line[0] == Quoted(f.task) then
      line[4 := Decimal(f.continuation.revision + 1)][5 := Quoted("terminal")][11 := Quoted(stamp)]
    else
      line
  }

  function EachLine(lines: seq<S.Line>, change: S.Line -> S.Line): (r: seq<S.Line>)
    ensures |r| == |lines| && forall i :: 0 <= i < |r| ==> r[i] == change(lines[i])
  {
    seq(|lines|, i requires 0 <= i < |lines| => change(lines[i]))
  }

  function ProjectLines(tables: seq<seq<S.Line>>, f: Facts, stamp: string): (r: seq<seq<S.Line>>)
    requires |tables| == 13
    ensures |r| == 13
  {
    tables[0 := EachLine(tables[0], line => ProjectRuntime(line, f, stamp))]
          [8 := EachLine(tables[8], line => ProjectContinuation(line, f, stamp))]
  }

  /** `snapshot` with a projection: what the digest will be after the updates, computed before them. */
  function Projected(v: Versions, db: Store, f: Facts, stamp: string): string {
    Digest(SchemaHeader(v), ProjectLines(Lines(db), f, stamp))
  }

  // --------------------------------------------------------------- manifest

  datatype Place = Place(
    root: string, marker: string, config: string, configIdentity: string, database: string, databaseIdentity: string,
    binary: string, binaryIdentity: string, service: string, evidence: string)

  datatype Manifest = Manifest(
    operation: string, place: Place, pre: string, post: string, active: string, stopping: string, continuation: string,
    siblings: string, stamp: string, manifestDigest: string, receiptDigest: string)

  datatype Receipt = Receipt(
    manifestDigest: string, pre: string, post: string, active: string, stopping: string, continuation: string,
    receiptDigest: string, siblings: string, stamp: string)

  /** A fixture database: the business tables, the schema versions and the receipts of earlier migrations. */
  datatype Fixture = Fixture(store: Store, versions: Versions, receipts: map<string, Receipt>)

  function OwnerTexts(token: string, r: Runtime): seq<string> {
    [token, r.startedAt, r.heartbeatAt, OwnerText(r.state), r.fingerprint]
  }

  function ContinuationTexts(task: string, c: Continuation): seq<string> {
    [task, c.resource, c.delivery, Decimal(c.fence), Decimal(c.revision), ContinuationText(c.state), Decimal(c.nextTurn),
     Decimal(c.completedTurns), Decimal(c.noProgress), c.prompt, c.startedAt, c.heartbeatAt, c.lastProgressAt,
     Decimal(c.outputBytes), c.generation, Decimal(c.generationVersion)]
  }

  function OwnerDigest(token: string, r: Runtime): string {
    FramedDigest("", OwnerTexts(token, r))
  }

  function ContinuationDigest(task: string, c: Continuation): string {
    FramedDigest("", ContinuationTexts(task, c))
  }

  function ManifestTexts(m: Manifest): seq<string> {
    [m.operation, m.place.root, m.place.marker, m.place.config, m.place.configIdentity, m.place.database,
     m.place.databaseIdentity, m.place.binary, m.place.binaryIdentity, m.place.service, m.place.evidence, m.pre, m.post,
     m.active, m.stopping, m.continuation, m.siblings, m.stamp]
  }

  function ReceiptTexts(m: Manifest): seq<string> {
    [m.operation, m.manifestDigest, m.pre, m.post, m.active, m.stopping, m.continuation, m.siblings, m.stamp, "migrated"]
  }

  function Sealed(m: Manifest): Manifest {
    var signed := m.(manifestDigest := FramedDigest("", ManifestTexts(m)));
    signed.(receiptDigest := FramedDigest("", ReceiptTexts(signed)))
  }

  /** The part of `authenticate` that does not look at files. */
  predicate Authentic(m: Manifest) {
    m.manifestDigest == FramedDigest("", ManifestTexts(m)) && m.receiptDigest == FramedDigest("", ReceiptTexts(m))
  }

  function Digests(receipts: map<string, Receipt>): map<string, string> {
    map op | op in receipts :: receipts[op].receiptDigest
  }

  function SiblingDigest(receipts: map<string, Receipt>, operation: string): string {
    FramedDigest("", Receipts.Siblings(Digests(receipts), operation))
  }

  datatype MigrateError = MigrateRejected | MigrateDatabase

  datatype MigrateOutcome = Migrated | AlreadyMigrated

  /** `prepare_manifest`. */
  function Prepare(x: Fixture, operation: string, place: Place, stamp: string, codec: Codec): Result<Manifest, MigrateError> {
    var facts := Eligible(x.store, codec);
    if facts.None? then
      Err(MigrateRejected)
    else
      var f := facts.value;
      Ok(Sealed(Manifest(
        operation, place, Snapshot(x.versions, x.store), Projected(x.versions, x.store, f, stamp),
        OwnerDigest(f.active, f.activeRow), OwnerDigest(f.stopping, f.stoppingRow), ContinuationDigest(f.task, f.continuation),
        SiblingDigest(x.receipts, operation), stamp, "", "")))
  }

  function ReceiptOf(m: Manifest): Receipt {
    Receipt(m.manifestDigest, m.pre, m.post, m.active, m.stopping, m.continuation, m.receiptDigest, m.siblings, m.stamp)
  }

  predicate FactsMatch(f: Facts, m: Manifest) {
    && OwnerDigest(f.active, f.activeRow) == m.active && OwnerDigest(f.stopping, f.stoppingRow) == m.stopping
    && ContinuationDigest(f.task, f.continuation) == m.continuation
  }

  /** The business half of `execute_transaction`: the updated store, if every check passes. */
  function Advance(v: Versions, db: Store, m: Manifest, codec: Codec): Result<Store, MigrateError> {
    if Snapshot(v, db) != m.pre then Err(MigrateRejected) else
    var facts := Eligible(db, codec);
    if facts.None? || !FactsMatch(facts.value, m) then Err(MigrateRejected) else
    var after := ApplyUpdates(db, facts.value, m.stamp);
    if after.None? || Snapshot(v, after.value) != m.post || !EligiblePost(after.value, facts.value, m.stamp) then
      Err(MigrateRejected)
    else
      Ok(after.value)
  }

  predicate DigestTaken(receipts: map<string, Receipt>, digest: string) {
    exists op :: op in receipts && receipts[op].manifestDigest == digest
  }

  /** `execute_transaction`: the outcome and the fixture to install. */
  function Execute(x: Fixture, m: Manifest, codec: Codec): Result<(MigrateOutcome, Fixture), MigrateError> {
    if SiblingDigest(x.receipts, m.operation) != m.siblings then
      Err(MigrateRejected)
    else if m.operation in x.receipts then
      if x.receipts[m.operation] != ReceiptOf(m) || Snapshot(x.versions, x.store) != m.post then Err(MigrateRejected)
      else Ok((AlreadyMigrated, x))
    else
      var after :- Advance(x.versions, x.store, m, codec);
      if DigestTaken(x.receipts, m.manifestDigest) then Err(MigrateDatabase)
      else Ok((Migrated, x.(store := after, receipts := x.receipts[m.operation := ReceiptOf(m)])))
  }

  // ---------------------------------------------------- the imperative form

  /** A write transaction on a fixture database. */
  class FixtureTransaction {
    var x: Fixture

    constructor (start: Fixture)
      ensures x == start
    {
      x := start;
    }

    method UpdateOwnerRow(token: string, row: Runtime, state: OwnerState, stamp: string) returns (ok: bool)
      modifies this
      ensures ok <==> UpdateOwner(old(x.store.runtimes), token, row, state, stamp).Some?
      ensures ok ==> x == old(x).(store := old(x.store).(
        runtimes := UpdateOwner(old(x.store.runtimes), token, row, state, stamp).value))
      ensures !ok ==> x == old(x)
    {
      ok := token in x.store.runtimes && x.store.runtimes[token] == row && row.state == state;
      if ok {
        x := x.(store := x.store.(
          runtimes := x.store.runtimes[token := row.(state := OwnerStopped, heartbeatAt := stamp)]));
      }
    }

    method UpdateContinuationRow(task: string, c: Continuation, stamp: string) returns (ok: bool)
      modifies this
      ensures ok <==> UpdateContinuation(old(x.store.continuations), task, c, stamp).Some?
      ensures ok ==> x == old(x).(store := old(x.store).(
        continuations := UpdateContinuation(old(x.store.continuations), task, c, stamp).value))
      ensures !ok ==> x == old(x)
    {
      ok := task in x.store.continuations && x.store.continuations[task] == c && c.state == ContinuationBlocked;
      if ok {
        x := x.(store := x.store.(continuations := x.store.continuations[task := c.(
          state := ContinuationTerminal, revision := c.revision + 1, heartbeatAt := stamp)]));
      }
    }

    /** `execute_transaction`. After an error the copy may hold partial writes and its owner drops it. */
    method Run(m: Manifest, codec: Codec) returns (r: Result<MigrateOutcome, MigrateError>)
      modifies this
      ensures r.Ok? <==> Execute(old(x), m, codec).Ok?
      ensures r.Ok? ==> (r.value, x) == Execute(old(x), m, codec).value
      ensures r.Err? ==> r.error == Execute(old(x), m, codec).error
    {
      hide SiblingDigest, Snapshot, Eligible, FactsMatch, EligiblePost, DigestTaken, UpdateOwner, UpdateContinuation;
      var siblings := SiblingDigest(x.receipts, m.operation);
      if siblings != m.siblings {
        return Err(MigrateRejected);
      }
      if m.operation in x.receipts {
        if x.receipts[m.operation] != ReceiptOf(m) || Snapshot(x.versions, x.store) != m.post {
          return Err(MigrateRejected);
        }
        return Ok(AlreadyMigrated);
      }
      var pre := Snapshot(x.versions, x.store);
      if pre != m.pre {
        return Err(MigrateRejected);
      }
      var facts := Eligible(x.store, codec);
      if facts.None? || !FactsMatch(facts.value, m) {
        return Err(MigrateRejected);
      }
      var f := facts.value;
      var stopped := UpdateOwnerRow(f.active, f.activeRow, OwnerActive, m.stamp);
      if !stopped {
        return Err(MigrateRejected);
      }
      stopped := UpdateOwnerRow(f.stopping, f.stoppingRow, OwnerStopping, m.stamp);
      if !stopped {
        return Err(MigrateRejected);
      }
      var ended := UpdateContinuationRow(f.task, f.continuation, m.stamp);
      if !ended {
        return Err(MigrateRejected);
      }
      var post := Snapshot(x.versions, x.store);
      if post != m.post || !EligiblePost(x.store, f, m.stamp) {
        return Err(MigrateRejected);
      }
      if DigestTaken(x.receipts, m.manifestDigest) {
        return Err(MigrateDatabase);
      }
      x := x.(receipts := x.receipts[m.operation := ReceiptOf(m)]);
      return Ok(Migrated);
    }
  }
}
