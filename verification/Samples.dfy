/** Concrete databases: one whose fresh migration manifest is rejected, and one that remediation repairs. */
module Samples {
  import opened Prelude
  import opened Bytes
  import opened Cells
  import opened Tables
  import opened Snapshots
  import opened SnapshotSizes
  import FM = FixtureMigration
  import FT = FixtureMigrationTheorems
  import OB = OwnerBinding
  import S = Streams
  import OP = OwnerBindingProtocol

  /** One ended task with a blocked continuation; its lease and admission name `bound`. */
  function SampleStore(active: string, bound: string): Store {
    Store(
      map[active := Runtime("2", "2", OwnerActive, "f"), "s" := Runtime("1", "1", OwnerStopping, "g")],
      map["t" := Task("t", None, "a", "b", "c", None, "x", 1, 0, 0, None, 0)],
      map[EventKey("t", 1) := Event("e", Completed, "1", "{}")],
      map["d" := Delivery("t", 1, "b", "1", Some("1"))],
      map["t" := SampleAdmission(bound)],
      [],
      map["d" := Disposition("t", 1, DispositionTerminal, None, None, None, None, None)],
      map["r" := Lease("t", bound, 1, LeaseReleased, "1", "1", "1")],
      map["t" := SampleContinuation()],
      map["k" := SampleResponse()],
      map[], map[], [])
  }

  function SampleAdmission(bound: string): Admission {
    Admission(AdmissionTerminal, 1, Some(bound), None, None, None, None, None, None, "1", "1")
  }

  function SampleContinuation(): Continuation {
    Continuation("r", "d", 1, 2, ContinuationBlocked, 1, 0, 0, "p", "1", "1", "1", 0, "g", 1)
  }

  function SampleResponse(): Response {
    Response("t", "d", "r", 1, 1, FramedDigest(FM.RESPONSE_NAMESPACE, ["{}"]), "structured", 2, "g", "1")
  }

  lemma SampleOwners(active: string, bound: string)
    requires active != "s"
    ensures FM.FindOwners(SampleStore(active, bound)) == Some(FM.Owners(active, "s"))
  {
    hide FramedDigest;
    var db := SampleStore(active, bound);
    assert FM.InState(db, OwnerActive) == {active};
    assert FM.InState(db, OwnerStopping) == {"s"};
    assert TextLess("1", "2") && !TextLess("2", "1");
  }

  lemma SampleResponseIsValid(active: string, bound: string, codec: Codec)
    requires codec.canonicalJson("{}") == Some("{}")
    ensures var db := SampleStore(active, bound); FM.ResponseValid(db, "t", SampleContinuation(), codec) && FM.TaskOver(db, "t")
  {
    hide FramedDigest;
    var db := SampleStore(active, bound);
    LatestIs(db.events, "t", 1);
    assert |Utf8("{}")| == 2;
    assert FM.ResponseMatches(db.responses["k"], "t", SampleContinuation());
    assert FM.ResponseAttests(db.responses["k"], "{}", codec);
  }

  lemma SampleDownstream(active: string, bound: string, codec: Codec)
    requires codec.canonicalJson("{}") == Some("{}")
    ensures FM.Downstream(SampleStore(active, bound), "t", SampleContinuation(), codec)
  {
    hide FramedDigest, FM.ResponseValid, FM.TaskOver, SampleResponse;
    var db := SampleStore(active, bound);
    SampleResponseIsValid(active, bound, codec);
    assert |db.deliveries| == 1 && |db.dispositions| == 1;
  }

  lemma SampleBinding(active: string, bound: string)
    ensures var db := SampleStore(active, bound);
      && FM.BoundTo(db, bound, "t", SampleContinuation()) && FM.Continued(SampleContinuation())
      && |db.leases| == 1 && |db.admissions| == 1 && db.continuations == map["t" := SampleContinuation()] && active in db.runtimes
  {
    hide FramedDigest, SampleResponse;
    var db := SampleStore(active, bound);
    assert |db.leases| == 1 && |db.admissions| == 1;
  }

  // ------------------------------------------------- a manifest is rejected

  lemma SampleIsEligible(active: string, codec: Codec)
    requires active != "s" && codec.canonicalJson("{}") == Some("{}")
    ensures var db := SampleStore(active, active); var f := FM.Eligible(db, codec);
      f.Some? && f.value.active == active && f.value.stopping == "s" && f.value.task == "t" && f.value.continuation == SampleContinuation()
  {
    hide FramedDigest, FM.Downstream, FM.BoundTo, FM.References, FM.FindOwners, SampleResponse;
    var db := SampleStore(active, active);
    SampleOwners(active, active);
    SampleDownstream(active, active, codec);
    SampleBinding(active, active);
    FM.Unreferenced(db, "s");
    assert db.continuations.Keys == {"t"};
  }

  lemma SampleHashLength()
    ensures |SampleResponse().hash| <= 1000
  {
    hide Utf8, BigEndian;
    Utf8Length(FM.RESPONSE_NAMESPACE);
    Utf8Length("{}");
    var parts := Encode(["{}"]);
    assert parts == [Utf8("{}")];
    assert FrameAll(parts) == Frame(parts[0]);
  }

  lemma TinyOne<V(!new)>(m: map<string, V>, cells: (string, V) -> Row, k: string, v: V)
    requires m == map[k := v] && TinyRow(cells(k, v))
    ensures TinyRows(m, cells)
  {
    hide TinyRow;
  }

  lemma TinyOwners(active: string, r: Runtime, q: Runtime)
    requires TinyRow(RuntimeCells(active, r)) && TinyRow(RuntimeCells("s", q))
    ensures TinyRows(map[active := r, "s" := q], RuntimeCells)
  {
    hide TinyRow, RuntimeCells;
  }

  lemma SampleIsTiny(active: string, bound: string)
    requires |active| <= 1000 && |bound| <= 1000
    ensures Tiny(SampleStore(active, bound))
  {
    hide FramedDigest, TinyRow, TinyRows, SampleResponse;
    var db := SampleStore(active, bound);
    SampleRowsAreTiny(active, bound);
    SampleWorkIsTiny(bound);
    TinyOwners(active, Runtime("2", "2", OwnerActive, "f"), Runtime("1", "1", OwnerStopping, "g"));
    TinyOne(db.tasks, TaskCells, "t", db.tasks["t"]);
    TinyOne(db.deliveries, DeliveryCells, "d", db.deliveries["d"]);
    TinyOne(db.admissions, AdmissionCells, "t", SampleAdmission(bound));
    TinyOne(db.dispositions, DispositionCells, "d", db.dispositions["d"]);
    TinyOne(db.leases, LeaseCells, "r", db.leases["r"]);
    TinyOne(db.continuations, ContinuationCells, "t", SampleContinuation());
    TinyOne(db.responses, ResponseCells, "k", SampleResponse());
    NoneAreTiny(WorkCells);
    NoneAreTiny(ClaimCells);
  }

  lemma NoneAreTiny<V(!new)>(cells: (string, V) -> Row)
    ensures TinyRows(map[], cells)
  {
  }

  lemma SampleRowsAreTiny(active: string, bound: string)
    requires |active| <= 1000
    ensures var db := SampleStore(active, bound);
      && TinyRow(RuntimeCells(active, Runtime("2", "2", OwnerActive, "f"))) && TinyRow(RuntimeCells("s", Runtime("1", "1", OwnerStopping, "g")))
      && TinyRow(TaskCells("t", db.tasks["t"])) && TinyRow(EventCells(EventKey("t", 1), db.events[EventKey("t", 1)]))
      && TinyRow(DeliveryCells("d", db.deliveries["d"])) && TinyRow(DispositionCells("d", db.dispositions["d"]))
  {
    hide FramedDigest, SampleResponse;
  }

  lemma SampleWorkIsTiny(bound: string)
    requires |bound| <= 1000
    ensures TinyRow(AdmissionCells("t", SampleAdmission(bound))) && TinyRow(ContinuationCells("t", SampleContinuation()))
    ensures TinyRow(LeaseCells("r", Lease("t", bound, 1, LeaseReleased, "1", "1", "1"))) && TinyRow(ResponseCells("k", SampleResponse()))
  {
    hide FramedDigest;
    SampleHashLength();
  }

  /** What the migration of the sample would leave. */
  function SampleAfter(active: string): Store {
    var c := SampleContinuation();
    SampleStore(active, active).(
      runtimes := map[active := Runtime("2", "9", OwnerStopped, "f"), "s" := Runtime("1", "9", OwnerStopped, "g")],
      continuations := map["t" := c.(state := ContinuationTerminal, revision := 3, heartbeatAt := "9")])
  }

  lemma SampleStops(active: string, f: FM.Facts)
    requires active != "s" && f.active == active && f.stopping == "s" && f.task == "t" && f.continuation == SampleContinuation()
    ensures FT.Stopped(SampleStore(active, active), f, "9") == SampleAfter(active)
  {
    hide FramedDigest, SampleResponse;
    var after := FT.Stopped(SampleStore(active, active), f, "9");
    assert after.runtimes == SampleAfter(active).runtimes;
    assert after.continuations == SampleAfter(active).continuations;
  }

  lemma SampleAfterIsTiny(active: string)
    requires |active| <= 1000
    ensures Tiny(SampleAfter(active))
  {
    SampleAfterRows(active);
    hide FramedDigest, TinyRow, TinyRows, SampleResponse;
    SampleIsTiny(active, active);
    TinyOwners(active, Runtime("2", "9", OwnerStopped, "f"), Runtime("1", "9", OwnerStopped, "g"));
    var after := SampleAfter(active);
    TinyOne(after.continuations, ContinuationCells, "t", after.continuations["t"]);
  }

  lemma SampleAfterRows(active: string)
    requires |active| <= 1000
    ensures TinyRow(RuntimeCells(active, Runtime("2", "9", OwnerStopped, "f"))) && TinyRow(RuntimeCells("s", Runtime("1", "9", OwnerStopped, "g")))
    ensures TinyRow(ContinuationCells("t", SampleContinuation().(state := ContinuationTerminal, revision := 3, heartbeatAt := "9")))
  {
  }

  lemma ShortProjection(tables: seq<seq<S.Line>>, f: FM.Facts, stamp: string)
    requires |tables| == 13 && (forall i :: 0 <= i < 13 ==> ShortTable(tables[i])) && |stamp| <= 1000 && f.continuation.revision == 2
    ensures forall i :: 0 <= i < 13 ==> ShortTable(FM.ProjectLines(tables, f, stamp)[i])
  {
    hide Quoted, Decimal;
    assert |Quoted(stamp)| < SHORT && |Quoted("stopped")| < SHORT && |Quoted("terminal")| < SHORT && |Decimal(3)| < SHORT by { ShortWords(stamp); }
    forall j | 0 <= j < |tables[0]|
      ensures ShortLine(FM.ProjectRuntime(tables[0][j], f, stamp))
    {
      assert ShortLine(tables[0][j]);
    }
    forall j | 0 <= j < |tables[8]|
      ensures ShortLine(FM.ProjectContinuation(tables[8][j], f, stamp))
    {
      assert ShortLine(tables[8][j]);
    }
  }

  lemma ShortWords(stamp: string)
    requires |stamp| <= 1000
    ensures |Quoted(stamp)| < SHORT && |Quoted("stopped")| < SHORT && |Quoted("terminal")| < SHORT && |Decimal(3)| < SHORT
  {
    DoubledLength(stamp);
    DoubledLength("stopped");
    DoubledLength("terminal");
  }

  const AWKWARD: string := ['a', NUL]

  lemma AwkwardIsNotRecognised()
    ensures UpToNul(AWKWARD) == ['a'] && ['a'] != AWKWARD && ['a'] != "s" && AWKWARD != "s"
  {
    assert AWKWARD[1..] == [NUL];
    assert UpToNul(AWKWARD[1..]) == [];
    assert |AWKWARD| == 2 && |"s"| == 1;
  }

  /** An eligible database, with a NUL in the active token, whose fresh manifest is rejected. */
  lemma ProjectionCanFail(versions: Versions, operation: string, place: FM.Place, codec: Codec)
    requires codec.canonicalJson("{}") == Some("{}")
    ensures var x := FM.Fixture(SampleStore(AWKWARD, AWKWARD), versions, map[]);
      var m := FM.Prepare(x, operation, place, "9", codec);
      m.Ok? && FM.Execute(x, m.value, codec) == Err(FM.MigrateRejected)
  {
    hide FM.Eligible, SampleStore, FM.Execute, FM.ProjectLines, Lines, Fits, SampleAfter, FT.Stopped, Tiny, Snapshot, FM.Projected, FM.Sealed, FM.SiblingDigest;
    AwkwardIsNotRecognised();
    SampleIsEligible(AWKWARD, codec);
    var x := FM.Fixture(SampleStore(AWKWARD, AWKWARD), versions, map[]);
    var f := FM.Eligible(x.store, codec).value;
    AwkwardFits(f);
    AwkwardIsNotProjectable(f);
    FT.RejectedUnlessProjectable(x, operation, place, "9", codec);
  }

  lemma AwkwardFits(f: FM.Facts)
    requires f.active == AWKWARD && f.stopping == "s" && f.task == "t" && f.continuation == SampleContinuation()
    ensures FT.FitsBoth(SampleStore(AWKWARD, AWKWARD), f, "9")
  {
    hide SampleStore, FM.ProjectLines, Lines, Fits, SampleAfter, FT.Stopped, Tiny, ShortTable;
    var db := SampleStore(AWKWARD, AWKWARD);
    AwkwardIsNotRecognised();
    assert |AWKWARD| == 2;
    SampleStops(AWKWARD, f);
    SampleIsTiny(AWKWARD, AWKWARD);
    SampleAfterIsTiny(AWKWARD);
    TinyLines(db);
    TinyLines(SampleAfter(AWKWARD));
    ShortProjection(Lines(db), f, "9");
    ShortTablesFit(FM.ProjectLines(Lines(db), f, "9"));
    ShortTablesFit(Lines(SampleAfter(AWKWARD)));
  }

  lemma AwkwardIsNotProjectable(f: FM.Facts)
    requires f.active == AWKWARD && f.stopping == "s"
    ensures !FT.Projectable(SampleStore(AWKWARD, AWKWARD), f, "9")
  {
    hide SampleStore;
    AwkwardIsNotRecognised();
    SampleBinding(AWKWARD, AWKWARD);
    assert !FT.Recognised(AWKWARD, f);
  }

  // ------------------------------------------------ a database to remediate

  lemma SampleReferences(active: string)
    requires active != "s"
    ensures FM.References(SampleStore(active, "s"), "s") == 2
  {
    hide FramedDigest, SampleResponse;
    var db := SampleStore(active, "s");
    assert (set k | k in db.leases && db.leases[k].owner == "s") == {"r"};
    assert (set t | t in db.admissions && db.admissions[t].runtime == Some("s")) == {"t"};
    NoOwners(db);
  }

  lemma NoOwners(db: Store)
    requires db.queue == map[] && db.claims == map[]
    ensures (set q | q in db.queue && db.queue[q].owner == Some("s")) == {} && (set k | k in db.claims && db.claims[k].owner == "s") == {}
  {
  }

  lemma SampleLoads(active: string)
    requires active != "s"
    ensures OB.LoadFacts(SampleStore(active, "s")).Some?
    ensures var f := OB.LoadFacts(SampleStore(active, "s")).value; f.task == "t" && f.continuation == SampleContinuation()
  {
    hide FramedDigest, SampleResponse, FM.FindOwners, FM.BoundTo, FM.References;
    var db := SampleStore(active, "s");
    SampleOwners(active, "s");
    SampleBinding(active, "s");
    SampleReferences(active);
    assert db.continuations.Keys == {"t"};
  }

  function SampleContract(): seq<OB.ContractEntry> {
    seq(24, i => OB.ContractEntry(i + 1, "m", "c"))
  }

  function SampleLegacy(): OB.Durable {
    OB.Durable(SampleStore("a", "s"), seq(13, i => OB.LedgerRow(i + 1, "m", true, "c", 0, true)), OB.Schema(OB.Missing, OB.Missing, 0), None, map[])
  }

  function SampleEnv(codec: Codec): OB.Env {
    OB.Env(OB.Args("x", "y", "z"), SampleContract(), "c", SampleLegacy(), codec)
  }

  lemma SampleLedger()
    ensures OP.ProperContract(SampleContract()) && OB.LedgerAuthentic(SampleLegacy().ledger, SampleContract(), 13)
  {
    hide SampleStore;
  }

  lemma SampleBackup(codec: Codec)
    ensures OB.LegacyAbsence(SampleEnv(codec), SampleLegacy(), BusinessDigest(SampleStore("a", "s")))
    ensures OP.LegacyPhase(SampleEnv(codec), SampleLegacy())
  {
    hide SampleStore, BusinessDigest, OB.LedgerAuthentic, SampleContract;
    SampleLedger();
  }

  /** There is a legacy database to which every theorem about remediation applies. */
  lemma RemediationIsPossible(codec: Codec)
    requires codec.canonicalJson("{}") == Some("{}")
    ensures OP.Ready(SampleEnv(codec)) && OP.LegacyPhase(SampleEnv(codec), SampleLegacy()) && OP.Orderly(SampleEnv(codec))
  {
    hide SampleStore, OB.LoadFacts, FM.Downstream, BusinessDigest, OB.LegacyAbsence, OP.LegacyPhase, SampleContract, OP.ProperContract;
    assert "a" != "s" by { assert "a"[0] != "s"[0]; }
    SampleLedger();
    SampleBackup(codec);
    SampleLoads("a");
    SampleDownstream("a", "s", codec);
  }
}
