/** The exact commit condition of pre-acceptance recovery, and its idempotence. */
module PreAcceptanceTheorems {
  import opened Prelude
  import opened Tables
  import opened PreAcceptance
  import opened PreAcceptanceProofs
  import Bytes

  // ------------------------------------------------------------- identities

  /** Delivery and task ids are UUIDs; what matters here is that they hold no colon. */
  ghost predicate PlainIds(db: Store) {
    forall d :: d in db.deliveries ==> ':' !in d && ':' !in db.deliveries[d].task
  }

  lemma {:induction false} SplitAtColon(a: string, b: string, x: string, y: string)
    requires ':' !in a && ':' !in b && a + ":" + x == b + ":" + y
    ensures a == b && x == y
  {
    assert (a == [] || a[0] == (a + ":" + x)[0]) && (b == [] || b[0] == (b + ":" + y)[0]);
    if a == [] {
      assert (a + ":" + x)[0] == ':';
      PrefixesOfEqualLength(a + ":", b + ":", x, y);
    } else {
      assert (b + ":" + y)[0] != ':';
      assert a[1..] + ":" + x == (a + ":" + x)[1..] && b[1..] + ":" + y == (b + ":" + y)[1..];
      SplitAtColon(a[1..], b[1..], x, y);
      assert a == [a[0]] + a[1..] && b == [b[0]] + b[1..];
    }
  }

  lemma IdentityInjective(d: string, t: string, a: int, d': string, t': string, a': int)
    requires ':' !in d && ':' !in d' && ':' !in t && ':' !in t'
    requires Identity(d, t, a) == Identity(d', t', a')
    ensures d == d' && t == t' && a == a'
  {
    SplitAtColon(d, d', t + ":" + Bytes.Decimal(a), t' + ":" + Bytes.Decimal(a'));
    SplitAtColon(t, t', Bytes.Decimal(a), Bytes.Decimal(a'));
    Bytes.DecimalInjective(a, a');
  }

  ghost function Names(db: Store, s: set<string>): set<string> {
    set d | d in s && d in db.deliveries :: IdentityOf(db, d)
  }

  lemma SameNameSameDelivery(db: Store, d: string, e: string)
    requires PlainIds(db) && d in db.deliveries && e in db.deliveries && IdentityOf(db, d) == IdentityOf(db, e)
    ensures d == e
  {
    var x, y := db.deliveries[d], db.deliveries[e];
    IdentityInjective(d, x.task, x.attempt, e, y.task, y.attempt);
  }

  lemma NamesMinus(db: Store, s: set<string>, t: set<string>)
    requires PlainIds(db) && s <= db.deliveries.Keys && t <= db.deliveries.Keys
    ensures Names(db, s - t) == Names(db, s) - Names(db, t)
  {
    forall n | n in Names(db, s - t)
      ensures n in Names(db, s) - Names(db, t)
    {
      var d :| d in s - t && d in db.deliveries && IdentityOf(db, d) == n;
      if n in Names(db, t) {
        var e :| e in t && e in db.deliveries && IdentityOf(db, e) == n;
        SameNameSameDelivery(db, d, e);
        assert false;
      }
    }
  }

  lemma NamesEqual(db: Store, s: set<string>, t: set<string>)
    requires PlainIds(db) && s <= db.deliveries.Keys && t <= s
    ensures Names(db, s) == Names(db, t) <==> s == t
  {
    if Names(db, s) == Names(db, t) {
      forall d | d in s
        ensures d in t
      {
        assert IdentityOf(db, d) in Names(db, t);
        var e :| e in t && e in db.deliveries && IdentityOf(db, e) == IdentityOf(db, d);
        SameNameSameDelivery(db, d, e);
      }
    }
  }

  // ------------------------------------------------------- the planner sets

  ghost predicate AllMatch(db: Store, tuples: seq<Tuple>) {
    forall i :: 0 <= i < |tuples| ==> DeliveryMatches(db, tuples[i])
  }

  lemma {:induction false} TargetNames(db: Store, tuples: seq<Tuple>)
    requires AllMatch(db, tuples)
    ensures DeliverySet(tuples) <= db.deliveries.Keys
    ensures forall d :: d in DeliverySet(tuples) ==> db.deliveries[d].task in TaskSet(tuples)
    ensures Names(db, DeliverySet(tuples)) == NameSet(tuples)
  {
    if tuples != [] {
      assert DeliveryMatches(db, tuples[0]);
      assert AllMatch(db, tuples[1..]);
      TargetNames(db, tuples[1..]);
      var d := tuples[0].delivery;
      assert Names(db, {d} + DeliverySet(tuples[1..])) == {IdentityOf(db, d)} + Names(db, DeliverySet(tuples[1..])) by {
        assert d in db.deliveries;
      }
    }
  }

  ghost function NameSet(tuples: seq<Tuple>): set<string> {
    if tuples == [] then {} else {Named(tuples[0])} + NameSet(tuples[1..])
  }

  ghost predicate Removable(p: Planner, tuples: seq<Tuple>) {
    && TasksDiffer(tuples)
    && (forall i, j :: 0 <= i < j < |tuples| ==> Named(tuples[i]) != Named(tuples[j]))
    && forall i :: 0 <= i < |tuples| ==>
         tuples[i].task in p.unfinished && Named(tuples[i]) in p.unacknowledged && Named(tuples[i]) !in p.awaiting
  }

  lemma {:induction false} RemoveTargetsExactly(p: Planner, tuples: seq<Tuple>)
    requires Removable(p, tuples)
    ensures RemoveTargets(p, tuples)
         == Ok(p.(unfinished := p.unfinished - TaskSet(tuples), unacknowledged := p.unacknowledged - NameSet(tuples)))
    decreases tuples
  {
    hide Named;
    if tuples != [] {
      var t, rest := tuples[0], tuples[1..];
      var q := p.(unfinished := p.unfinished - {t.task}, unacknowledged := p.unacknowledged - {Named(t)});
      assert Removable(q, rest);
      RemoveTargetsExactly(q, rest);
      assert q.unfinished - TaskSet(rest) == p.unfinished - TaskSet(tuples);
      assert q.unacknowledged - NameSet(rest) == p.unacknowledged - NameSet(tuples);
    } else {
      assert p.unfinished - TaskSet(tuples) == p.unfinished;
      assert p.unacknowledged - NameSet(tuples) == p.unacknowledged;
    }
  }

  lemma OpenIsPlanned(db: Store, t: Tuple, codec: Codec)
    requires Open(db, t, codec)
    ensures t.task in Unfinished(db) && t.delivery in Unacknowledged(db) && t.delivery !in Awaiting(db)
  {
  }

  lemma OpenIsRemovable(db: Store, tuples: seq<Tuple>, codec: Codec)
    requires PlainIds(db) && AllOpen(db, tuples, codec) && TasksDiffer(tuples)
    ensures Removable(ReadPlanner(db), tuples)
  {
    hide Open, Identity;
    forall i | 0 <= i < |tuples|
      ensures DeliveryMatches(db, tuples[i])
      ensures tuples[i].task in Unfinished(db)
      ensures Named(tuples[i]) in ReadPlanner(db).unacknowledged && Named(tuples[i]) !in ReadPlanner(db).awaiting
    {
      assert Open(db, tuples[i], codec);
      OpenIsPlanned(db, tuples[i], codec);
      OpenIsNamed(db, tuples[i], codec);
    }
    forall i, j | 0 <= i < j < |tuples|
      ensures Named(tuples[i]) != Named(tuples[j])
    {
      assert DeliveryMatches(db, tuples[i]) && DeliveryMatches(db, tuples[j]);
      if Named(tuples[i]) == Named(tuples[j]) {
        SameNameSameDelivery(db, tuples[i].delivery, tuples[j].delivery);
        assert false;
      }
    }
  }

  lemma OpenIsNamed(db: Store, t: Tuple, codec: Codec)
    requires PlainIds(db) && Open(db, t, codec)
    ensures DeliveryMatches(db, t)
    ensures Named(t) in ReadPlanner(db).unacknowledged && Named(t) !in ReadPlanner(db).awaiting
  {
    hide ChecksOpen, Identity, Finished;
    assert Named(t) == IdentityOf(db, t.delivery);
    if Named(t) in ReadPlanner(db).awaiting {
      var e :| e in db.deliveries && e in Awaiting(db) && IdentityOf(db, e) == Named(t);
      SameNameSameDelivery(db, t.delivery, e);
      assert false;
    }
  }

  /** Acknowledged deliveries of a target task, which the planner counts as awaiting an outcome. */
  ghost function OtherAcknowledged(db: Store, tuples: seq<Tuple>): set<string> {
    set d | d in db.deliveries && db.deliveries[d].acknowledgedAt.Some? && db.deliveries[d].task in TaskSet(tuples)
  }

  /** The three planner sets after a batch. */
  lemma PlannerAfter(db: Store, after: Store, tuples: seq<Tuple>, now: string)
    requires AllMatch(db, tuples)
    requires Ended(db, after, TaskSet(tuples), DeliverySet(tuples), now)
    ensures Unfinished(after) == Unfinished(db) - TaskSet(tuples)
    ensures Unacknowledged(after) == Unacknowledged(db) - DeliverySet(tuples)
    ensures Awaiting(after) == Awaiting(db) - OtherAcknowledged(db, tuples)
  {
    hide Finished;
    TargetNames(db, tuples);
  }

  lemma ReadPlannerNames(db: Store)
    ensures ReadPlanner(db) == Planner(Unfinished(db), Names(db, Unacknowledged(db)), Names(db, Awaiting(db)))
  {
  }

  lemma NamesKept(db: Store, after: Store, tasks: set<string>, deliveries: set<string>, now: string, s: set<string>)
    requires Ended(db, after, tasks, deliveries, now)
    ensures Names(after, s) == Names(db, s)
  {
  }

  /** The final comparison passes exactly when no acknowledged delivery of a target task vanishes from it. */
  lemma FinalCheckExactly(db: Store, after: Store, tuples: seq<Tuple>, now: string, codec: Codec)
    requires PlainIds(db) && AllOpen(db, tuples, codec) && TasksDiffer(tuples)
    requires Ended(db, after, TaskSet(tuples), DeliverySet(tuples), now)
    ensures RemoveTargets(ReadPlanner(db), tuples).Ok?
    ensures ReadPlanner(after) == RemoveTargets(ReadPlanner(db), tuples).value
       <==> OtherAcknowledged(db, tuples) * Awaiting(db) == {}
  {
    hide Open, Ended, PlainIds, Unfinished, Unacknowledged, Awaiting, ReadPlanner, RemoveTargets, Named, DeliveryMatches;
    OpenMatches(db, tuples, codec);
    TargetNames(db, tuples);
    OpenIsRemovable(db, tuples, codec);
    RemoveTargetsExactly(ReadPlanner(db), tuples);
    PlannerAfter(db, after, tuples, now);
    ReadPlannerNames(db);
    ReadPlannerNames(after);
    var u, a, bad := Unacknowledged(db), Awaiting(db), OtherAcknowledged(db, tuples);
    PlannedDeliveries(db);
    NamesKept(db, after, TaskSet(tuples), DeliverySet(tuples), now, u - DeliverySet(tuples));
    NamesKept(db, after, TaskSet(tuples), DeliverySet(tuples), now, a - bad);
    NamesMinus(db, u, DeliverySet(tuples));
    NamesEqual(db, a, a - bad);
    MinusNothing(a, bad);
  }

  lemma MinusNothing(a: set<string>, bad: set<string>)
    ensures a == a - bad <==> bad * a == {}
  {
    if bad * a != {} {
      var x :| x in bad * a;
      assert x in a && x !in a - bad;
    } else {
      assert forall x :: x in a ==> x !in bad * a;
      assert a - bad == a;
    }
  }

  lemma PlannedDeliveries(db: Store)
    ensures Unacknowledged(db) <= db.deliveries.Keys && Awaiting(db) <= db.deliveries.Keys
  {
  }

  lemma OpenMatches(db: Store, tuples: seq<Tuple>, codec: Codec)
    requires AllOpen(db, tuples, codec)
    ensures AllMatch(db, tuples)
  {
  }

  // ---------------------------------------------------------- main theorems

  lemma OtherAcknowledgedAwait(db: Store, tuples: seq<Tuple>, codec: Codec)
    requires AllOpen(db, tuples, codec)
    ensures OtherAcknowledged(db, tuples) <= Awaiting(db)
  {
    hide Open;
    forall d | d in OtherAcknowledged(db, tuples)
      ensures d in Awaiting(db)
    {
      TaskSetMembers(tuples, db.deliveries[d].task);
      var i :| 0 <= i < |tuples| && tuples[i].task == db.deliveries[d].task;
      assert Open(db, tuples[i], codec);
      OpenIsPlanned(db, tuples[i], codec);
    }
  }

  lemma {:induction false} AllOpenValidates(db: Store, tuples: seq<Tuple>, codec: Codec)
    requires AllOpen(db, tuples, codec)
    ensures ValidateAll(db, tuples, codec) == Ok(tuples)
  {
    hide Open, Validate;
    if tuples != [] {
      assert Open(db, tuples[0], codec);
      ValidateOpenExactly(db, tuples[0], codec);
      AllOpenValidates(db, tuples[1..], codec);
      assert tuples == [tuples[0]] + tuples[1..];
    }
  }

  lemma {:induction false} AllClosedValidates(db: Store, tuples: seq<Tuple>, codec: Codec)
    requires AllClosed(db, tuples, codec)
    ensures ValidateAll(db, tuples, codec) == Ok([])
  {
    hide Closed, Validate;
    if tuples != [] {
      assert Closed(db, tuples[0], codec);
      ValidateOpenExactly(db, tuples[0], codec);
      AllClosedValidates(db, tuples[1..], codec);
    }
  }

  /**
   * For distinct tuples that all validate as open: their tasks differ, and the batch commits exactly when
   * every tuple is closable and no target task has another acknowledged delivery. A committed batch takes
   * exactly the targets out of the planner, closes every target and touches no other task's rows.
   */
  lemma CommitExactly(db: Store, tuples: seq<Tuple>, now: string, ids: seq<string>, codec: Codec)
    requires WellFormed(db) && PlainIds(db) && Sound(codec)
    requires |ids| == |tuples| && FreshIds(db.events, ids)
    requires Distinct(tuples) && AllOpen(db, tuples, codec)
    ensures TasksDiffer(tuples)
    ensures RecoverTx(db, tuples, now, ids, codec).Ok?
       <==> AllClosable(db, tuples, now, codec) && OtherAcknowledged(db, tuples) == {}
    ensures AllClosable(db, tuples, now, codec) && OtherAcknowledged(db, tuples) != {}
        ==> RecoverTx(db, tuples, now, ids, codec) == Err(FencedError)
    ensures RecoverTx(db, tuples, now, ids, codec).Ok? ==> Committed(db, tuples, codec, RecoverTx(db, tuples, now, ids, codec).value)
  {
    hide Open, Closable, Ended, Untouched, Closed, ReadPlanner, RemoveTargets, Awaiting, Unfinished, Unacknowledged, WellFormed, PlainIds;
    OpenTasksDiffer(db, tuples, codec);
    AllOpenValidates(db, tuples, codec);
    CloseAllExactly(db, tuples, now, ids, codec);
    OpenIsRemovable(db, tuples, codec);
    RemoveTargetsExactly(ReadPlanner(db), tuples);
    if AllClosable(db, tuples, now, codec) {
      var after := CloseAll(db, tuples, now, ids, codec).value;
      FinalCheckExactly(db, after, tuples, now, codec);
      OtherAcknowledgedAwait(db, tuples, codec);
      assert OtherAcknowledged(db, tuples) * Awaiting(db) == OtherAcknowledged(db, tuples);
      OpenMatches(db, tuples, codec);
      PlannerAfter(db, after, tuples, now);
    }
  }

  /** The effect of a committed batch. */
  ghost predicate Committed(db: Store, tuples: seq<Tuple>, codec: Codec, r: Recovered) {
    && r.count == |tuples| && r.planner == ReadPlanner(r.db)
    && Unfinished(r.db) == Unfinished(db) - TaskSet(tuples)
    && Unacknowledged(r.db) == Unacknowledged(db) - DeliverySet(tuples)
    && Awaiting(r.db) == Awaiting(db)
    && AllClosed(r.db, tuples, codec)
    && Untouched(db, r.db, TaskSet(tuples))
  }

  lemma ClosedIsAligned(db: Store, t: Tuple, codec: Codec)
    requires Closed(db, t, codec)
    ensures Aligned(db, t.task)
  {
  }

  lemma UntouchedIsAligned(before: Store, after: Store, tasks: set<string>, task: string)
    requires Untouched(before, after, tasks) && task !in tasks && Aligned(before, task)
    ensures Aligned(after, task)
  {
    hide SameDeliveries, SameLeases, LatestSeq;
    assert SameLog(before.events, after.events, task) && SameRow(before.tasks, after.tasks, task);
    LogIsLocal(before.events, after.events, task);
  }

  /** A committed batch keeps the law that the latest event is one past the task version. */
  lemma CommitKeepsAlignment(db: Store, tuples: seq<Tuple>, codec: Codec, r: Recovered, task: string)
    requires Committed(db, tuples, codec, r) && Aligned(db, task)
    ensures Aligned(r.db, task)
  {
    hide Closed, Untouched, Aligned, Unfinished, Unacknowledged, Awaiting, ReadPlanner;
    if task in TaskSet(tuples) {
      TaskSetMembers(tuples, task);
      var i :| 0 <= i < |tuples| && tuples[i].task == task;
      assert Closed(r.db, tuples[i], codec);
      ClosedIsAligned(r.db, tuples[i], codec);
    } else {
      UntouchedIsAligned(db, r.db, TaskSet(tuples), task);
    }
  }

  /** After any recovery that returns `Ok`, running it again at any time changes nothing and closes nothing. */
  lemma RecoveryIsIdempotent(db: Store, tuples: seq<Tuple>, now: string, ids: seq<string>,
                             now': string, ids': seq<string>, codec: Codec)
    requires WellFormed(db) && PlainIds(db) && Sound(codec) && Distinct(tuples) && tuples != []
    requires |ids| == |tuples| == |ids'| && FreshIds(db.events, ids)
    requires RecoverTx(db, tuples, now, ids, codec).Ok?
    ensures var r := RecoverTx(db, tuples, now, ids, codec).value;
      RecoverTx(r.db, tuples, now', ids', codec) == Ok(Recovered(0, ReadPlanner(r.db), r.db))
  {
    hide Open, Closable, Untouched, Closed, ReadPlanner, RemoveTargets, CloseAll;
    PendingIsAll(db, tuples, codec);
    var pending := ValidateAll(db, tuples, codec).value;
    if |pending| == |tuples| {
      CommitExactly(db, tuples, now, ids, codec);
      AllClosedValidates(RecoverTx(db, tuples, now, ids, codec).value.db, tuples, codec);
    }
  }

  // ------------------------------------------------------- the exception

  /** One task whose first delivery "c" was acknowledged and whose second, "d", is open. */
  function ContestedStore(): Store {
    Store(
      map[],
      map["t" := Task("t", None, "a", "b", "v", None, "x", 1, 0, 0, None, 0)],
      map[EventKey("t", 1) := Event("e", Dispatched, "1", "p")],
      map["c" := Delivery("t", 1, "b", "1", Some("1")), "d" := Delivery("t", 2, "b", "1", None)],
      map["t" := Admission(AdmissionDispatching, 0, None, None, None, None, None, None, None, "1", "1")],
      [],
      map["d" := Disposition("t", 2, DispositionPrepared, None, None, None, None, None)],
      map["r" := Lease("t", "o", 1, LeaseRecovery, "1", "1", "1")],
      map[], map[], map[], map[], [])
  }

  const CONTESTED: Tuple := Tuple("d", "t", 2)

  /** Library calls that read the store above as intended. */
  ghost predicate Reads(codec: Codec) {
    && Sound(codec) && codec.decode("p") == DispatchedTo("d", 2) && codec.canonicalTask("t") == Some("t") && codec.parseTime("2").Some?
  }

  lemma ContestedIsOpen(codec: Codec)
    requires Reads(codec)
    ensures Open(ContestedStore(), CONTESTED, codec) && Closable(ContestedStore(), CONTESTED, "2", codec)
  {
    var db := ContestedStore();
    LatestIs(db.events, "t", 1);
    assert LeasesOf(db, "t") == {"r"};
    assert TextAtMost("1", "2") by { assert !TextLess("2", "1"); }
  }

  lemma ContestedIsWellFormed()
    ensures WellFormed(ContestedStore())
  {
  }

  lemma ContestedIsPlain()
    ensures PlainIds(ContestedStore()) && FreshIds(ContestedStore().events, ["x"])
  {
    assert "x"[0] != "e"[0];
  }

  lemma ContestedHasAnother()
    ensures "c" in OtherAcknowledged(ContestedStore(), [CONTESTED])
  {
    assert "c"[0] != "d"[0];
    assert ContestedStore().deliveries["c"] == Delivery("t", 1, "b", "1", Some("1"));
    assert [CONTESTED][0].task in TaskSet([CONTESTED]);
  }

  /** An open, closable tuple whose recovery is nevertheless fenced: its task has another acknowledged delivery. */
  lemma CommitCanFail(codec: Codec)
    requires Reads(codec)
    ensures var db := ContestedStore();
      && AllOpen(db, [CONTESTED], codec) && AllClosable(db, [CONTESTED], "2", codec) && OtherAcknowledged(db, [CONTESTED]) != {}
      && RecoverTx(db, [CONTESTED], "2", ["x"], codec) == Err(FencedError)
  {
    hide Open, Closable, WellFormed, PlainIds, FreshIds, RecoverTx, ContestedStore, OtherAcknowledged;
    ContestedIsOpen(codec);
    ContestedIsWellFormed();
    ContestedIsPlain();
    ContestedHasAnother();
    CommitExactly(ContestedStore(), [CONTESTED], "2", ["x"], codec);
  }
}
