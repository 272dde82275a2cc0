/** Cleanup claims are fenced: over whole runs, a live owner's claim is its own, and an outdated revision is useless unless the id was born again. */
module GatewayCleanup {
  import opened Prelude
  import opened Tables
  import opened Gateway
  import GA = GatewayAdmission

  /** An admission, swap or reservation; a cleanup operation; or anything else the program does to the database. */
  datatype Step =
    | GatewayStep(step: GA.Step)
    | ClaimStep(owner: string, clock: Clock, chosen: set<string>)
    | DeleteStep(id: string, owner: string, revision: int, clock: Clock)
    | OtherStep(g: State)

  predicate SameClaim(e: Envelope, f: Envelope) {
    e.cleanupOwner == f.cleanupOwner && e.cleanupRevision == f.cleanupRevision && e.claimedAt == f.claimedAt
  }

  /** Nothing else inserts or deletes envelopes or writes their cleanup columns, and the event log is append-only. */
  predicate Allowed(g: State, h: State) {
    && g.envelopes.Keys == h.envelopes.Keys
    && (forall id :: id in g.envelopes ==> SameClaim(g.envelopes[id], h.envelopes[id]))
    && (forall k :: k in g.db.events ==> k in h.db.events && h.db.events[k] == g.db.events[k])
  }

  function Apply(g: State, step: Step): State {
    match step
    case GatewayStep(s) => GA.Apply(g, s)
    case ClaimStep(owner, clock, chosen) => ClaimRows(g, owner, clock, chosen)
    case DeleteStep(id, owner, revision, clock) => Delete(g, id, owner, revision, clock).1
    case OtherStep(h) => if Allowed(g, h) then h else g
  }

  function Play(g: State, steps: seq<Step>): State
    decreases steps
  {
    if steps == [] then g else Play(Apply(g, steps[0]), steps[1..])
  }

  predicate RecordedStopped(db: Store, owner: string) {
    owner in db.runtimes && db.runtimes[owner].state == OwnerStopped
  }

  predicate ActsFor(step: Step, owner: string) {
    (step.ClaimStep? || step.DeleteStep?) && step.owner == owner
  }

  predicate Takes(g: State, step: Step, id: string) {
    step.ClaimStep? && id in step.chosen && id in Claimable(g, step.owner, step.clock)
  }

  /** The gateway's own steps keep every envelope and every event; a new envelope starts unclaimed. */
  lemma GatewayStepAdds(g: State, s: GA.Step)
    ensures var h := GA.Apply(g, s);
      && (forall id :: id in g.envelopes ==> id in h.envelopes && h.envelopes[id] == g.envelopes[id])
      && (forall id :: id in h.envelopes && id !in g.envelopes ==>
            && h.envelopes[id].cleanupOwner.None? && h.envelopes[id].cleanupRevision == 0
            && ((s.AdmitStep? && s.m.id == id && FreshEvent(g.db.events, id)) || (s.ReserveStep? && s.m.id == id)))
      && (forall k :: k in g.db.events ==> k in h.db.events && h.db.events[k] == g.db.events[k])
  {
    hide Retained, SiblingsComplete;
  }

  /** Each claim raises the revision by one, and nothing else changes a claim. */
  lemma RevisionsGrow(g: State, step: Step, id: string)
    requires id in g.envelopes && id in Apply(g, step).envelopes
    ensures var before, after := g.envelopes[id], Apply(g, step).envelopes[id];
      && (Takes(g, step, id) ==> after.cleanupRevision == before.cleanupRevision + 1 && after.cleanupOwner == Some(step.owner))
      && (!Takes(g, step, id) ==> SameClaim(before, after))
  {
    hide GA.Apply;
    if step.GatewayStep? { GatewayStepAdds(g, step.step); }
  }

  /** An envelope goes only by a delete that names its current owner and revision, after its task has ended. */
  lemma OnlySettledAreDeleted(g: State, step: Step, id: string)
    requires id in g.envelopes && id !in Apply(g, step).envelopes
    ensures step.DeleteStep? && step.id == id
    ensures g.envelopes[id].cleanupOwner == Some(step.owner) && g.envelopes[id].cleanupRevision == step.revision && Settled(g, id, step.clock)
    ensures forall k :: k in Apply(g, step).deliveries ==> k.envelope != id
  {
    hide GA.Apply;
    if step.GatewayStep? { GatewayStepAdds(g, step.step); }
  }

  /** Long over, its deliveries settled and its task ended: everything a delete asks except the claim. */
  predicate Settled(g: State, id: string, clock: Clock)
    requires id in g.envelopes
  {
    && Over(g.envelopes[id], clock) && DeliveriesSettled(g, id)
    && (g.envelopes[id].task.Some? ==> Finished(g.db.events, g.envelopes[id].task.value))
  }

  /** While an owner is not recorded as stopped, a step by anyone else leaves its claim alone. */
  lemma LiveClaimStands(g: State, step: Step, id: string, owner: string)
    requires id in g.envelopes && g.envelopes[id].cleanupOwner == Some(owner)
    requires !RecordedStopped(g.db, owner) && !ActsFor(step, owner)
    ensures id in Apply(g, step).envelopes && SameClaim(g.envelopes[id], Apply(g, step).envelopes[id])
  {
    hide GA.Apply;
    if step.GatewayStep? { GatewayStepAdds(g, step.step); }
  }

  /** The owner is not recorded as stopped at any point of the run. */
  predicate NeverStopped(g: State, steps: seq<Step>, owner: string)
    decreases steps
  {
    !RecordedStopped(g.db, owner) && (steps == [] || NeverStopped(Apply(g, steps[0]), steps[1..], owner))
  }

  /**
   * Over whole runs: an envelope claimed by an owner that is never recorded as stopped is neither re-claimed
   * nor deleted by any number of steps of others.
   */
  lemma {:induction false} LiveClaimStandsThroughout(g: State, steps: seq<Step>, id: string, owner: string)
    requires id in g.envelopes && g.envelopes[id].cleanupOwner == Some(owner)
    requires NeverStopped(g, steps, owner) && forall i :: 0 <= i < |steps| ==> !ActsFor(steps[i], owner)
    ensures id in Play(g, steps).envelopes && SameClaim(g.envelopes[id], Play(g, steps).envelopes[id])
    decreases steps
  {
    hide Apply;
    if steps != [] {
      LiveClaimStands(g, steps[0], id, owner);
      LiveClaimStandsThroughout(Apply(g, steps[0]), steps[1..], id, owner);
    }
  }

  // ------------------------------------------------------ outdated revisions

  /** What happened to an id since a given point: was it inserted anew, and how often and by whom was it claimed since. */
  datatype Lineage = Lineage(reborn: bool, claims: nat, owner: Option<string>)

  function TrackStep(g: State, step: Step, id: string, l: Lineage): Lineage {
    if id !in g.envelopes && id in Apply(g, step).envelopes then Lineage(true, 0, None)
    else if Takes(g, step, id) then Lineage(l.reborn, l.claims + 1, Some(step.owner))
    else l
  }

  function Track(g: State, steps: seq<Step>, id: string, l: Lineage): Lineage
    decreases steps
  {
    if steps == [] then l else Track(Apply(g, steps[0]), steps[1..], id, TrackStep(g, steps[0], id, l))
  }

  function LineageOf(g: State, steps: seq<Step>, id: string): Lineage {
    Track(g, steps, id, Lineage(false, 0, None))
  }

  /** The revision is past `revision`, or the row is gone. */
  ghost predicate Beyond(g: State, id: string, revision: int) {
    id in g.envelopes ==> g.envelopes[id].cleanupRevision > revision
  }

  ghost predicate Follows(g: State, id: string, l: Lineage, revision: int) {
    if l.reborn then id in g.envelopes ==> g.envelopes[id].cleanupRevision == l.claims && g.envelopes[id].cleanupOwner == l.owner
    else Beyond(g, id, revision)
  }

  lemma BirthsAreUnclaimed(g: State, step: Step, id: string)
    requires id !in g.envelopes && id in Apply(g, step).envelopes
    ensures step.GatewayStep? && Apply(g, step).envelopes[id].cleanupRevision == 0 && Apply(g, step).envelopes[id].cleanupOwner.None?
  {
    hide GA.Apply;
    if step.GatewayStep? { GatewayStepAdds(g, step.step); }
  }

  lemma StepFollows(g: State, step: Step, id: string, l: Lineage, revision: int)
    requires Follows(g, id, l, revision)
    ensures Follows(Apply(g, step), id, TrackStep(g, step, id, l), revision)
  {
    hide Apply, Takes;
    if id in Apply(g, step).envelopes {
      if id in g.envelopes {
        RevisionsGrow(g, step, id);
      } else {
        BirthsAreUnclaimed(g, step, id);
      }
    }
  }

  lemma {:induction false} RunFollows(g: State, steps: seq<Step>, id: string, l: Lineage, revision: int)
    requires Follows(g, id, l, revision)
    ensures Follows(Play(g, steps), id, Track(g, steps, id, l), revision)
    decreases steps
  {
    hide Apply, TrackStep, Follows;
    if steps != [] {
      StepFollows(g, steps[0], id, l, revision);
      RunFollows(Apply(g, steps[0]), steps[1..], id, TrackStep(g, steps[0], id, l), revision);
    }
  }

  /**
   * Once the revision has moved past it, a delete with the old revision succeeds later if and only if the row was
   * deleted and the id inserted anew, the new row has been claimed exactly that many times, last by this owner, and
   * it is settled.
   */
  lemma OutdatedDeleteExactly(g: State, steps: seq<Step>, id: string, owner: string, revision: int, clock: Clock)
    requires Beyond(g, id, revision)
    ensures var t, l := Play(g, steps), LineageOf(g, steps, id);
      Delete(t, id, owner, revision, clock).0 <==>
        id in t.envelopes && l.reborn && l.claims == revision && l.owner == Some(owner) && Settled(t, id, clock)
  {
    hide Play, Track;
    RunFollows(g, steps, id, Lineage(false, 0, None), revision);
  }

  // ---------------------------------------------------------- inbound ids

  /** An event keeps the id: the queued event of an inbound envelope does. */
  ghost predicate Remembered(g: State, id: string) {
    exists k :: k in g.db.events && g.db.events[k].id == id
  }

  lemma InboundIsRemembered(g: State, id: string)
    requires GA.Complete(g) && GA.IsInbound(g, id)
    ensures Remembered(g, id)
  {
    assert GA.SiblingSet(g, id);
  }

  lemma StepRemembers(g: State, step: Step, id: string)
    requires Remembered(g, id)
    ensures Remembered(Apply(g, step), id)
    ensures id !in g.envelopes && !(step.GatewayStep? && step.step.ReserveStep? && step.step.m.id == id) ==> id !in Apply(g, step).envelopes
  {
    hide GA.Apply;
    var k :| k in g.db.events && g.db.events[k].id == id;
    if step.GatewayStep? { GatewayStepAdds(g, step.step); }
    assert k in Apply(g, step).db.events && Apply(g, step).db.events[k].id == id;
  }

  /** No reservation of the run presents this id as its own envelope id. */
  predicate ReservesOthers(steps: seq<Step>, id: string) {
    forall i :: 0 <= i < |steps| && steps[i].GatewayStep? && steps[i].step.ReserveStep? ==> steps[i].step.m.id != id
  }

  lemma {:induction false} RememberedIsNotReborn(g: State, steps: seq<Step>, id: string, l: Lineage)
    requires Remembered(g, id) && ReservesOthers(steps, id) && !l.reborn
    ensures !Track(g, steps, id, l).reborn && Remembered(Play(g, steps), id)
    decreases steps
  {
    hide Apply, Remembered, Takes;
    if steps != [] {
      StepRemembers(g, steps[0], id);
      RememberedIsNotReborn(Apply(g, steps[0]), steps[1..], id, TrackStep(g, steps[0], id, l));
    }
  }

  /** For an inbound envelope an outdated delete never succeeds, over every run whose reservations are of other ids. */
  lemma InboundOutdatedDeleteFails(g: State, steps: seq<Step>, id: string, owner: string, revision: int, clock: Clock)
    requires GA.Complete(g) && GA.IsInbound(g, id) && Beyond(g, id, revision) && ReservesOthers(steps, id)
    ensures Delete(Play(g, steps), id, owner, revision, clock) == (false, Play(g, steps))
  {
    hide Play, Track, GA.Complete, GA.IsInbound, Remembered;
    InboundIsRemembered(g, id);
    RememberedIsNotReborn(g, steps, id, Lineage(false, 0, None));
    OutdatedDeleteExactly(g, steps, id, owner, revision, clock);
  }

  lemma {:induction false} RunRemembers(g: State, steps: seq<Step>, id: string)
    requires Remembered(g, id)
    ensures Remembered(Play(g, steps), id)
    decreases steps
  {
    hide Apply, Remembered;
    if steps != [] {
      StepRemembers(g, steps[0], id);
      RunRemembers(Apply(g, steps[0]), steps[1..], id);
    }
  }

  /** One insertion per envelope id, for ever: once admitted, even after cleanup, no message with that id is inserted again. */
  lemma NeverInsertedTwice(g: State, m: Message, a: Arrival, steps: seq<Step>, n: Message, b: Arrival)
    requires Admit(g, m, a).Ok? && Admit(g, m, a).value.0.Inserted? && n.id == m.id
    ensures var later := Play(Admit(g, m, a).value.1, steps);
      !(Admit(later, n, b).Ok? && Admit(later, n, b).value.0.Inserted?)
  {
    hide Retained, SiblingsComplete, Play;
    var after := Admit(g, m, a).value.1;
    assert after.db.events[EventKey(m.correlation, 1)].id == m.id;
    RunRemembers(after, steps, m.id);
  }

  // -------------------------------------------------------- a reborn id

  /** A claim that succeeds outdates every earlier revision of the rows it took. */
  lemma ClaimOutdates(g: State, owner: string, clock: Clock, chosen: set<string>, id: string, revision: int)
    requires id in chosen * Claimable(g, owner, clock) && revision <= g.envelopes[id].cleanupRevision
    ensures Beyond(ClaimRows(g, owner, clock, chosen), id, revision)
  {
  }

  function SampleMessage(): Message {
    Message("e", "p", "p", "k", "a", "b", "c", "", seq(64, _ => '0'), None, "{}", 2)
  }

  function SampleEnvelope(state: EnvelopeState, owner: Option<string>, revision: nat, at: Option<string>): Envelope {
    Envelope(IdempotencyKey("p", "p", Outbound, "k"), "c", None, "{}", SampleMessage().payloadHash, state, 2, owner, revision, at, at)
  }

  const SAMPLE_CLOCK: Clock := Clock("", "", "")

  /** Owner A holds the outbound envelope "e" at revision 2. */
  function ClaimedTwice(db: Store): State {
    State(db, map["e" := SampleEnvelope(TerminalState, Some("A"), 2, Some(""))], map[])
  }

  /** The same id after it was deleted, reserved again and settled. */
  function SettledAgain(db: Store): State {
    State(db, map["e" := SampleEnvelope(TerminalState, None, 0, None).(terminalAt := Some(""))],
          map[DeliveryKey("e", Outbound) := GatewayDelivery(RecoveryNeeded, 2, Some("t"), None, "room", None, Some("r"), 4)])
  }

  /** Deleted, reserved again, settled, claimed once. */
  function RebirthRun(db: Store): seq<Step> {
    [DeleteStep("e", "A", 2, SAMPLE_CLOCK), GatewayStep(GA.ReserveStep(SampleMessage(), "room", None, "t", "r")),
     OtherStep(SettledAgain(db)), ClaimStep("A", SAMPLE_CLOCK, {"e"})]
  }

  /** So a delete with an outdated revision can succeed: revision 1 was past when the run began, and is current again at its end. */
  lemma OutdatedDeleteCanSucceed(db: Store)
    ensures var g := ClaimedTwice(db);
      Beyond(g, "e", 1) && Delete(Play(g, RebirthRun(db)), "e", "A", 1, SAMPLE_CLOCK).0
  {
    var g, run := ClaimedTwice(db), RebirthRun(db);
    var g1 := State(db, map[], map[]);
    assert Apply(g, run[0]) == g1 by {
      assert g.envelopes - {"e"} == map[];
    }
    var row := GatewayDelivery(Pending, 0, Some("t"), None, "room", None, Some("r"), 0);
    var g2 := State(db, map["e" := SampleEnvelope(Received, None, 0, None)], map[DeliveryKey("e", Outbound) := row]);
    assert Apply(g1, run[1]) == g2 by {
      assert WithKey(g1.envelopes, IdempotencyKey("p", "p", Outbound, "k")) == {};
    }
    var g3 := SettledAgain(db);
    assert Apply(g2, run[2]) == g3;
    var g4 := Apply(g3, run[3]);
    assert g4.envelopes["e"].cleanupRevision == 1 && g4.envelopes["e"].cleanupOwner == Some("A") && g4.deliveries == g3.deliveries;
    PlayFour(g, run);
    assert Play(g, run) == g4;
  }

  lemma PlayStep(g: State, s: seq<Step>)
    requires s != []
    ensures Play(g, s) == Play(Apply(g, s[0]), s[1..])
  {
    hide Apply;
  }

  lemma PlayFour(g: State, s: seq<Step>)
    requires |s| == 4
    ensures Play(g, s) == Apply(Apply(Apply(Apply(g, s[0]), s[1]), s[2]), s[3])
  {
    hide Apply;
    var g1 := Apply(g, s[0]);
    var g2 := Apply(g1, s[1]);
    var g3 := Apply(g2, s[2]);
    assert s[1..][1..] == s[2..] && s[2..][1..] == s[3..] && s[3..][1..] == [];
    PlayStep(g, s);
    PlayStep(g1, s[1..]);
    PlayStep(g2, s[2..]);
    PlayStep(g3, s[3..]);
  }
}
