/** The acceptance sender: any number of concurrent calls for one inbound envelope, with crashes and send failures. */
module GatewaySender {
  import opened Prelude
  import opened Gateway

  /** The acceptance of one inbound envelope: every call derives the same message and transaction id. */
  datatype Acceptance = Acceptance(out: Message, txn: string)

  /** Where a call stands between two store operations. `revision` in `Begun` and `Sent` is the attempt revision. */
  datatype Pc =
    | Entering
    | Reserved
    | Saw(phase: Phase, attempt: int, revision: nat)
    | Begun(attempt: int, revision: nat)
    | Sent(attempt: int, revision: nat, eventId: Option<string>)
    | Returned(ok: bool)

  datatype Caller = Caller(owner: string, room: string, threadRoot: Option<string>, pc: Pc)

  /**
   * The store, the calls in progress, the transaction ids sent since the row was reserved, the attempts whose call
   * died before sending, and the sends of earlier rows that cleanup has since deleted.
   */
  datatype System = System(g: State, callers: map<nat, Caller>, sends: seq<string>, lost: nat, archive: seq<seq<string>>)

  datatype Action =
    | Call(id: nat, owner: string, room: string, threadRoot: Option<string>)
    | Advance(id: nat, eventId: Option<string>)
    | Crash(id: nat)
    | Collect
    | Elsewhere(g: State)

  function At(x: Acceptance): DeliveryKey {
    DeliveryKey(x.out.id, Outbound)
  }

  function RowOf(x: Acceptance, g: State): Option<GatewayDelivery> {
    if At(x) in g.deliveries then Some(g.deliveries[At(x)]) else None
  }

  function WithRow(x: Acceptance, g: State, row: GatewayDelivery): State {
    g.(deliveries := g.deliveries[At(x) := row])
  }

  function Move(s: System, id: nat, pc: Pc): System
    requires id in s.callers
  {
    s.(callers := s.callers[id := s.callers[id].(pc := pc)])
  }

  /** What a call does after reading the row. */
  function AfterRead(row: GatewayDelivery): Pc {
    if row.phase in {TransportAcked, TaskAccepted, PhaseTerminal, RecoveryNeeded} then Returned(true)
    else if row.phase == Pending && row.attempt == 0 then Saw(Pending, row.attempt, row.ownerRevision)
    else if row.phase == SendUnknown && row.attempt == 1 then Saw(SendUnknown, row.attempt, row.ownerRevision)
    else Returned(false)
  }

  function OutcomePhase(attempt: int, eventId: Option<string>): Phase {
    if eventId.Some? then TransportAcked else if attempt == 0 then SendUnknown else RecoveryNeeded
  }

  /** The next atomic operation of one call of `send_acceptance`; `eventId` is the answer if it is the send. */
  function AdvanceCaller(x: Acceptance, s: System, id: nat, eventId: Option<string>): System
    requires id in s.callers
  {
    var c := s.callers[id];
    var row := RowOf(x, s.g);
    match c.pc
    case Entering =>
      (match Reserve(s.g, x.out, c.room, c.threadRoot, x.txn, c.owner)
       case Ok(r) => Move(s.(g := r.1), id, Reserved)
       case Err(_) => Move(s, id, Returned(false)))
    case Reserved =>
      Move(s, id, if row.Some? && row.value.owner == Some(c.owner) then AfterRead(row.value) else Returned(false))
    case Saw(phase, attempt, revision) =>
      var next := if row.Some? then BeginAttempt(row.value, c.owner, revision, phase) else None;
      if next.Some? then Move(s.(g := WithRow(x, s.g, next.value)), id, Begun(attempt, revision + 1)) else Move(s, id, Returned(false))
    case Begun(attempt, revision) =>
      Move(s.(sends := s.sends + [x.txn]), id, Sent(attempt, revision, eventId))
    case Sent(attempt, revision, answer) =>
      var phase := OutcomePhase(attempt, answer);
      var next := if row.Some? then FinishAttempt(row.value, c.owner, revision, phase, answer) else Ok(None);
      if next.Err? then Move(s, id, Returned(false)) else
      var g := if next.value.Some? then WithRow(x, s.g, next.value.value) else s.g;
      Move(s.(g := g), id, if phase == SendUnknown then Entering else Returned(true))
    case Returned(_) => s
  }

  function Next(x: Acceptance, s: System, action: Action): System {
    match action
    case Call(id, owner, room, root) =>
      if id in s.callers then s else s.(callers := s.callers[id := Caller(owner, room, root, Entering)])
    case Advance(id, eventId) => if id in s.callers then AdvanceCaller(x, s, id, eventId) else s
    case Crash(id) =>
      if id !in s.callers then s
      else s.(callers := s.callers - {id}, lost := s.lost + if s.callers[id].pc.Begun? then 1 else 0)
    case Collect =>
      if RowOf(x, s.g).Some? && RowOf(x, s.g).value.phase in {PhaseTerminal, Stale, RecoveryNeeded}
      then s.(g := Without(s.g, x.out.id), sends := [], lost := 0, archive := s.archive + [s.sends])
      else s
    case Elsewhere(g) => if RowOf(x, g) == RowOf(x, s.g) then s.(g := g) else s
  }

  function RunActions(x: Acceptance, s: System, actions: seq<Action>): System
    decreases actions
  {
    if actions == [] then s else RunActions(x, Next(x, s, actions[0]), actions[1..])
  }

  predicate Initial(x: Acceptance, s: System) {
    RowOf(x, s.g) == None && s.callers == map[] && s.sends == [] && s.lost == 0 && s.archive == []
  }

  // -------------------------------------------------------------- invariant

  predicate InFlight(pc: Pc) {
    pc.Begun? || pc.Sent?
  }

  /** The revision tells how far the row has come. */
  predicate RowShape(x: Acceptance, row: GatewayDelivery) {
    && row.txn == Some(x.txn)
    && match row.ownerRevision {
         case 0 => row.phase == Pending && row.attempt == 0 && row.eventId.None?
         case 1 => row.phase == Pending && row.attempt == 1 && row.eventId.None?
         case 2 => row.attempt == 1 && ((row.phase == SendUnknown && row.eventId.None?) || (row.phase == TransportAcked && row.eventId.Some?))
         case 3 => row.phase == SendUnknown && row.attempt == 2 && row.eventId.None?
         case 4 => row.attempt == 2 && ((row.phase == RecoveryNeeded && row.eventId.None?) || (row.phase == TransportAcked && row.eventId.Some?))
         case _ => false
       }
  }

  predicate PcShape(row: Option<GatewayDelivery>, c: Caller) {
    match c.pc
    case Saw(phase, attempt, revision) =>
      (revision == 0 && phase == Pending && attempt == 0) || (revision == 2 && phase == SendUnknown && attempt == 1)
    case Begun(attempt, revision) => Holds(row, c.owner, attempt, revision)
    case Sent(attempt, revision, _) => Holds(row, c.owner, attempt, revision)
    case _ => true
  }

  /** A call in flight holds the current revision of an unfinished attempt. */
  predicate Holds(row: Option<GatewayDelivery>, owner: string, attempt: int, revision: nat) {
    && row.Some? && row.value.owner == Some(owner) && row.value.ownerRevision == revision && revision in {1, 3}
    && attempt == row.value.attempt - 1
  }

  ghost function Waiting(s: System): set<nat> {
    set i | i in s.callers && s.callers[i].pc.Begun?
  }

  ghost function Attempts(x: Acceptance, s: System): int {
    if RowOf(x, s.g).Some? then RowOf(x, s.g).value.attempt else 0
  }

  ghost predicate Inv(x: Acceptance, s: System) {
    && (RowOf(x, s.g).Some? ==> RowShape(x, RowOf(x, s.g).value))
    && (forall i :: i in s.callers ==> PcShape(RowOf(x, s.g), s.callers[i]))
    && OneInFlight(s)
    && |s.sends| + |Waiting(s)| + s.lost == Attempts(x, s)
    && AllTxn(x, s.sends)
    && (forall k :: 0 <= k < |s.archive| ==> |s.archive[k]| <= 2 && AllTxn(x, s.archive[k]))
  }

  predicate AllTxn(x: Acceptance, sends: seq<string>) {
    forall k :: 0 <= k < |sends| ==> sends[k] == x.txn
  }

  ghost predicate OneInFlight(s: System) {
    forall i, j :: i in s.callers && j in s.callers && InFlight(s.callers[i].pc) && InFlight(s.callers[j].pc) ==> i == j
  }

  /** Everything but the caller that is about to move is in order. */
  ghost predicate OthersFit(x: Acceptance, t: System, id: nat) {
    && (RowOf(x, t.g).Some? ==> RowShape(x, RowOf(x, t.g).value))
    && (forall i :: i in t.callers && i != id ==> PcShape(RowOf(x, t.g), t.callers[i]))
    && OneInFlight(t)
    && AllTxn(x, t.sends)
    && (forall k :: 0 <= k < |t.archive| ==> |t.archive[k]| <= 2 && AllTxn(x, t.archive[k]))
  }

  lemma MovedAlone(t: System, id: nat, pc: Pc)
    requires id in t.callers && OneInFlight(t)
    requires InFlight(pc) && !InFlight(t.callers[id].pc) ==> forall i :: i in t.callers ==> !InFlight(t.callers[i].pc)
    ensures OneInFlight(Move(t, id, pc))
  {
  }

  lemma CrashedAlone(s: System, id: nat)
    requires OneInFlight(s)
    ensures OneInFlight(s.(callers := s.callers - {id}))
  {
  }

  lemma SameCallers(s: System, t: System)
    requires OneInFlight(s) && s.callers == t.callers
    ensures OneInFlight(t)
  {
  }

  lemma Moved(x: Acceptance, t: System, id: nat, pc: Pc)
    requires id in t.callers && OthersFit(x, t, id)
    requires PcShape(RowOf(x, t.g), t.callers[id].(pc := pc))
    requires InFlight(pc) && !InFlight(t.callers[id].pc) ==> forall i :: i in t.callers ==> !InFlight(t.callers[i].pc)
    requires |t.sends| + |Waiting(t) - {id}| + (if pc.Begun? then 1 else 0) + t.lost == Attempts(x, t)
    ensures Inv(x, Move(t, id, pc))
  {
    hide RowShape, PcShape, OneInFlight, AllTxn;
    MovedAlone(t, id, pc);
    var u := Move(t, id, pc);
    assert Waiting(u) == if pc.Begun? then (Waiting(t) - {id}) + {id} else Waiting(t) - {id};
  }

  lemma NobodyFlies(x: Acceptance, s: System, row: GatewayDelivery)
    requires Inv(x, s) && RowOf(x, s.g) == Some(row) && row.ownerRevision !in {1, 3}
    ensures forall i :: i in s.callers ==> !InFlight(s.callers[i].pc)
    ensures Waiting(s) == {}
  {
  }

  lemma ReserveKeepsRow(x: Acceptance, g: State, c: Caller)
    requires Reserve(g, x.out, c.room, c.threadRoot, x.txn, c.owner).Ok?
    ensures var after := RowOf(x, Reserve(g, x.out, c.room, c.threadRoot, x.txn, c.owner).value.1);
      && (RowOf(x, g).Some? ==> after == RowOf(x, g))
      && (RowOf(x, g).None? && after.Some? ==> RowShape(x, after.value) && after.value.attempt == 0)
  {
  }

  lemma EnteringKeeps(x: Acceptance, s: System, id: nat, e: Option<string>)
    requires Inv(x, s) && id in s.callers && s.callers[id].pc.Entering?
    ensures Inv(x, AdvanceCaller(x, s, id, e))
  {
    hide Reserve, RowShape;
    var c := s.callers[id];
    var r := Reserve(s.g, x.out, c.room, c.threadRoot, x.txn, c.owner);
    assert Waiting(s) - {id} == Waiting(s);
    if r.Ok? {
      ReserveKeepsRow(x, s.g, c);
      var t := s.(g := r.value.1);
      assert Waiting(t) == Waiting(s);
      Moved(x, t, id, Reserved);
    } else {
      Moved(x, s, id, Returned(false));
    }
  }

  lemma ReadFits(x: Acceptance, row: GatewayDelivery, c: Caller)
    requires RowShape(x, row)
    ensures PcShape(Some(row), c.(pc := AfterRead(row))) && !InFlight(AfterRead(row))
  {
  }

  lemma ReservedKeeps(x: Acceptance, s: System, id: nat, e: Option<string>)
    requires Inv(x, s) && id in s.callers && s.callers[id].pc.Reserved?
    ensures Inv(x, AdvanceCaller(x, s, id, e))
  {
    hide RowShape, PcShape, AfterRead, OneInFlight;
    var c, row := s.callers[id], RowOf(x, s.g);
    var pc := if row.Some? && row.value.owner == Some(c.owner) then AfterRead(row.value) else Returned(false);
    assert Waiting(s) - {id} == Waiting(s);
    if row.Some? {
      ReadFits(x, row.value, c);
    }
    assert PcShape(row, c.(pc := Returned(false))) by { ReturnedFits(row, c); }
    Moved(x, s, id, pc);
  }

  lemma ReturnedFits(row: Option<GatewayDelivery>, c: Caller)
    ensures PcShape(row, c.(pc := Returned(false))) && PcShape(row, c.(pc := Entering))
  {
  }

  /** Only an idle row can be taken, and taking it is what the call believes it is. */
  lemma BeginFits(x: Acceptance, row: GatewayDelivery, c: Caller)
    requires RowShape(x, row) && c.pc.Saw? && PcShape(Some(row), c)
    requires BeginAttempt(row, c.owner, c.pc.revision, c.pc.phase).Some?
    ensures var next := BeginAttempt(row, c.owner, c.pc.revision, c.pc.phase).value;
      && row.ownerRevision !in {1, 3} && RowShape(x, next) && next.attempt == row.attempt + 1 && next.ownerRevision == row.ownerRevision + 1
      && PcShape(Some(next), c.(pc := Begun(c.pc.attempt, c.pc.revision + 1)))
  {
  }

  lemma IdleFits(before: Option<GatewayDelivery>, after: Option<GatewayDelivery>, c: Caller)
    requires PcShape(before, c) && !InFlight(c.pc)
    ensures PcShape(after, c)
  {
  }

  lemma SawKeeps(x: Acceptance, s: System, id: nat, e: Option<string>)
    requires Inv(x, s) && id in s.callers && s.callers[id].pc.Saw?
    ensures Inv(x, AdvanceCaller(x, s, id, e))
  {
    var c, row := s.callers[id], RowOf(x, s.g);
    hide RowShape, PcShape, BeginAttempt;
    var next := if row.Some? then BeginAttempt(row.value, c.owner, c.pc.revision, c.pc.phase) else None;
    assert Waiting(s) - {id} == Waiting(s);
    if next.Some? {
      BeginFits(x, row.value, c);
      NobodyFlies(x, s, row.value);
      var t := s.(g := WithRow(x, s.g, next.value));
      assert Waiting(t) == {};
      assert RowOf(x, t.g) == next;
      forall i | i in s.callers && i != id
        ensures PcShape(next, s.callers[i])
      {
        IdleFits(row, next, s.callers[i]);
      }
      Moved(x, t, id, Begun(c.pc.attempt, c.pc.revision + 1));
    } else {
      ReturnedFits(row, c);
      Moved(x, s, id, Returned(false));
    }
  }

  lemma BegunKeeps(x: Acceptance, s: System, id: nat, e: Option<string>)
    requires Inv(x, s) && id in s.callers && s.callers[id].pc.Begun?
    ensures Inv(x, AdvanceCaller(x, s, id, e))
  {
    var c := s.callers[id];
    assert PcShape(RowOf(x, s.g), c.(pc := Sent(c.pc.attempt, c.pc.revision, e)));
    hide RowShape, PcShape;
    var t := s.(sends := s.sends + [x.txn]);
    assert Waiting(t) == Waiting(s) && id in Waiting(s);
    Moved(x, t, id, Sent(c.pc.attempt, c.pc.revision, e));
  }

  /** The finishing update of a call in flight is never fenced and never breaks a CHECK. */
  lemma FinishSucceeds(x: Acceptance, s: System, id: nat)
    requires Inv(x, s) && id in s.callers && s.callers[id].pc.Sent?
    ensures var c := s.callers[id]; var row := RowOf(x, s.g);
      && row.Some?
      && var next := FinishAttempt(row.value, c.owner, c.pc.revision, OutcomePhase(c.pc.attempt, c.pc.eventId), c.pc.eventId);
         next.Ok? && next.value.Some? && RowShape(x, next.value.value) && next.value.value.attempt == row.value.attempt
         && next.value.value.ownerRevision == row.value.ownerRevision + 1
         && CanTransition(row.value.phase, next.value.value.phase)
  {
  }

  lemma SentKeeps(x: Acceptance, s: System, id: nat, e: Option<string>)
    requires Inv(x, s) && id in s.callers && s.callers[id].pc.Sent?
    ensures Inv(x, AdvanceCaller(x, s, id, e))
  {
  }

  lemma CrashKeeps(x: Acceptance, s: System, id: nat)
    requires Inv(x, s) && id in s.callers
    ensures Inv(x, Next(x, s, Crash(id)))
  {
    hide RowShape, PcShape, OneInFlight;
    CrashedAlone(s, id);
    var t := Next(x, s, Crash(id));
    assert OneInFlight(t) by { SameCallers(s.(callers := s.callers - {id}), t); }
    assert Waiting(t) == Waiting(s) - {id};
    assert id in Waiting(s) <==> s.callers[id].pc.Begun?;
  }

  lemma CallKeeps(x: Acceptance, s: System, id: nat, owner: string, room: string, root: Option<string>)
    requires Inv(x, s) && id !in s.callers
    ensures Inv(x, Next(x, s, Call(id, owner, room, root)))
  {
    hide RowShape;
    assert Waiting(Next(x, s, Call(id, owner, room, root))) == Waiting(s);
  }

  lemma StepKeepsInv(x: Acceptance, s: System, action: Action)
    requires Inv(x, s)
    ensures Inv(x, Next(x, s, action))
  {
    hide Inv, AdvanceCaller;
    match action
    case Call(id, owner, room, root) => if id !in s.callers { CallKeeps(x, s, id, owner, room, root); }
    case Advance(id, e) =>
      if id in s.callers {
        match s.callers[id].pc {
          case Entering => EnteringKeeps(x, s, id, e);
          case Reserved => ReservedKeeps(x, s, id, e);
          case Saw(_, _, _) => SawKeeps(x, s, id, e);
          case Begun(_, _) => BegunKeeps(x, s, id, e);
          case Sent(_, _, _) => SentKeeps(x, s, id, e);
          case Returned(_) => ReturnedStays(x, s, id, e);
        }
      }
    case Crash(id) => if id in s.callers { CrashKeeps(x, s, id); }
    case Collect =>
      if RowOf(x, s.g).Some? && RowOf(x, s.g).value.phase in {PhaseTerminal, Stale, RecoveryNeeded} {
        CollectKeeps(x, s);
      }
    case Elsewhere(g) => if RowOf(x, g) == RowOf(x, s.g) { ElsewhereKeeps(x, s, g); }
  }

  /** Cleanup can only take a row whose last attempt has been given up, so no call is in flight then. */
  lemma CollectKeeps(x: Acceptance, s: System)
    requires Inv(x, s) && RowOf(x, s.g).Some? && RowOf(x, s.g).value.phase in {PhaseTerminal, Stale, RecoveryNeeded}
    ensures Inv(x, Next(x, s, Collect))
  {
    var row := RowOf(x, s.g);
    assert RowShape(x, row.value);
    NobodyFlies(x, s, row.value);
    hide RowShape, PcShape, AllTxn;
    var t := Next(x, s, Collect);
    assert RowOf(x, t.g) == None;
    assert Waiting(t) == {};
    forall i | i in s.callers
      ensures PcShape(None, s.callers[i])
    {
      IdleFits(row, None, s.callers[i]);
    }
    NothingSent(x);
  }

  /** Cleanup of the acceptance in the store is the collecting step of the system. */
  lemma CollectIsDelete(x: Acceptance, s: System, owner: string, revision: int, clock: Clock)
    requires Delete(s.g, x.out.id, owner, revision, clock).0 && RowOf(x, s.g).Some?
    ensures var t := Next(x, s, Collect);
      t.g == Delete(s.g, x.out.id, owner, revision, clock).1 && t.archive == s.archive + [s.sends] && t.sends == [] && t.callers == s.callers
  {
    hide Over;
    assert At(x).envelope == x.out.id;
  }

  lemma NothingSent(x: Acceptance)
    ensures AllTxn(x, [])
  {
  }

  lemma ReturnedStays(x: Acceptance, s: System, id: nat, e: Option<string>)
    requires id in s.callers && s.callers[id].pc.Returned?
    ensures AdvanceCaller(x, s, id, e) == s
  {
  }

  lemma ElsewhereKeeps(x: Acceptance, s: System, g: State)
    requires Inv(x, s) && RowOf(x, g) == RowOf(x, s.g)
    ensures Inv(x, s.(g := g))
  {
  }

  lemma {:induction false} RunKeepsInv(x: Acceptance, s: System, actions: seq<Action>)
    requires Inv(x, s)
    ensures Inv(x, RunActions(x, s, actions))
    decreases actions
  {
    hide Inv, Next;
    if actions != [] {
      StepKeepsInv(x, s, actions[0]);
      RunKeepsInv(x, Next(x, s, actions[0]), actions[1..]);
    }
  }

  // --------------------------------------------------------------- theorems

  /**
   * For every interleaving of any number of calls, crashes, send failures and cleanup deletions: sends, calls about
   * to send and calls that died about to send add up to the stored attempt count, which never exceeds two; so at
   * most two sends happen between two deletions of the row, all with one transaction id, and at most one call is
   * in flight.
   */
  lemma SendsAreBounded(x: Acceptance, s: System, actions: seq<Action>)
    requires Initial(x, s)
    ensures var t := RunActions(x, s, actions);
      && |t.sends| + |Waiting(t)| + t.lost == Attempts(x, t) <= 2
      && |t.sends| <= 2 && AllTxn(x, t.sends)
      && (forall k :: 0 <= k < |t.archive| ==> |t.archive[k]| <= 2 && AllTxn(x, t.archive[k]))
      && OneInFlight(t)
  {
    assert Waiting(s) == {};
    assert Inv(x, s);
    RunKeepsInv(x, s, actions);
    AttemptsBounded(x, RunActions(x, s, actions));
  }

  lemma AttemptsBounded(x: Acceptance, s: System)
    requires Inv(x, s)
    ensures Attempts(x, s) <= 2
  {
  }

  /** One step changes the stored phase only as `can_transition` allows; only cleanup removes the row, once it has settled. */
  lemma PhaseChangesAreAllowed(x: Acceptance, s: System, action: Action)
    requires Inv(x, s) && RowOf(x, s.g).Some?
    ensures var before, after := RowOf(x, s.g).value, RowOf(x, Next(x, s, action).g);
      && (after.None? ==> action.Collect? && before.phase == RecoveryNeeded)
      && (after.Some? ==>
            && after.value.txn == before.txn
            && (after.value.phase == before.phase || CanTransition(before.phase, after.value.phase))
            && before.attempt <= after.value.attempt <= before.attempt + 1
            && before.ownerRevision <= after.value.ownerRevision <= before.ownerRevision + 1
            && (after.value != before <==> before.ownerRevision < after.value.ownerRevision))
  {
    assert RowShape(x, RowOf(x, s.g).value);
    if action.Advance? && action.id in s.callers {
      var c := s.callers[action.id];
      assert PcShape(RowOf(x, s.g), c);
      if c.pc.Sent? {
        FinishSucceeds(x, s, action.id);
      } else if c.pc.Entering? {
        if Reserve(s.g, x.out, c.room, c.threadRoot, x.txn, c.owner).Ok? {
          ReserveKeepsRow(x, s.g, c);
        }
      }
    }
  }

  lemma {:induction false} RunSplit(x: Acceptance, s: System, a: seq<Action>, b: seq<Action>)
    ensures RunActions(x, s, a + b) == RunActions(x, RunActions(x, s, a), b)
    decreases a
  {
    hide Next;
    if a == [] {
      assert a + b == b;
    } else {
      assert (a + b)[1..] == a[1..] + b;
      RunSplit(x, Next(x, s, a[0]), a[1..], b);
    }
  }

  lemma RunLast(x: Acceptance, s: System, a: seq<Action>, k: nat)
    requires k < |a|
    ensures RunActions(x, s, a[..k + 1]) == Next(x, RunActions(x, s, a[..k]), a[k])
  {
    hide Next;
    assert a[..k + 1] == a[..k] + [a[k]];
    RunSplit(x, s, a[..k], [a[k]]);
    var t := RunActions(x, s, a[..k]);
    assert RunActions(x, Next(x, t, a[k]), [a[k]][1..]) == Next(x, t, a[k]);
  }

  ghost predicate NobodyInFlight(s: System) {
    forall i :: i in s.callers ==> !InFlight(s.callers[i].pc)
  }

  /** An attempt whose call died stalls the acceptance: its row never changes again and nothing more is sent. */
  lemma {:induction false} StalledForGood(x: Acceptance, s: System, actions: seq<Action>)
    requires Inv(x, s) && NobodyInFlight(s) && RowOf(x, s.g).Some? && RowOf(x, s.g).value.ownerRevision in {1, 3}
    ensures var t := RunActions(x, s, actions);
      RowOf(x, t.g) == RowOf(x, s.g) && t.sends == s.sends && NobodyInFlight(t)
    decreases actions
  {
    hide Inv, Next;
    if actions != [] {
      StepKeepsInv(x, s, actions[0]);
      StalledStep(x, s, actions[0]);
      StalledForGood(x, Next(x, s, actions[0]), actions[1..]);
    }
  }

  lemma StalledStep(x: Acceptance, s: System, action: Action)
    requires Inv(x, s) && NobodyInFlight(s) && RowOf(x, s.g).Some? && RowOf(x, s.g).value.ownerRevision in {1, 3}
    ensures var t := Next(x, s, action); RowOf(x, t.g) == RowOf(x, s.g) && t.sends == s.sends && NobodyInFlight(t)
  {
    assert RowShape(x, RowOf(x, s.g).value);
    if action.Advance? && action.id in s.callers {
      var c := s.callers[action.id];
      assert PcShape(RowOf(x, s.g), c);
      if c.pc.Entering? && Reserve(s.g, x.out, c.room, c.threadRoot, x.txn, c.owner).Ok? {
        ReserveKeepsRow(x, s.g, c);
      }
    }
  }

  // ---------------------------------------------------- the imperative form

  /** A system with one call and nothing else. */
  ghost function Alone(g: State, c: Caller, pc: Pc, sends: seq<string>): System {
    System(g, map[0 := c.(pc := pc)], sends, 0, [])
  }

  /** Enough operations to take a call through one attempt; a call that has returned stays put. */
  ghost function OneAttempt(answer: Option<string>): seq<Action> {
    seq(5, _ => Advance(0, answer))
  }

  lemma AloneMoves(g: State, c: Caller, pc: Pc, pc': Pc, sends: seq<string>)
    ensures Move(Alone(g, c, pc, sends), 0, pc') == Alone(g, c, pc', sends)
  {
    assert (map[0 := c.(pc := pc)])[0 := c.(pc := pc')] == map[0 := c.(pc := pc')];
  }

  /** The state after `k` operations of an attempt that starts with `g` and `sends`. */
  ghost function AfterSteps(x: Acceptance, g: State, c: Caller, sends: seq<string>, answer: Option<string>, k: nat): System
    requires k <= 5
  {
    RunActions(x, Alone(g, c, Entering, sends), OneAttempt(answer)[..k])
  }

  lemma NextStep(x: Acceptance, g: State, c: Caller, sends: seq<string>, answer: Option<string>, k: nat)
    requires k < 5
    ensures AfterSteps(x, g, c, sends, answer, k + 1) == Next(x, AfterSteps(x, g, c, sends, answer, k), Advance(0, answer))
  {
    hide Next;
    RunLast(x, Alone(g, c, Entering, sends), OneAttempt(answer), k);
  }

  lemma {:induction false} ReturnedIsLast(x: Acceptance, g: State, c: Caller, sends: seq<string>, answer: Option<string>, k: nat, h: State, ok: bool)
    requires k <= 5 && AfterSteps(x, g, c, sends, answer, k) == Alone(h, c, Returned(ok), sends)
    ensures AfterSteps(x, g, c, sends, answer, 5) == Alone(h, c, Returned(ok), sends)
    decreases 5 - k
  {
    hide AfterSteps;
    if k < 5 {
      NextStep(x, g, c, sends, answer, k);
      ReturnedIsLast(x, g, c, sends, answer, k + 1, h, ok);
    }
  }

  // The steps of a call that is alone, one by one.

  lemma AloneEnters(x: Acceptance, g: State, c: Caller, sends: seq<string>, e: Option<string>)
    ensures var r := Reserve(g, x.out, c.room, c.threadRoot, x.txn, c.owner);
      Next(x, Alone(g, c, Entering, sends), Advance(0, e)) == if r.Ok? then Alone(r.value.1, c, Reserved, sends) else Alone(g, c, Returned(false), sends)
  {
    hide Reserve;
    var r := Reserve(g, x.out, c.room, c.threadRoot, x.txn, c.owner);
    AloneMoves(g, c, Entering, Returned(false), sends);
    if r.Ok? { AloneMoves(r.value.1, c, Entering, Reserved, sends); }
  }

  lemma AloneReads(x: Acceptance, g: State, c: Caller, sends: seq<string>, e: Option<string>)
    ensures var row := RowOf(x, g);
      var pc := if row.Some? && row.value.owner == Some(c.owner) then AfterRead(row.value) else Returned(false);
      Next(x, Alone(g, c, Reserved, sends), Advance(0, e)) == Alone(g, c, pc, sends)
  {
    var row := RowOf(x, g);
    AloneMoves(g, c, Reserved, if row.Some? && row.value.owner == Some(c.owner) then AfterRead(row.value) else Returned(false), sends);
  }

  lemma AloneBegins(x: Acceptance, g: State, c: Caller, sends: seq<string>, e: Option<string>, pc: Pc)
    requires pc.Saw? && RowOf(x, g).Some? && BeginAttempt(RowOf(x, g).value, c.owner, pc.revision, pc.phase).Some?
    ensures var h := WithRow(x, g, BeginAttempt(RowOf(x, g).value, c.owner, pc.revision, pc.phase).value);
      Next(x, Alone(g, c, pc, sends), Advance(0, e)) == Alone(h, c, Begun(pc.attempt, pc.revision + 1), sends)
  {
    hide BeginAttempt;
    var h := WithRow(x, g, BeginAttempt(RowOf(x, g).value, c.owner, pc.revision, pc.phase).value);
    AloneMoves(h, c, pc, Begun(pc.attempt, pc.revision + 1), sends);
  }

  lemma AloneSends(x: Acceptance, g: State, c: Caller, sends: seq<string>, e: Option<string>, attempt: int, revision: nat)
    ensures Next(x, Alone(g, c, Begun(attempt, revision), sends), Advance(0, e)) == Alone(g, c, Sent(attempt, revision, e), sends + [x.txn])
  {
    AloneMoves(g, c, Begun(attempt, revision), Sent(attempt, revision, e), sends + [x.txn]);
  }

  lemma AloneFinishes(x: Acceptance, g: State, c: Caller, sends: seq<string>, e: Option<string>, attempt: int, revision: nat, answer: Option<string>)
    requires RowOf(x, g).Some?
    ensures var phase := OutcomePhase(attempt, answer);
      var next := FinishAttempt(RowOf(x, g).value, c.owner, revision, phase, answer);
      var h := if next.Ok? && next.value.Some? then WithRow(x, g, next.value.value) else g;
      Next(x, Alone(g, c, Sent(attempt, revision, answer), sends), Advance(0, e))
        == Alone(h, c, if next.Ok? && phase == SendUnknown then Entering else Returned(next.Ok?), sends)
  {
    hide FinishAttempt;
    var phase := OutcomePhase(attempt, answer);
    var next := FinishAttempt(RowOf(x, g).value, c.owner, revision, phase, answer);
    var h := if next.Ok? && next.value.Some? then WithRow(x, g, next.value.value) else g;
    AloneMoves(h, c, Sent(attempt, revision, answer), if next.Ok? && phase == SendUnknown then Entering else Returned(next.Ok?), sends);
  }

  // ------------------------------------------------------- a lost attempt

  /** A small message with a well-formed payload hash. */
  function SampleAcceptance(): Acceptance {
    Acceptance(Message("o", "p", "p", "k", "a", "b", "c", "", seq(64, _ => '0'), None, "{}", 2), "gateway-o")
  }

  /** One call that reserves, reads and records its attempt, and then dies before it sends. */
  function ShortRun(): seq<Action> {
    [Call(0, "r", "room", None), Advance(0, None), Advance(0, None), Advance(0, None), Crash(0)]
  }

  lemma SampleReserves(g: State)
    requires RowOf(SampleAcceptance(), g) == None && g.envelopes == map[]
    ensures var x := SampleAcceptance(); var r := Reserve(g, x.out, "room", None, x.txn, "r");
      r.Ok? && RowOf(x, r.value.1) == Some(GatewayDelivery(Pending, 0, Some(x.txn), None, "room", None, Some("r"), 0))
  {
    assert WithKey(g.envelopes, IdempotencyKey("p", "p", Outbound, "k")) == {};
  }

  /** So sends may stay below the stored attempt count. */
  lemma SendsCanFallShort(s: System)
    requires Initial(SampleAcceptance(), s) && s.g.envelopes == map[]
    ensures var t := RunActions(SampleAcceptance(), s, ShortRun());
      Attempts(SampleAcceptance(), t) == 1 && t.sends == [] && t.lost == 1
  {
    var x, run := SampleAcceptance(), ShortRun();
    var c := Caller("r", "room", None, Entering);
    assert Next(x, s, run[0]) == Alone(s.g, c, Entering, []);
    SampleReserves(s.g);
    var g := Reserve(s.g, x.out, "room", None, x.txn, "r").value.1;
    var row := RowOf(x, g).value;
    AloneEnters(x, s.g, c, [], None);
    AloneReads(x, g, c, [], None);
    AloneBegins(x, g, c, [], None, Saw(Pending, 0, 0));
    var h := WithRow(x, g, BeginAttempt(row, "r", 0, Pending).value);
    var last := Next(x, Alone(h, c, Begun(0, 1), []), Crash(0));
    assert last.lost == 1 && last.sends == [] && last.g == h;
    hide Next, Alone, SampleAcceptance, Reserve;
    FiveSteps(x, s, run);
  }

  lemma FiveSteps(x: Acceptance, s: System, a: seq<Action>)
    requires |a| == 5
    ensures RunActions(x, s, a) == Next(x, Next(x, Next(x, Next(x, Next(x, s, a[0]), a[1]), a[2]), a[3]), a[4])
  {
    hide Next;
    assert a[..0] == [] && a[..5] == a;
    RunLast(x, s, a, 0);
    RunLast(x, s, a, 1);
    RunLast(x, s, a, 2);
    RunLast(x, s, a, 3);
    RunLast(x, s, a, 4);
  }

  // ----------------------------------------------------- exact progress

  /** The reservation finds neither the envelope id, nor its key, nor the delivery row, and fits the CHECKs. */
  ghost predicate Unreserved(x: Acceptance, g: State) {
    && x.out.id !in g.envelopes && DeliveryKey(x.out.id, Outbound) !in g.deliveries
    && (forall e :: e in g.envelopes ==> g.envelopes[e].idempotency != IdempotencyKey(x.out.peer, x.out.senderPeer, Outbound, x.out.key))
    && x.out.size <= 524288 && |x.out.payloadHash| == 64
  }

  /** The reservation is there, for the same envelope, transaction id, room and owner, and the row is `row`. */
  ghost predicate ReservedAs(x: Acceptance, g: State, c: Caller, row: GatewayDelivery) {
    && x.out.id in g.envelopes && g.envelopes[x.out.id].canonical == x.out.canonical
    && DeliveryKey(x.out.id, Outbound) in g.deliveries && g.deliveries[DeliveryKey(x.out.id, Outbound)] == row
    && row.txn == Some(x.txn) && row.room == c.room && row.owner == Some(c.owner)
  }

  ghost function NewRow(x: Acceptance, c: Caller): GatewayDelivery {
    GatewayDelivery(Pending, 0, Some(x.txn), None, c.room, c.threadRoot, Some(c.owner), 0)
  }

  lemma UnreservedIsReserved(x: Acceptance, g: State, c: Caller)
    requires Unreserved(x, g)
    ensures var r := Reserve(g, x.out, c.room, c.threadRoot, x.txn, c.owner);
      r.Ok? && r.value.0 && ReservedAs(x, r.value.1, c, NewRow(x, c))
  {
    assert WithKey(g.envelopes, IdempotencyKey(x.out.peer, x.out.senderPeer, Outbound, x.out.key)) == {};
  }

  lemma ReservedStays(x: Acceptance, g: State, c: Caller, row: GatewayDelivery)
    requires ReservedAs(x, g, c, row)
    ensures Reserve(g, x.out, c.room, c.threadRoot, x.txn, c.owner) == Ok((false, g))
  {
  }

  /** The row that a settled attempt leaves. */
  ghost function Attempted(row: GatewayDelivery, answer: Option<string>): GatewayDelivery {
    row.(
      phase := if answer != None then TransportAcked else if row.attempt == 0 then SendUnknown else RecoveryNeeded,
      attempt := row.attempt + 1, eventId := if answer != None then answer else row.eventId, ownerRevision := row.ownerRevision + 2)
  }

  /** A first attempt on a pending row, or a second one on a row whose first send failed. */
  ghost predicate Attemptable(row: GatewayDelivery) {
    ((row.phase == Pending && row.attempt == 0) || (row.phase == SendUnknown && row.attempt == 1)) && row.eventId == None
  }

  /**
   * In any system, a call whose reservation is there and whose row can be attempted gets from its entry to the point
   * of sending in three undisturbed steps, with the attempt stored; on any other row it returns after two.
   */
  lemma CallerProgress(x: Acceptance, s: System, id: nat, row: GatewayDelivery, e: Option<string>)
    requires id in s.callers && s.callers[id].pc == Entering && ReservedAs(x, s.g, s.callers[id], row)
    ensures var s1 := Next(x, s, Advance(id, e)); var s2 := Next(x, s1, Advance(id, e)); var s3 := Next(x, s2, Advance(id, e));
      && id in s3.callers
      && ((row.phase == Pending && row.attempt == 0) || (row.phase == SendUnknown && row.attempt == 1) ==>
            && s3.callers[id].pc == Begun(row.attempt, row.ownerRevision + 1)
            && RowOf(x, s3.g) == Some(row.(attempt := row.attempt + 1, ownerRevision := row.ownerRevision + 1)))
      && (!((row.phase == Pending && row.attempt == 0) || (row.phase == SendUnknown && row.attempt == 1)) ==>
            && s2.callers[id].pc == Returned(row.phase in {TransportAcked, TaskAccepted, PhaseTerminal, RecoveryNeeded})
            && s3 == s2 && s2.g == s.g)
  {
    ReservedStays(x, s.g, s.callers[id], row);
  }

  /**
   * One attempt of `send_acceptance` on the real store, with nobody interfering: the store operations and the send
   * are the five steps of the call in the system above. `again` is the recursive call after a first failure.
   */
  method SendOnce(store: GatewayStore, x: Acceptance, c: Caller, ghost before: seq<string>, answer: Option<string>)
    returns (sent: bool, again: bool, ok: bool)
    modifies store
    ensures AfterSteps(x, old(store.g), c, before, answer, 5)
         == Alone(store.g, c, if again then Entering else Returned(ok), if sent then before + [x.txn] else before)
    ensures again ==> sent && RowOf(x, store.g).Some? && RowOf(x, store.g).value.attempt == 1
    ensures RowOf(x, old(store.g)).Some? && RowOf(x, old(store.g)).value.attempt == 1 ==> !again
  {
    hide AfterSteps, Next, Reserve, Alone;
    ghost var g := store.g;
    StartsEntering(x, g, c, before, answer);
    NextStep(x, g, c, before, answer, 0);
    AloneEnters(x, g, c, before, answer);
    var reserved := store.ReserveOutbound(x.out, c.room, c.threadRoot, x.txn, c.owner);
    if reserved.Err? {
      ReturnedIsLast(x, g, c, before, answer, 1, g, false);
      return false, false, false;
    }
    assert RowOf(x, g).Some? ==> store.g == g;
    NextStep(x, g, c, before, answer, 1);
    AloneReads(x, store.g, c, before, answer);
    var row := store.OutboundState(x.out.id, c.owner);
    if row.None? {
      ReturnedIsLast(x, g, c, before, answer, 2, store.g, false);
      return false, false, false;
    }
    var phase, attempt, revision := row.value.phase, row.value.attempt, row.value.ownerRevision;
    if phase in {TransportAcked, TaskAccepted, PhaseTerminal, RecoveryNeeded} {
      ReturnedIsLast(x, g, c, before, answer, 2, store.g, true);
      return false, false, true;
    }
    if !(phase == Pending && attempt == 0) && !(phase == SendUnknown && attempt == 1) {
      ReturnedIsLast(x, g, c, before, answer, 2, store.g, false);
      return false, false, false;
    }
    NextStep(x, g, c, before, answer, 2);
    AloneBegins(x, store.g, c, before, answer, Saw(phase, attempt, revision));
    var begun := store.BeginOutboundAttempt(x.out.id, c.owner, revision, phase);
    assert begun;
    NextStep(x, g, c, before, answer, 3);
    AloneSends(x, store.g, c, before, answer, attempt, revision + 1);
    NextStep(x, g, c, before, answer, 4);
    AloneFinishes(x, store.g, c, before + [x.txn], answer, attempt, revision + 1, answer);
    var outcome := OutcomePhase(attempt, answer);
    var finished := store.FinishOutbound(x.out.id, c.owner, revision + 1, outcome, answer);
    return true, finished.Ok? && outcome == SendUnknown, finished.Ok?;
  }

  lemma StartsEntering(x: Acceptance, g: State, c: Caller, sends: seq<string>, answer: Option<string>)
    ensures AfterSteps(x, g, c, sends, answer, 0) == Alone(g, c, Entering, sends)
  {
    assert OneAttempt(answer)[..0] == [];
  }

  lemma WholeAttempt(x: Acceptance, g: State, c: Caller, sends: seq<string>, answer: Option<string>)
    ensures AfterSteps(x, g, c, sends, answer, 5) == RunActions(x, Alone(g, c, Entering, sends), OneAttempt(answer))
  {
    assert OneAttempt(answer)[..5] == OneAttempt(answer);
  }

  /** From a row that can be attempted, one undisturbed attempt sends and leaves exactly the attempted row. */
  lemma AttemptFrom(x: Acceptance, g: State, c: Caller, sends: seq<string>, answer: Option<string>, h: State, row: GatewayDelivery)
    requires AfterSteps(x, g, c, sends, answer, 1) == Alone(h, c, Reserved, sends) && ReservedAs(x, h, c, row) && Attemptable(row)
    ensures AfterSteps(x, g, c, sends, answer, 5)
      == Alone(WithRow(x, h, Attempted(row, answer)), c, if answer == None && row.attempt == 0 then Entering else Returned(true), sends + [x.txn])
    ensures ReservedAs(x, WithRow(x, h, Attempted(row, answer)), c, Attempted(row, answer))
  {
    hide AfterSteps, Next, Alone;
    NextStep(x, g, c, sends, answer, 1);
    AloneReads(x, h, c, sends, answer);
    NextStep(x, g, c, sends, answer, 2);
    AloneBegins(x, h, c, sends, answer, Saw(row.phase, row.attempt, row.ownerRevision));
    var begun := row.(attempt := row.attempt + 1, ownerRevision := row.ownerRevision + 1);
    var k := WithRow(x, h, begun);
    NextStep(x, g, c, sends, answer, 3);
    AloneSends(x, k, c, sends, answer, row.attempt, row.ownerRevision + 1);
    NextStep(x, g, c, sends, answer, 4);
    AloneFinishes(x, k, c, sends + [x.txn], answer, row.attempt, row.ownerRevision + 1, answer);
    assert WithRow(x, k, Attempted(row, answer)) == WithRow(x, h, Attempted(row, answer));
  }

  /** Whether the call may go on: nothing is reserved, or exactly this reservation by the same owner. */
  ghost predicate MayProceed(x: Acceptance, g: State, c: Caller) {
    Unreserved(x, g) || (DeliveryKey(x.out.id, Outbound) in g.deliveries && ReservedAs(x, g, c, g.deliveries[DeliveryKey(x.out.id, Outbound)]))
  }

  /** The row the call reads. */
  ghost function RowRead(x: Acceptance, g: State, c: Caller): GatewayDelivery
    requires MayProceed(x, g, c)
  {
    if Unreserved(x, g) then NewRow(x, c) else g.deliveries[DeliveryKey(x.out.id, Outbound)]
  }

  /** The first step of an attempt. */
  lemma Enters(x: Acceptance, g: State, c: Caller, sends: seq<string>, answer: Option<string>) returns (h: State)
    requires MayProceed(x, g, c)
    ensures ReservedAs(x, h, c, RowRead(x, g, c)) && (!Unreserved(x, g) ==> h == g)
    ensures AfterSteps(x, g, c, sends, answer, 1) == Alone(h, c, Reserved, sends)
  {
    hide AfterSteps, Next, Alone, Reserve, Unreserved;
    StartsEntering(x, g, c, sends, answer);
    NextStep(x, g, c, sends, answer, 0);
    AloneEnters(x, g, c, sends, answer);
    h := g;
    if Unreserved(x, g) {
      UnreservedIsReserved(x, g, c);
      h := Reserve(g, x.out, c.room, c.threadRoot, x.txn, c.owner).value.1;
    } else {
      ReservedStays(x, g, c, RowRead(x, g, c));
    }
  }

  /** An attempt on a row that can be attempted. */
  lemma Attempting(x: Acceptance, g: State, c: Caller, sends: seq<string>, answer: Option<string>) returns (h: State)
    requires MayProceed(x, g, c) && Attemptable(RowRead(x, g, c))
    ensures ReservedAs(x, h, c, Attempted(RowRead(x, g, c), answer))
    ensures AfterSteps(x, g, c, sends, answer, 5)
      == Alone(h, c, if answer == None && RowRead(x, g, c).attempt == 0 then Entering else Returned(true), sends + [x.txn])
  {
    hide AfterSteps, Alone, Unreserved, MayProceed;
    var k := Enters(x, g, c, sends, answer);
    AttemptFrom(x, g, c, sends, answer, k, RowRead(x, g, c));
    h := WithRow(x, k, Attempted(RowRead(x, g, c), answer));
  }

  ghost predicate Settled(row: GatewayDelivery) {
    row.phase == TransportAcked || row.phase == TaskAccepted || row.phase == PhaseTerminal || row.phase == RecoveryNeeded
  }

  /** A row that has settled or is held by another attempt: the call returns with the store as it was. */
  lemma NotAttempting(x: Acceptance, g: State, c: Caller, sends: seq<string>, answer: Option<string>)
    requires MayProceed(x, g, c) && !((RowRead(x, g, c).phase == Pending && RowRead(x, g, c).attempt == 0)
                                      || (RowRead(x, g, c).phase == SendUnknown && RowRead(x, g, c).attempt == 1))
    ensures AfterSteps(x, g, c, sends, answer, 5) == Alone(g, c, Returned(Settled(RowRead(x, g, c))), sends)
  {
    hide AfterSteps, Next, Alone, Unreserved;
    var k := Enters(x, g, c, sends, answer);
    NextStep(x, g, c, sends, answer, 1);
    AloneReads(x, g, c, sends, answer);
    ReturnedIsLast(x, g, c, sends, answer, 2, g, Settled(RowRead(x, g, c)));
  }

  /** Any other reservation, or one by another owner, is an error that changes nothing. */
  lemma NotProceeding(x: Acceptance, g: State, c: Caller, sends: seq<string>, answer: Option<string>)
    requires !MayProceed(x, g, c)
    ensures AfterSteps(x, g, c, sends, answer, 5) == Alone(g, c, Returned(false), sends)
  {
    ForeignReservation(x, g, c);
    hide AfterSteps, Next, Alone, Reserve, MayProceed;
    StartsEntering(x, g, c, sends, answer);
    NextStep(x, g, c, sends, answer, 0);
    AloneEnters(x, g, c, sends, answer);
    if Reserve(g, x.out, c.room, c.threadRoot, x.txn, c.owner).Ok? {
      NextStep(x, g, c, sends, answer, 1);
      AloneReads(x, g, c, sends, answer);
      ReturnedIsLast(x, g, c, sends, answer, 2, g, false);
    } else {
      ReturnedIsLast(x, g, c, sends, answer, 1, g, false);
    }
  }

  lemma ForeignReservation(x: Acceptance, g: State, c: Caller)
    requires !MayProceed(x, g, c)
    ensures var r := Reserve(g, x.out, c.room, c.threadRoot, x.txn, c.owner);
      r.Ok? ==> r.value.1 == g && RowOf(x, g).Some? && RowOf(x, g).value.owner != Some(c.owner)
  {
    var key := IdempotencyKey(x.out.peer, x.out.senderPeer, Outbound, x.out.key);
    if forall e :: e in g.envelopes ==> g.envelopes[e].idempotency != key {
      assert WithKey(g.envelopes, key) == {};
    } else {
      var e :| e in g.envelopes && g.envelopes[e].idempotency == key;
      assert e in WithKey(g.envelopes, key);
    }
  }

  lemma AloneIs(g: State, c: Caller, pc: Pc, sends: seq<string>, g': State, pc': Pc, sends': seq<string>)
    requires Alone(g, c, pc, sends) == Alone(g', c, pc', sends')
    ensures g == g' && pc == pc' && sends == sends'
  {
    assert (map[0 := c.(pc := pc)])[0] == (map[0 := c.(pc := pc')])[0];
  }

  /** What one attempt comes to: whether it sends, whether the call starts over, and otherwise its result. */
  lemma OneAttemptExactly(x: Acceptance, g: State, c: Caller, before: seq<string>, answer: Option<string>,
                          h: State, sent: bool, again: bool, ok: bool)
    requires AfterSteps(x, g, c, before, answer, 5)
          == Alone(h, c, if again then Entering else Returned(ok), if sent then before + [x.txn] else before)
    ensures !MayProceed(x, g, c) ==> !sent && !again && !ok && h == g
    ensures MayProceed(x, g, c) && Attemptable(RowRead(x, g, c)) ==>
      && sent && (again <==> answer == None && RowRead(x, g, c).attempt == 0) && (!again ==> ok)
      && ReservedAs(x, h, c, Attempted(RowRead(x, g, c), answer))
    ensures MayProceed(x, g, c) && !((RowRead(x, g, c).phase == Pending && RowRead(x, g, c).attempt == 0)
                                     || (RowRead(x, g, c).phase == SendUnknown && RowRead(x, g, c).attempt == 1)) ==>
      !sent && !again && (ok <==> Settled(RowRead(x, g, c))) && h == g
  {
    hide AfterSteps, Alone, MayProceed, Settled, RowRead;
    var pc, sends := if again then Entering else Returned(ok), if sent then before + [x.txn] else before;
    assert |before + [x.txn]| == |before| + 1;
    if !MayProceed(x, g, c) {
      NotProceeding(x, g, c, before, answer);
      AloneIs(h, c, pc, sends, g, Returned(false), before);
    } else {
      var row := RowRead(x, g, c);
      if Attemptable(row) {
        var k := Attempting(x, g, c, before, answer);
        AloneIs(h, c, pc, sends, k, if answer == None && row.attempt == 0 then Entering else Returned(true), before + [x.txn]);
      } else if !((row.phase == Pending && row.attempt == 0) || (row.phase == SendUnknown && row.attempt == 1)) {
        NotAttempting(x, g, c, before, answer);
        AloneIs(h, c, pc, sends, g, Returned(Settled(row)), before);
      }
    }
  }

  /** The number of sends and the row they leave, by the row read and the two answers. */
  ghost function Outcome(row: GatewayDelivery, first: Option<string>, second: Option<string>): (nat, GatewayDelivery) {
    if row.phase == Pending && row.attempt == 0 then
      if first != None then (1, row.(phase := TransportAcked, attempt := 1, eventId := first, ownerRevision := row.ownerRevision + 2))
      else if second != None then (2, row.(phase := TransportAcked, attempt := 2, eventId := second, ownerRevision := row.ownerRevision + 4))
      else (2, row.(phase := RecoveryNeeded, attempt := 2, ownerRevision := row.ownerRevision + 4))
    else if row.phase == SendUnknown && row.attempt == 1 then
      if first != None then (1, row.(phase := TransportAcked, attempt := 2, eventId := first, ownerRevision := row.ownerRevision + 2))
      else (1, row.(phase := RecoveryNeeded, attempt := 2, ownerRevision := row.ownerRevision + 2))
    else (0, row)
  }

  /**
   * `send_acceptance`: the recursion goes at most one level deep, so at most two sends happen; `run` shows the call
   * as a run of the system above. The sends, the row left and the result are those of the table `Outcome`.
   */
  method SendAcceptance(store: GatewayStore, x: Acceptance, c: Caller, first: Option<string>, second: Option<string>)
    returns (sends: nat, ok: bool, ghost run: seq<Action>)
    modifies store
    ensures sends <= 2
    ensures RunActions(x, Alone(old(store.g), c, Entering, []), run) == Alone(store.g, c, Returned(ok), seq(sends, _ => x.txn))
    ensures !MayProceed(x, old(store.g), c) ==> sends == 0 && !ok && store.g == old(store.g)
    ensures MayProceed(x, old(store.g), c) ==>
      var row := RowRead(x, old(store.g), c);
      && (Attemptable(row) ==> ok && sends == Outcome(row, first, second).0 && ReservedAs(x, store.g, c, Outcome(row, first, second).1))
      && (Outcome(row, first, second).0 == 0 ==> sends == 0 && store.g == old(store.g) && (ok <==> Settled(row)))
  {
    hide AfterSteps, Alone, RunActions, Unreserved, Settled;
    ghost var g := store.g;
    run := OneAttempt(first);
    WholeAttempt(x, g, c, [], first);
    var sent, again;
    sent, again, ok := SendOnce(store, x, c, [], first);
    OneAttemptExactly(x, g, c, [], first, store.g, sent, again, ok);
    sends := if sent then 1 else 0;
    if again {
      ghost var mid := store.g;
      assert [] + [x.txn] == [x.txn];
      WholeAttempt(x, mid, c, [x.txn], second);
      RunSplit(x, Alone(g, c, Entering, []), run, OneAttempt(second));
      run := run + OneAttempt(second);
      sent, again, ok := SendOnce(store, x, c, [x.txn], second);
      assert !again;
      OneAttemptExactly(x, mid, c, [x.txn], second, store.g, sent, again, ok);
      ReadsReserved(x, mid, c);
      sends := if sent then 2 else 1;
    }
    assert sends == 0 ==> [] == seq(sends, _ => x.txn);
    assert sends == 2 ==> [x.txn] + [x.txn] == seq(sends, _ => x.txn);
    assert sends == 1 ==> [x.txn] == seq(sends, _ => x.txn) == [] + [x.txn];
  }

  /** A reserved row is the one read. */
  lemma ReadsReserved(x: Acceptance, g: State, c: Caller)
    ensures forall row :: ReservedAs(x, g, c, row) ==> MayProceed(x, g, c) && RowRead(x, g, c) == row
  {
  }
}
