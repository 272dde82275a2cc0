/** The runtime admission lock file: acquisition with stale-lock quarantine, cut off between any two file operations. */
module AdmissionLock {
  import opened Prelude

  datatype Identities = Identities(executable: string, config: string, database: string)

  datatype Record = Record(kind: string, pid: nat, starttime: nat, identities: Identities, nonce: string)

  /** A file that was created but not completely written does not parse. */
  datatype Content = Torn | Written(record: Record)

  datatype LockFile = LockFile(inode: nat, content: Content)

  /** The lock and the quarantined locks, by the suffix of their names. */
  datatype Dir = Dir(lock: Option<LockFile>, quarantines: map<string, LockFile>)

  datatype Guard = Guard(nonce: string, inode: nat, pid: nat)

  /** What `/proc` says of a process id. */
  datatype Probe = Exists | Gone | Unknown

  datatype LockError = Ambiguous | MalformedLock | MayBeLive | OwnerUnknown | IdentityDrift

  const KINDS: set<string> :=
    {"startup", "reconcile", "manual-abandonment", "terminal-cleanup", "fixture-prepare", "fixture-migrate", "backup",
     "backup-verify", "restore", "owner-binding-remediation"}

  /** `read_record`. */
  function ReadRecord(f: LockFile): Result<Record, LockError> {
    match f.content
    case Torn => Err(MalformedLock)
    case Written(r) => if r.kind in KINDS && r.pid != 0 && r.starttime != 0 then Ok(r) else Err(MalformedLock)
  }

  /** `validate_stale`. */
  function ValidateStale(stale: Record, mine: Record, probe: nat -> Probe): Result<(), LockError> {
    match probe(stale.pid)
    case Exists => Err(MayBeLive)
    case Unknown => Err(OwnerUnknown)
    case Gone => if stale.identities != mine.identities then Err(IdentityDrift) else Ok(())
  }

  function ReadStale(f: LockFile, mine: Record, probe: nat -> Probe): Result<Record, LockError> {
    var stale :- ReadRecord(f);
    var _ :- ValidateStale(stale, mine, probe);
    Ok(stale)
  }

  /** An acquisition: the directory after each file operation, starting with the one found, and the result. */
  datatype Trace = Trace(dirs: seq<Dir>, result: Result<Guard, LockError>)

  function GuardOf(mine: Record, inode: nat): Guard {
    Guard(mine.nonce, inode, mine.pid)
  }

  /** `create` on a directory without a lock: make the file, then fill it. */
  function Creating(d: Dir, mine: Record, inode: nat): seq<Dir> {
    [d.(lock := Some(LockFile(inode, Torn))), d.(lock := Some(LockFile(inode, Written(mine))))]
  }

  /** Moving a stale lock aside, creating the new one, and dropping the old. */
  function TakingOver(d: Dir, stale: Record, mine: Record, inode: nat): (dirs: seq<Dir>)
    requires d.lock.Some?
    ensures |dirs| == 4
  {
    var aside := Dir(None, d.quarantines[stale.nonce := d.lock.value]);
    [aside] + Creating(aside, mine, inode)
    + [Dir(Some(LockFile(inode, Written(mine))), aside.quarantines - {stale.nonce})]
  }

  /** The last part of `acquire`, on a directory whose quarantine has been dealt with. */
  function Claiming(d: Dir, mine: Record, inode: nat, probe: nat -> Probe): Trace {
    if d.lock.None? then
      Trace([d] + Creating(d, mine, inode), Ok(GuardOf(mine, inode)))
    else
      match ReadStale(d.lock.value, mine, probe)
      case Err(e) => Trace([d], Err(e))
      case Ok(stale) => Trace([d] + TakingOver(d, stale, mine, inode), Ok(GuardOf(mine, inode)))
  }

  function SoleKey(m: map<string, LockFile>): (k: string)
    requires |m.Keys| == 1
    ensures m.Keys == {k}
  {
    Only(m.Keys)
  }

  /** `Guard::acquire`, once the identities have been read. */
  function Acquire(d: Dir, mine: Record, inode: nat, probe: nat -> Probe): Trace {
    if |d.quarantines.Keys| > 1 || (d.quarantines != map[] && d.lock.Some?) then
      Trace([d], Err(Ambiguous))
    else if d.quarantines == map[] then
      Claiming(d, mine, inode, probe)
    else
      var f := d.quarantines[SoleKey(d.quarantines)];
      match ReadStale(f, mine, probe)
      case Err(e) => Trace([d], Err(e))
      case Ok(_) =>
        var rest := Claiming(Dir(Some(f), map[]), mine, inode, probe);
        Trace([d] + rest.dirs, rest.result)
  }

  /** `Guard::revalidate`. */
  predicate Revalidates(d: Dir, g: Guard) {
    d.lock.Some? && ReadRecord(d.lock.value).Ok? && ReadRecord(d.lock.value).value.nonce == g.nonce && d.lock.value.inode == g.inode
  }

  /** `Drop for Guard`. */
  function Dropped(d: Dir, g: Guard): Dir {
    if Revalidates(d, g) then d.(lock := None) else d
  }

  // ---------------------------------------------------- the imperative form

  /** The directory that holds the lock, with the file operations that change it. */
  class Directory {
    var dir: Dir

    constructor (start: Dir)
      ensures dir == start
    {
      dir := start;
    }

    /** `create_new` and `write_all`; `budget` is how many operations happen before the process dies. */
    method Create(mine: Record, inode: nat, budget: nat) returns (left: nat, alive: bool)
      requires dir.lock.None?
      modifies this
      ensures dir == ([old(dir)] + Creating(old(dir), mine, inode))[if budget < 2 then budget else 2]
      ensures alive <==> budget >= 2
      ensures alive ==> left == budget - 2
    {
      if budget == 0 { return 0, false; }
      dir := dir.(lock := Some(LockFile(inode, Torn)));
      if budget == 1 { return 0, false; }
      dir := dir.(lock := Some(LockFile(inode, Written(mine))));
      return budget - 2, true;
    }

    method Claim(mine: Record, inode: nat, probe: nat -> Probe, budget: nat) returns (r: Option<Result<Guard, LockError>>)
      modifies this
      ensures var t := Claiming(old(dir), mine, inode, probe);
        && dir == t.dirs[if budget < |t.dirs| then budget else |t.dirs| - 1]
        && r == if budget < |t.dirs| - 1 then None else Some(t.result)
    {
      if dir.lock.None? {
        var left, alive := Create(mine, inode, budget);
        return if alive then Some(Ok(GuardOf(mine, inode))) else None;
      }
      var found := dir.lock.value;
      var stale := ReadStale(found, mine, probe);
      if stale.Err? { return Some(Err(stale.error)); }
      if budget == 0 { return None; }
      dir := Dir(None, dir.quarantines[stale.value.nonce := found]);
      var left, alive := Create(mine, inode, budget - 1);
      if !alive || left == 0 { return None; }
      dir := dir.(quarantines := dir.quarantines - {stale.value.nonce});
      return Some(Ok(GuardOf(mine, inode)));
    }

    /** `Guard::acquire`; `None` when the process died on the way. */
    method AcquireLock(mine: Record, inode: nat, probe: nat -> Probe, budget: nat) returns (r: Option<Result<Guard, LockError>>)
      modifies this
      ensures var t := Acquire(old(dir), mine, inode, probe);
        && dir == t.dirs[if budget < |t.dirs| then budget else |t.dirs| - 1]
        && r == if budget < |t.dirs| - 1 then None else Some(t.result)
    {
      if |dir.quarantines.Keys| > 1 || (dir.quarantines != map[] && dir.lock.Some?) {
        return Some(Err(Ambiguous));
      }
      var left := budget;
      if dir.quarantines != map[] {
        var f := dir.quarantines[SoleKey(dir.quarantines)];
        var stale := ReadStale(f, mine, probe);
        if stale.Err? { return Some(Err(stale.error)); }
        if left == 0 { return None; }
        dir := Dir(Some(f), map[]);
        left := left - 1;
      }
      r := Claim(mine, inode, probe, left);
    }
  }

  // ------------------------------------------------------- one acquisition

  /** A lock whose recorded process may exist is never displaced: the acquisition fails before its first operation. */
  lemma LiveLockStands(d: Dir, mine: Record, inode: nat, probe: nat -> Probe)
    requires d.lock.Some? && d.lock.value.content.Written? && probe(d.lock.value.content.record.pid) != Gone
    ensures Acquire(d, mine, inode, probe).dirs == [d] && Acquire(d, mine, inode, probe).result.Err?
  {
  }

  /** The directory cannot be repaired by any acquisition. */
  predicate Stuck(d: Dir) {
    || |d.quarantines.Keys| > 1
    || (d.quarantines != map[] && d.lock.Some?)
    || (d.lock.Some? && ReadRecord(d.lock.value).Err?)
    || exists k :: k in d.quarantines && ReadRecord(d.quarantines[k]).Err?
  }

  /** Every lock that is there was left by a process that is gone and that ran with the same identities. */
  predicate AllGone(d: Dir, mine: Record, probe: nat -> Probe) {
    && (d.lock.Some? ==> Abandoned(d.lock.value, mine, probe))
    && (forall k :: k in d.quarantines ==> Abandoned(d.quarantines[k], mine, probe))
  }

  predicate Abandoned(f: LockFile, mine: Record, probe: nat -> Probe) {
    f.content.Written? ==> probe(f.content.record.pid) == Gone && f.content.record.identities == mine.identities
  }

  /** When everybody else is gone, an acquisition succeeds exactly when the directory is not stuck. */
  lemma RepairExactly(d: Dir, mine: Record, inode: nat, probe: nat -> Probe)
    requires AllGone(d, mine, probe)
    ensures Acquire(d, mine, inode, probe).result.Ok? <==> !Stuck(d)
    ensures !Stuck(d) ==> var t := Acquire(d, mine, inode, probe);
      t.dirs[|t.dirs| - 1] == Dir(Some(LockFile(inode, Written(mine))), map[])
    ensures Stuck(d) ==> Acquire(d, mine, inode, probe).dirs == [d]
  {
  }

  /**
   * Which crash points the next acquisition repairs. From a directory that is not stuck, the intermediate
   * directories are stuck exactly from the moment an empty lock file exists until the operation that completes
   * the acquisition; a takeover also has the old lock in quarantine through the filling of the new one.
   */
  lemma CrashPoints(d: Dir, mine: Record, inode: nat, probe: nat -> Probe, k: nat)
    requires AllGone(d, mine, probe) && !Stuck(d) && ReadRecord(LockFile(inode, Written(mine))).Ok?
    requires k < |Acquire(d, mine, inode, probe).dirs|
    ensures var t := Acquire(d, mine, inode, probe); var last := |t.dirs| - 1;
      && last == (if d.quarantines != map[] then 5 else if d.lock.Some? then 4 else 2)
      && (Stuck(t.dirs[k]) <==> k == last - 1 || (k == last - 2 && last > 2))
  {
    var last := |Acquire(d, mine, inode, probe).dirs| - 1;
    hide KINDS;
    StuckPoints(d, mine, inode, probe, k);
    if d.quarantines != map[] {
      var f := d.quarantines[SoleKey(d.quarantines)];
      assert last == 5;
      if k > 0 { StuckPoints(Dir(Some(f), map[]), mine, inode, probe, k - 1); }
    }
  }

  /** The same without a quarantine at the start. */
  lemma StuckPoints(d: Dir, mine: Record, inode: nat, probe: nat -> Probe, k: nat)
    requires AllGone(d, mine, probe) && !Stuck(d) && ReadRecord(LockFile(inode, Written(mine))).Ok?
    ensures d.quarantines == map[] && k < |Claiming(d, mine, inode, probe).dirs| ==>
      var t := Claiming(d, mine, inode, probe); var last := |t.dirs| - 1;
      && last == (if d.lock.Some? then 4 else 2)
      && (Stuck(t.dirs[k]) <==> k == last - 1 || (k == last - 2 && last > 2))
  {
    hide KINDS;
  }

  /** A crash between creating the first lock and filling it: no acquisition by anyone ever gets past the empty file. */
  lemma EmptyLockSticks(mine: Record, inode: nat, probe: nat -> Probe, next: Record, inode': nat, later: nat -> Probe)
    ensures var crashed := Acquire(Dir(None, map[]), mine, inode, probe).dirs[1];
      crashed == Dir(Some(LockFile(inode, Torn)), map[]) && Acquire(crashed, next, inode', later) == Trace([crashed], Err(MalformedLock))
  {
  }

  lemma TraceIsAbandoned(d: Dir, mine: Record, inode: nat, probe: nat -> Probe, k: nat, next: Record, later: nat -> Probe)
    requires AllGone(d, mine, probe) && k < |Acquire(d, mine, inode, probe).dirs|
    requires next.identities == mine.identities && later(mine.pid) == Gone && forall pid :: probe(pid) == Gone ==> later(pid) == Gone
    ensures AllGone(Acquire(d, mine, inode, probe).dirs[k], next, later)
  {
  }

  /** A crash at any other point, such as between the quarantine rename and the new create, is repaired by the next acquisition. */
  lemma NextAcquisitionRepairs(d: Dir, mine: Record, inode: nat, probe: nat -> Probe, k: nat, next: Record, inode': nat, later: nat -> Probe)
    requires AllGone(d, mine, probe) && !Stuck(d) && ReadRecord(LockFile(inode, Written(mine))).Ok?
    requires next.identities == mine.identities && later(mine.pid) == Gone && forall pid :: probe(pid) == Gone ==> later(pid) == Gone
    requires k < |Acquire(d, mine, inode, probe).dirs|
    ensures var t := Acquire(d, mine, inode, probe); var last := |t.dirs| - 1;
      Acquire(t.dirs[k], next, inode', later).result.Ok? <==> k != last - 1 && !(k == last - 2 && last > 2)
  {
    hide Acquire, Stuck, AllGone;
    CrashPoints(d, mine, inode, probe, k);
    TraceIsAbandoned(d, mine, inode, probe, k, next, later);
    RepairExactly(Acquire(d, mine, inode, probe).dirs[k], next, inode', later);
  }

  // ------------------------------------------------- the outcome, file by file

  /** A record that `read_record` takes: one of the ten kinds, with a process id and a start time. */
  ghost predicate WellFormed(r: Record) {
    && (|| r.kind == "startup" || r.kind == "reconcile" || r.kind == "manual-abandonment" || r.kind == "terminal-cleanup"
        || r.kind == "fixture-prepare" || r.kind == "fixture-migrate" || r.kind == "backup" || r.kind == "backup-verify"
        || r.kind == "restore" || r.kind == "owner-binding-remediation")
    && r.pid > 0 && r.starttime > 0
  }

  /** Why a lock file cannot be taken over; `None` if it can. */
  ghost function Obstacle(f: LockFile, mine: Record, probe: nat -> Probe): Option<LockError> {
    if f.content == Torn || !WellFormed(f.content.record) then Some(MalformedLock)
    else if probe(f.content.record.pid) == Exists then Some(MayBeLive)
    else if probe(f.content.record.pid) == Unknown then Some(OwnerUnknown)
    else if !(&& f.content.record.identities.executable == mine.identities.executable
              && f.content.record.identities.config == mine.identities.config
              && f.content.record.identities.database == mine.identities.database) then Some(IdentityDrift)
    else None
  }

  /** The acquisition that finds `f` as its lock, after the directories `before`. */
  ghost function Takeover(before: seq<Dir>, f: LockFile, mine: Record, inode: nat, probe: nat -> Probe): Trace {
    if Obstacle(f, mine, probe) != None then Trace(before, Err(Obstacle(f, mine, probe).value))
    else
      var aside := map[f.content.record.nonce := f];
      Trace(before + [Dir(Some(f), map[]), Dir(None, aside), Dir(Some(LockFile(inode, Torn)), aside),
                      Dir(Some(LockFile(inode, Written(mine))), aside), Dir(Some(LockFile(inode, Written(mine))), map[])],
            Ok(Guard(mine.nonce, inode, mine.pid)))
  }

  /** The acquisition that finds nothing. */
  ghost function FirstLock(mine: Record, inode: nat): Trace {
    Trace([Dir(None, map[]), Dir(Some(LockFile(inode, Torn)), map[]), Dir(Some(LockFile(inode, Written(mine))), map[])],
          Ok(Guard(mine.nonce, inode, mine.pid)))
  }

  lemma ReadStaleExactly(f: LockFile, mine: Record, probe: nat -> Probe)
    ensures ReadStale(f, mine, probe).Ok? <==> Obstacle(f, mine, probe) == None
    ensures Obstacle(f, mine, probe) != None ==> ReadStale(f, mine, probe) == Err(Obstacle(f, mine, probe).value)
    ensures Obstacle(f, mine, probe) == None ==> f.content.Written? && ReadStale(f, mine, probe) == Ok(f.content.record)
  {
  }

  /** The last part on a directory with one lock and no quarantine. */
  lemma ClaimingExactly(f: LockFile, mine: Record, inode: nat, probe: nat -> Probe)
    requires Obstacle(f, mine, probe) == None
    ensures Claiming(Dir(Some(f), map[]), mine, inode, probe) == Takeover([], f, mine, inode, probe)
  {
    ReadStaleExactly(f, mine, probe);
    hide ReadStale, Obstacle;
    var d, nonce := Dir(Some(f), map[]), f.content.record.nonce;
    assert d.quarantines[nonce := f] == map[nonce := f];
    assert map[nonce := f] - {nonce} == map[];
  }

  /** `Guard::acquire` on every directory: its result, and every directory on the way. */
  lemma AcquireExactly(d: Dir, mine: Record, inode: nat, probe: nat -> Probe)
    ensures d == Dir(None, map[]) ==> Acquire(d, mine, inode, probe) == FirstLock(mine, inode)
    ensures forall f :: d == Dir(Some(f), map[]) ==>
      Acquire(d, mine, inode, probe) == Takeover(if Obstacle(f, mine, probe) == None then [] else [d], f, mine, inode, probe)
    ensures forall k, f :: d == Dir(None, map[k := f]) ==> Acquire(d, mine, inode, probe) == Takeover([d], f, mine, inode, probe)
    ensures (d.lock != None && d.quarantines != map[]) || (exists j, k :: j in d.quarantines && k in d.quarantines && j != k) ==>
      Acquire(d, mine, inode, probe) == Trace([d], Err(Ambiguous))
  {
    hide Obstacle, ReadStale;
    forall f | d == Dir(Some(f), map[])
      ensures Acquire(d, mine, inode, probe) == Takeover(if Obstacle(f, mine, probe) == None then [] else [d], f, mine, inode, probe)
    {
      ReadStaleExactly(f, mine, probe);
      if Obstacle(f, mine, probe) == None { ClaimingExactly(f, mine, inode, probe); }
    }
    forall k, f | d == Dir(None, map[k := f])
      ensures Acquire(d, mine, inode, probe) == Takeover([d], f, mine, inode, probe)
    {
      QuarantineExactly(d, k, f, mine, inode, probe);
    }
    if j, k :| j in d.quarantines && k in d.quarantines && j != k {
      TwoKeys(d.quarantines.Keys, j, k);
    }
  }

  lemma QuarantineExactly(d: Dir, k: string, f: LockFile, mine: Record, inode: nat, probe: nat -> Probe)
    requires d == Dir(None, map[k := f])
    ensures Acquire(d, mine, inode, probe) == Takeover([d], f, mine, inode, probe)
  {
    hide Obstacle, ReadStale, Claiming;
    assert d.quarantines.Keys == {k};
    assert SoleKey(d.quarantines) == k by { assert SoleKey(d.quarantines) in d.quarantines.Keys; }
    ReadStaleExactly(f, mine, probe);
    if Obstacle(f, mine, probe) == None { ClaimingExactly(f, mine, inode, probe); }
  }

  lemma TwoKeys(s: set<string>, j: string, k: string)
    requires j in s && k in s && j != k
    ensures |s| > 1
  {
    assert |s - {j}| == |s| - 1 && k in s - {j};
  }

  /** `Guard::revalidate` and its `Drop`: only the very file the guard made. */
  lemma DroppedExactly(d: Dir, g: Guard)
    ensures Revalidates(d, g) <==>
      d.lock != None && d.lock.value.inode == g.inode && d.lock.value.content != Torn
      && WellFormed(d.lock.value.content.record) && d.lock.value.content.record.nonce == g.nonce
    ensures Dropped(d, g) == Dir(if Revalidates(d, g) then None else d.lock, d.quarantines)
  {
  }

  // ------------------------------------------------------------ whole runs

  /** The directory, the processes that exist, the guards they hold, and every nonce ever generated. */
  datatype System = System(dir: Dir, live: set<nat>, unreadable: set<nat>, guards: set<Guard>, nonces: set<string>)

  datatype Action =
    | Attempt(mine: Record, inode: nat, budget: nat)
    | Release(guard: Guard)
    | Exit(pid: nat)
    | Spawn(pid: nat)

  function ProbeOf(s: System): nat -> Probe {
    pid => if pid in s.live then Exists else if pid in s.unreadable then Unknown else Gone
  }

  function Depart(s: System, pid: nat): System {
    s.(live := s.live - {pid}, guards := set g | g in s.guards && g.pid != pid)
  }

  /** Acquisitions do not overlap: each runs to its end or to its crash before the next begins. */
  function Next(s: System, action: Action): System {
    match action
    case Attempt(mine, inode, budget) =>
      if mine.pid !in s.live || mine.nonce in s.nonces || ReadRecord(LockFile(inode, Written(mine))).Err? then s
      else
        var t := Acquire(s.dir, mine, inode, ProbeOf(s));
        var seen := s.(nonces := s.nonces + {mine.nonce});
        if budget < |t.dirs| - 1 then Depart(seen, mine.pid).(dir := t.dirs[budget])
        else seen.(dir := t.dirs[|t.dirs| - 1], guards := if t.result.Ok? then s.guards + {t.result.value} else s.guards)
    case Release(g) => if g in s.guards then s.(dir := Dropped(s.dir, g), guards := s.guards - {g}) else s
    case Exit(pid) => Depart(s, pid)
    case Spawn(pid) => s.(live := s.live + {pid})
  }

  function RunActions(s: System, actions: seq<Action>): System
    decreases actions
  {
    if actions == [] then s else RunActions(Next(s, actions[0]), actions[1..])
  }

  predicate HeldBy(d: Dir, g: Guard) {
    && d.lock.Some? && d.lock.value.inode == g.inode && ReadRecord(d.lock.value).Ok?
    && ReadRecord(d.lock.value).value.nonce == g.nonce && ReadRecord(d.lock.value).value.pid == g.pid
  }

  ghost predicate Inv(s: System) {
    && |s.dir.quarantines.Keys| <= 1
    && forall g :: g in s.guards ==> g.pid in s.live && HeldBy(s.dir, g)
  }

  lemma AcquireQuarantines(d: Dir, mine: Record, inode: nat, probe: nat -> Probe, k: nat)
    requires |d.quarantines.Keys| <= 1 && k < |Acquire(d, mine, inode, probe).dirs|
    ensures |Acquire(d, mine, inode, probe).dirs[k].quarantines.Keys| <= 1
  {
  }

  lemma AcquireGrants(d: Dir, mine: Record, inode: nat, probe: nat -> Probe)
    requires ReadRecord(LockFile(inode, Written(mine))).Ok? && Acquire(d, mine, inode, probe).result.Ok?
    ensures var t := Acquire(d, mine, inode, probe); HeldBy(t.dirs[|t.dirs| - 1], t.result.value) && t.result.value == GuardOf(mine, inode)
  {
  }

  lemma HeldMeansLive(s: System)
    requires Inv(s) && s.guards != {}
    ensures s.dir.lock.Some? && s.dir.lock.value.content.Written? && ProbeOf(s)(s.dir.lock.value.content.record.pid) == Exists
  {
  }

  lemma AttemptKeeps(s: System, mine: Record, inode: nat, budget: nat)
    requires Inv(s)
    ensures Inv(Next(s, Attempt(mine, inode, budget)))
  {
    hide Acquire, HeldBy;
    if mine.pid in s.live && mine.nonce !in s.nonces && ReadRecord(LockFile(inode, Written(mine))).Ok? {
      var t := Acquire(s.dir, mine, inode, ProbeOf(s));
      assert |t.dirs| >= 1 by { TraceStarts(s.dir, mine, inode, ProbeOf(s)); }
      AcquireQuarantines(s.dir, mine, inode, ProbeOf(s), if budget < |t.dirs| - 1 then budget else |t.dirs| - 1);
      if s.guards != {} {
        HeldMeansLive(s);
        LiveLockStands(s.dir, mine, inode, ProbeOf(s));
      } else if t.result.Ok? {
        AcquireGrants(s.dir, mine, inode, ProbeOf(s));
      }
    }
  }

  lemma TraceStarts(d: Dir, mine: Record, inode: nat, probe: nat -> Probe)
    ensures |Acquire(d, mine, inode, probe).dirs| >= 1 && Acquire(d, mine, inode, probe).dirs[0] == d
  {
  }

  lemma StepKeepsInv(s: System, action: Action)
    requires Inv(s)
    ensures Inv(Next(s, action))
  {
    match action
    case Attempt(mine, inode, budget) => AttemptKeeps(s, mine, inode, budget);
    case Release(g) =>
      if g in s.guards {
        OneGuard(s);
        assert s.guards - {g} == {};
      }
    case Exit(pid) =>
    case Spawn(pid) =>
  }

  /** All guards name the one lock, so there is at most one. */
  lemma OneGuard(s: System)
    requires Inv(s)
    ensures forall g, h :: g in s.guards && h in s.guards ==> g == h
  {
  }

  lemma {:induction false} RunKeepsInv(s: System, actions: seq<Action>)
    requires Inv(s)
    ensures Inv(RunActions(s, actions))
    decreases actions
  {
    hide Inv, Next;
    if actions != [] {
      StepKeepsInv(s, actions[0]);
      RunKeepsInv(Next(s, actions[0]), actions[1..]);
    }
  }

  /**
   * Over every run of non-overlapping acquisitions with crashes between any two file operations: at most one
   * quarantine file exists, at most one process holds a guard, and a held guard revalidates.
   */
  lemma LockIsExclusive(s: System, actions: seq<Action>)
    requires |s.dir.quarantines.Keys| <= 1 && s.guards == {}
    ensures var t := RunActions(s, actions);
      && |t.dir.quarantines.Keys| <= 1
      && (forall g, h :: g in t.guards && h in t.guards ==> g == h)
      && (forall g :: g in t.guards ==> g.pid in t.live && Revalidates(t.dir, g))
  {
    RunKeepsInv(s, actions);
    var t := RunActions(s, actions);
    OneGuard(t);
    forall g | g in t.guards
      ensures g.pid in t.live && Revalidates(t.dir, g)
    {
      assert HeldBy(t.dir, g);
    }
  }

  ghost predicate MayAttempt(s: System, mine: Record) {
    mine.pid in s.live && mine.nonce !in s.nonces && WellFormed(mine)
  }

  /** Releasing the guard removes the lock, and the next acquisition gets it if it lives to the end. */
  lemma ReleaseFrees(s: System, g: Guard, mine: Record, inode: nat, budget: nat)
    requires Inv(s) && g in s.guards && s.dir.quarantines == map[] && MayAttempt(s, mine)
    ensures var t := Next(s, Release(g)); var u := Next(t, Attempt(mine, inode, budget));
      && t.dir == Dir(None, map[]) && t.guards == {} && t.live == s.live
      && u.guards == (if budget >= 2 then {Guard(mine.nonce, inode, mine.pid)} else {})
      && (mine.pid in u.live <==> budget >= 2)
  {
    OneGuard(s);
    assert HeldBy(s.dir, g);
    assert s.guards - {g} == {};
    AcquireExactly(Dir(None, map[]), mine, inode, ProbeOf(Next(s, Release(g))));
  }

  /** When the holder's process is gone its lock can be taken over; while `/proc` cannot be read it cannot. */
  lemma ExitFrees(s: System, g: Guard, mine: Record, inode: nat, budget: nat)
    requires Inv(s) && g in s.guards && s.dir.quarantines == map[] && MayAttempt(s, mine) && mine.pid != g.pid
    requires s.dir.lock.value.content.record.identities == mine.identities
    ensures var t := Next(s, Exit(g.pid)); var u := Next(t, Attempt(mine, inode, budget));
      && g.pid !in t.live && t.guards == {} && t.dir == s.dir
      && (g.pid !in s.unreadable ==> u.guards == (if budget >= 4 then {Guard(mine.nonce, inode, mine.pid)} else {}))
      && (g.pid in s.unreadable ==> u.guards == {} && u.dir == s.dir)
  {
    OneGuard(s);
    assert HeldBy(s.dir, g);
    var t := Next(s, Exit(g.pid));
    assert t.guards == {};
    AcquireExactly(t.dir, mine, inode, ProbeOf(t));
    hide Acquire;
    assert s.dir == Dir(Some(s.dir.lock.value), map[]);
  }
}
