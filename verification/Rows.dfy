/** Conditions on event logs, leases and queues as the queries state them, over all rows of a table. */
module Rows {
  import opened Prelude
  import opened Tables
  import opened Sql

  /** The row that `ORDER BY seq DESC LIMIT 1` gives. */
  ghost predicate LastEvent(events: map<EventKey, Event>, task: string, n: int) {
    EventKey(task, n) in events && forall k :: k in events && k.task == task ==> k.index <= n
  }

  /** The row after it: nothing of the log lies between `m` and `n`. */
  ghost predicate EventBefore(events: map<EventKey, Event>, task: string, n: int, m: int) {
    EventKey(task, m) in events && m < n && forall k :: k in events && k.task == task ==> k.index <= m || n <= k.index
  }

  ghost predicate TaskEnded(events: map<EventKey, Event>, task: string) {
    exists n :: LastEvent(events, task, n) && events[EventKey(task, n)].status !in {Queued, Dispatched, Running}
  }

  lemma LastEventExactly(events: map<EventKey, Event>, task: string, n: int)
    ensures LatestSeq(events, task) == Some(n) <==> LastEvent(events, task, n)
  {
  }

  lemma EventBeforeExactly(events: map<EventKey, Event>, task: string, n: int, m: int)
    ensures SeqBefore(events, task, n) == Some(m) <==> EventBefore(events, task, n, m)
  {
  }

  /** `status IN ('completed','failed','timed_out','cancelled')`. */
  lemma TerminalExactly(status: Status)
    ensures Terminal(status) <==> status !in {Queued, Dispatched, Running}
  {
    match status {
      case Queued =>
      case Dispatched =>
      case Running =>
      case Completed =>
      case Failed =>
      case TimedOut =>
      case Cancelled =>
    }
  }

  lemma FinishedExactly(events: map<EventKey, Event>, task: string)
    ensures Finished(events, task) <==> TaskEnded(events, task)
  {
    hide LatestSeq;
    var at := LatestSeq(events, task);
    if at.Some? {
      LastEventExactly(events, task, at.value);
      var status := events[EventKey(task, at.value)].status;
      TerminalExactly(status);
      if TaskEnded(events, task) {
        var n :| LastEvent(events, task, n) && events[EventKey(task, n)].status !in {Queued, Dispatched, Running};
        assert n == at.value;
      }
    }
  }

  lemma AlignedExactly(db: Store, task: string)
    ensures Aligned(db, task) <==> task in db.tasks && LastEvent(db.events, task, db.tasks[task].version + 1)
  {
    hide LatestSeq;
    if task in db.tasks {
      LastEventExactly(db.events, task, db.tasks[task].version + 1);
    }
  }

  /** The three planner queries, row by row. */
  lemma PlannerExactly(db: Store)
    ensures forall t :: t in Unfinished(db) <==> t in db.tasks && !TaskEnded(db.events, t)
    ensures forall d :: d in Unacknowledged(db) <==> d in db.deliveries && db.deliveries[d].acknowledgedAt == None
    ensures forall d :: d in Awaiting(db) <==> d in db.deliveries && db.deliveries[d].acknowledgedAt != None && !TaskEnded(db.events, db.deliveries[d].task)
  {
    hide Finished, TaskEnded;
    forall t
      ensures Finished(db.events, t) <==> TaskEnded(db.events, t)
    {
      FinishedExactly(db.events, t);
    }
  }

  ghost function OfTask(task: string): (string, Lease) -> bool {
    (k: string, l: Lease) => l.task == task
  }

  ghost function OfTaskIn(task: string, state: LeaseState): (string, Lease) -> bool {
    (k: string, l: Lease) => l.task == task && l.state == state
  }

  ghost function Working(task: string): (string, Work) -> bool {
    (k: string, w: Work) => w.task == task
  }

  /** One lease of the task, and it is in this state. */
  ghost predicate OnlyLease(db: Store, task: string, state: LeaseState) {
    Count(db.leases, OfTask(task)) == 1 && Count(db.leases, OfTaskIn(task, state)) == 1
  }

  lemma LeaseCount(db: Store, task: string)
    ensures Where(db.leases, OfTask(task)) == LeasesOf(db, task)
  {
  }

  lemma OnlyLeaseExactly(db: Store, task: string, state: LeaseState)
    ensures OnlyLease(db, task, state) <==> |LeasesOf(db, task)| == 1 && db.leases[Only(LeasesOf(db, task))].state == state
  {
    LeaseCount(db, task);
    if |LeasesOf(db, task)| == 1 {
      var k := Only(LeasesOf(db, task));
      assert k in LeasesOf(db, task);
      assert Where(db.leases, OfTaskIn(task, state)) <= LeasesOf(db, task);
      assert k in Where(db.leases, OfTaskIn(task, state)) <==> db.leases[k].state == state;
      assert Where(db.leases, OfTaskIn(task, state)) == if db.leases[k].state == state then {k} else {};
    }
  }

  ghost predicate NothingWaits(db: Store, task: string) {
    Count(db.queue, Working(task)) == 0 && task !in db.continuations
  }

  lemma NothingWaitsExactly(db: Store, task: string)
    ensures NothingWaits(db, task) <==> !HasWork(db, task) && task !in db.continuations
  {
    Nothing(db.queue, Working(task));
  }
}
