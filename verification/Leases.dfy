/** Task leases: the two ways to claim a task, and the release by task id. */
module Leases {
  import opened Schema

  const LEASE_SECONDS := 3600

  /** An active lease that has not expired; a lease without an expiry never counts. */
  predicate Leased(leases: map<int, Lease>, task: int, now: int)
  {
    && task in leases && leases[task].status == LeaseActive
    && leases[task].expires.Some? && leases[task].expires.value > now
  }

  predicate IsPending(tasks: map<int, Task>, task: int)
  {
    task in tasks && tasks[task].status == Pending
  }

  function NewLease(worker: nat, now: int, seconds: int): Lease
  {
    Lease(worker, LeaseActive, now, Some(now + seconds), None)
  }

  /** ResultCollector.claim_task succeeds on a pending task that nobody validly leases. */
  predicate Claimable(db: Db, task: int, now: int)
  {
    IsPending(db.tasks, task) && !Leased(db.leases, task, now)
  }

  /** Release the active leases of some tasks. */
  function ReleaseLeases(leases: map<int, Lease>, tasks: set<int>, now: int): (r: map<int, Lease>)
    ensures r.Keys == leases.Keys
  {
    map t | t in leases ::
      if t in tasks && leases[t].status == LeaseActive
      then leases[t].(status := LeaseReleased, releasedAt := Some(now)) else leases[t]
  }

  /** The single UPSERT: insert when the task has no row; otherwise the conflict clause rewrites a
      row that is inactive, expired or without an expiry. */
  method CollectorClaim(db: Database, task: int, worker: nat, now: int, seconds: int) returns (ok: bool)
    modifies db`leases
    ensures ok <==> Claimable(old(db.State()), task, now)
    ensures db.leases == if ok then old(db.leases)[task := NewLease(worker, now, seconds)] else old(db.leases)
  {
    if !(IsPending(db.tasks, task) && !Leased(db.leases, task, now)) {
      return false;
    }
    if task !in db.leases {
      db.leases := db.leases[task := NewLease(worker, now, seconds)];
      return true;
    }
    var row := db.leases[task];
    if row.status != LeaseActive || row.expires == None || row.expires.value <= now {
      db.leases := db.leases[task := row.(worker := worker, status := LeaseActive, lockedAt := now,
                                          expires := Some(now + seconds), releasedAt := None)];
      return true;
    }
    return false;
  }

  /** TaskScheduler.claim_task: a plain INSERT, so UNIQUE(task_id) refuses any task that has a row. */
  method SchedulerClaim(db: Database, task: int, worker: nat, now: int, seconds: Option<int>) returns (ok: bool)
    modifies db`leases
    ensures ok <==> IsPending(db.tasks, task) && task !in old(db.leases)
    ensures db.leases == if ok
                         then old(db.leases)[task := NewLease(worker, now, LeaseSeconds(seconds))]
                         else old(db.leases)
  {
    if Leased(db.leases, task, now) {
      return false;
    }
    if !IsPending(db.tasks, task) {
      return false;
    }
    if task in db.leases {
      return false;    // sqlite3.IntegrityError
    }
    db.leases := db.leases[task := NewLease(worker, now, LeaseSeconds(seconds))];
    return true;
  }

  function LeaseSeconds(seconds: Option<int>): int
  {
    if seconds.Some? && seconds.value != 0 then seconds.value else LEASE_SECONDS
  }

  method ReleaseLease(db: Database, task: int, now: int)
    modifies db`leases
    ensures db.leases == ReleaseLeases(old(db.leases), {task}, now)
  {
    if task in db.leases && db.leases[task].status == LeaseActive {
      db.leases := db.leases[task := db.leases[task].(status := LeaseReleased, releasedAt := Some(now))];
    }
  }

  /** A claim keeps everyone else out exactly until it expires; its release lets them in at once. */
  lemma ClaimExcludesUntilExpiry(db: Db, task: int, worker: nat, now: int, seconds: int, later: int)
    requires IsPending(db.tasks, task)
    ensures var claimed := db.(leases := db.leases[task := NewLease(worker, now, seconds)]);
            && (Claimable(claimed, task, later) <==> later >= now + seconds)
            && (forall at :: Claimable(claimed.(leases := ReleaseLeases(claimed.leases, {task}, later)), task, at))
            && (forall other :: other != task ==> (Claimable(claimed, other, later) <==> Claimable(db, other, later)))
  {
  }

  /** Without a term, or with none, a scheduler's claim lasts an hour, and no other row changes. */
  lemma ClaimLastsItsTerm(db: Db, task: int, worker: nat, now: int, given: Option<int>, later: int)
    requires IsPending(db.tasks, task)
    ensures var leases := db.leases[task := NewLease(worker, now, LeaseSeconds(given))];
            && leases[task].worker == worker && leases[task].lockedAt == now && leases[task].releasedAt == None
            && (Claimable(db.(leases := leases), task, later)
                <==> later >= now + if given in {None, Some(0)} then 3600 else given.value)
  {
    ClaimExcludesUntilExpiry(db, task, worker, now, LeaseSeconds(given), later);
  }
}
