/** The sweep that runs at startup: four bulk updates on locks, leases and runs. */
module Recovery {
  import opened Schema
  import opened ResourceLocks
  import opened Runs
  import LockProtocol

  const STALE_AFTER := 300

  /** Only a lease whose expiry lies strictly in the past; one without an expiry stays. */
  predicate Orphaned(l: Lease, now: int)
  {
    l.status == LeaseActive && l.expires.Some? && l.expires.value < now
  }

  function SweepLeases(leases: map<int, Lease>, now: int): (r: map<int, Lease>)
  {
    map t | t in leases ::
      if Orphaned(leases[t], now) then leases[t].(status := LeaseReleased, releasedAt := Some(now)) else leases[t]
  }

  function SweepRuns(runs: seq<Run>, now: int): (r: seq<Run>)
    ensures |r| == |runs|
  {
    Update(runs, (r: Run) => Stealable(r, now, STALE_AFTER),
           (r: Run) => r.(status := RunBlocked, reason := "worker_lost_on_restart", finishedAt := Some(now)))
  }

  function Living(runs: seq<Run>): (ids: set<int>)
    ensures forall run :: run in ids <==> Exists(runs, run) && IsLive(runs[run - 1].status)
  {
    var ids := set i | 0 <= i < |runs| && IsLive(runs[i].status) :: i + 1;
    assert forall run :: Exists(runs, run) && IsLive(runs[run - 1].status) ==> run in ids;
    ids
  }

  function Swept(db: Db, now: int): Db
  {
    var runs := SweepRuns(db.runs, now);
    db.(locks := ReleaseOrphans(CleanupRows(db.locks, now), Living(runs), now),
        leases := SweepLeases(db.leases, now), runs := runs)
  }

  method RecoverOnStartup(db: Database, now: int)
    modifies db
    ensures db.State() == Swept(old(db.State()), now)
  {
    var _ := CleanupExpired(db, now);
    db.leases := SweepLeases(db.leases, now);
    db.runs := SweepRuns(db.runs, now);
    db.locks := ReleaseOrphans(db.locks, Living(db.runs), now);
  }

  /** The run is live and its heartbeat is at most 300 seconds old. */
  predicate RunAlive(runs: seq<Run>, run: int, now: int)
  {
    && Exists(runs, run) && IsLive(runs[run - 1].status)
    && runs[run - 1].heartbeat.Some? && runs[run - 1].heartbeat.value >= now - 300
  }

  /** The sweep is exact: what stays active is what was unexpired and belongs to a run that is alive,
      and it stays as it was; an overdue lock expires, any other is released; live runs that are not alive
      are blocked, leases past their expiry released, and nothing else changes. */
  lemma SweepExact(db: Db, now: int)
    ensures var d := Swept(db, now);
            && |d.locks| == |db.locks| && |d.runs| == |db.runs| && d.leases.Keys == db.leases.Keys
            && (forall i :: 0 <= i < |db.locks| ==>
                  (IsActive(d.locks[i]) <==>
                     && IsActive(db.locks[i]) && db.locks[i].expires > now
                     && RunAlive(db.runs, db.locks[i].holder.run, now))
                  && (IsActive(d.locks[i]) || !IsActive(db.locks[i]) ==> d.locks[i] == db.locks[i])
                  && (IsActive(db.locks[i]) && !IsActive(d.locks[i]) ==>
                        LockProtocol.EndedAs(db.locks[i], d.locks[i],
                                             if db.locks[i].expires <= now then LockExpired else LockReleased, now)))
            && (forall i :: 0 <= i < |db.runs| ==>
                  (IsLive(d.runs[i].status) <==> RunAlive(db.runs, i + 1, now))
                  && (IsLive(d.runs[i].status) || !IsLive(db.runs[i].status) ==> d.runs[i] == db.runs[i])
                  && (IsLive(db.runs[i].status) && !IsLive(d.runs[i].status) ==>
                        d.runs[i] == db.runs[i].(status := RunBlocked, reason := d.runs[i].reason,
                                                 finishedAt := Some(now))))
            && (forall t :: t in db.leases ==>
                  var l := db.leases[t];
                  d.leases[t] == if l.status == LeaseActive && l.expires.Some? && l.expires.value < now
                                 then l.(status := LeaseReleased, releasedAt := Some(now)) else l)
            && d == db.(locks := d.locks, runs := d.runs, leases := d.leases)
  {
  }

  /** A second sweep at the same instant changes nothing. */
  lemma SweepIdempotent(db: Db, now: int)
    ensures Swept(Swept(db, now), now) == Swept(db, now)
  {
  }

  /** The sweep keeps the constraints of the lock table and of the run table. */
  lemma SweepKeepsConstraints(db: Db, now: int)
    requires LockProtocol.Valid(LockProtocol.LockTable(db.locks, db.supply)) && OneLive(db.runs)
    ensures var d := Swept(db, now);
            LockProtocol.Valid(LockProtocol.LockTable(d.locks, d.supply)) && OneLive(d.runs)
  {
  }

  /** Recovery frees what dead runs held: afterwards a well-formed request is refused only for a key
      that an unexpired lock of a run that is alive holds. */
  lemma SweepFreesDeadRuns(db: Db, norm: Normalizer, reqs: seq<Resource>, now: int)
    requires reqs != [] && AllNormalize(norm, reqs)
    requires var ks := KeyOrder.Keys(Entries(norm, reqs)); NoDup(ks) && forall k :: k in ks ==> WellTyped(k)
    ensures Acquirable(norm, reqs, Swept(db, now).locks, true, now)
       <==> forall k :: k in KeyOrder.Keys(Entries(norm, reqs)) ==> !HeldByLivingRun(db, k, now)
  {
  }

  predicate HeldByLivingRun(db: Db, k: Key, now: int)
  {
    exists i :: 0 <= i < |db.locks| && IsActive(db.locks[i]) && db.locks[i].key == k && db.locks[i].expires > now
                && RunAlive(db.runs, db.locks[i].holder.run, now)
  }
}
