/** Laws across the planner, the group claim, the group release and the finalizer. */
module GroupLaws {
  import opened Schema
  import opened KeyOrder
  import opened ResourceLocks
  import opened Leases
  import opened ParallelScheduler
  import opened GroupClaims
  import Cleanup

  // ---- Planner and claimer ----

  lemma PairKeys(norm: Normalizer, a: Candidate, b: Candidate, project: int)
    requires FilesNormalize(norm, a, project) && FilesNormalize(norm, b, project)
    ensures GroupNormalizes(norm, [a, b], project)
    ensures GroupKeys(norm, [a, b], project) == FileKeys(norm, a, project) + FileKeys(norm, b, project)
  {
    assert [a, b][..1] == [a] && [a][..0] == [];
    assert GroupKeys(norm, [a], project) == [] + FileKeys(norm, a, project);
  }

  lemma EntryKeysAreFileKeys(norm: Normalizer, t: Candidate, project: int)
    requires FilesNormalize(norm, t, project)
    ensures forall k :: k in EntryKeys(norm, Resources(t.files, project)) <==> k in FileKeys(norm, t, project)
  {
    var es := Entries(norm, Resources(t.files, project));
    assert forall i :: 0 <= i < |es| ==> Keys(es)[i] == es[i].key;
  }

  lemma PairClaimable(norm: Normalizer, db: Db, a: Candidate, b: Candidate, project: int, run: int, now: int)
    requires FilesNormalize(norm, a, project) && FilesNormalize(norm, b, project)
    ensures
      var ka, kb := FileKeys(norm, a, project), FileKeys(norm, b, project);
      GroupClaimable(norm, db, [a, b], project, run, now)
      <==> && a.id != b.id && Fresh(db, a) && Fresh(db, b) && project in db.projects
           && (a.files != [] || b.files != [] ==> RunOk(db, run))
           && NoDup(ka) && NoDup(kb) && (forall k :: k in kb ==> k !in ka)
           && forall k :: k in ka || k in kb ==> !Held(db.locks, k, now)
  {
    var ts := [a, b];
    assert ts[0] == a && ts[1] == b;
    PairKeys(norm, a, b, project);
    NoDupConcat(FileKeys(norm, a, project), FileKeys(norm, b, project));
  }

  /** A pair the planner finds compatible is claimable unless something else stands in the way: a
      file named twice within one task, a lease row, a foreign lock, a dangling reference. */
  lemma CompatiblePairClaimable(norm: Normalizer, db: Db, a: Candidate, b: Candidate, project: int, run: int, now: int)
    requires VerdictOf(norm, Resources(a.files, project), Resources(b.files, project)) == Compatible
    ensures ClaimAll(norm, db, [a, b], project, run, now).Some?
       <==> && a.id != b.id && Fresh(db, a) && Fresh(db, b) && project in db.projects
            && (a.files != [] || b.files != [] ==> RunOk(db, run))
            && FilesNormalize(norm, a, project) && FilesNormalize(norm, b, project)
            && NoDup(FileKeys(norm, a, project)) && NoDup(FileKeys(norm, b, project))
            && forall k :: k in FileKeys(norm, a, project) || k in FileKeys(norm, b, project) ==>
                 !Held(db.locks, k, now)
  {
    ClaimExact(norm, db, [a, b], project, run, now);
    PairClaimable(norm, db, a, b, project, run, now);
    EntryKeysAreFileKeys(norm, a, project);
    EntryKeysAreFileKeys(norm, b, project);
  }

  /** A pair the planner rejects, or cannot normalize, is never claimable. */
  lemma RejectedPairNotClaimable(norm: Normalizer, db: Db, a: Candidate, b: Candidate, project: int, run: int, now: int)
    requires VerdictOf(norm, Resources(a.files, project), Resources(b.files, project)) != Compatible
    ensures ClaimAll(norm, db, [a, b], project, run, now) == None
  {
    var ts := [a, b];
    ClaimExact(norm, db, ts, project, run, now);
    assert ts[0] == a && ts[1] == b;
    if FilesNormalize(norm, a, project) && FilesNormalize(norm, b, project) {
      PairClaimable(norm, db, a, b, project, run, now);
      EntryKeysAreFileKeys(norm, a, project);
      EntryKeysAreFileKeys(norm, b, project);
    }
  }

  // ---- Claim, then release ----

  /** The foreign key from locks to executions. */
  predicate ExecutionRefs(db: Db)
  {
    forall i :: 0 <= i < |db.locks| ==> 1 <= db.locks[i].holder.execution <= |db.executions|
  }

  lemma ClaimedTasks(norm: Normalizer, db: Db, ts: seq<Candidate>, project: int, now: int, c: Claim)
    requires Recorded(db, ts, project, now, c)
    ensures forall t :: t in TasksOf(c.db.executions, c.executions) <==> exists i :: 0 <= i < |ts| && ts[i].id == t
  {
    forall i | 0 <= i < |ts|
      ensures 1 <= c.executions[i] <= |c.db.executions| && c.db.executions[c.executions[i] - 1].task == ts[i].id
    {
      assert TaskRecorded(db, ts[i], project, now, c, i);
    }
  }

  /** Release by execution: exactly the new rows, which were all active. */
  lemma ReleaseOfGroup(before: seq<Lock>, supply: nat, rows: seq<Lock>, ks: seq<Key>, ids: seq<nat>, tokens: seq<nat>,
                       now: int, executions: set<int>, later: int, reason: string)
    requires GrantedOver(before, supply, rows, ks, ids, tokens, now)
    requires forall j :: 0 <= j < |before| ==> before[j].holder.execution !in executions
    requires forall j :: |before| <= j < |rows| ==> rows[j].holder.execution in executions
    requires forall k :: k in ks ==> !Held(before, k, now)
    ensures var after := ReleaseExecutions(rows, executions, later, reason);
            && (forall k :: k in ks ==> Unlocked(after, k))
            && (forall i :: 0 <= i < |before| ==> after[i] == OldRow(before[i], ks, now))
            && (forall j :: |before| <= j < |rows| ==> after[j] == ReleaseRow(rows[j], later, reason))
  {
    var after := ReleaseExecutions(rows, executions, later, reason);
    forall j | 0 <= j < |rows|
      ensures after[j] == if j < |before| then OldRow(before[j], ks, now) else ReleaseRow(rows[j], later, reason)
    {
      if j < |before| {
        assert rows[j] == OldRow(before[j], ks, now);
      } else {
        var m := j - |before|;
        assert GroupRow(ks, rows[|before| + m], ids[m], tokens[m], now);
      }
    }
  }

  /** The group's executions are new, and every new row names one of them. */
  lemma GroupExecutions(norm: Normalizer, db: Db, ts: seq<Candidate>, project: int, run: int, now: int, c: Claim)
    requires GroupNormalizes(norm, ts, project) && Recorded(db, ts, project, now, c)
    requires LocksClaimed(norm, db, ts, project, run, now, c) && ExecutionRefs(db)
    ensures forall j :: 0 <= j < |db.locks| ==> db.locks[j].holder.execution !in IdSet(c.executions)
    ensures forall j :: |db.locks| <= j < |c.db.locks| ==> c.db.locks[j].holder.execution in IdSet(c.executions)
  {
    forall i | 0 <= i < |ts| ensures c.executions[i] > |db.executions| {
      assert TaskRecorded(db, ts[i], project, now, c, i);
    }
    forall j | |db.locks| <= j < |c.db.locks| ensures c.db.locks[j].holder.execution in IdSet(c.executions) {
      var i :| 0 <= i < |ts| && Holders(ts, project, run, c)[i] == c.db.locks[j].holder;
      assert c.db.locks[j].holder.execution == c.executions[i];
    }
  }

  /** Claim followed by release: every key of the group is free, other rows are untouched except for
      the stale rows the claim expired. */
  lemma ReleaseFreesLocks(norm: Normalizer, db: Db, ts: seq<Candidate>, project: int, run: int, now: int, c: Claim,
                          later: int, reason: string)
    requires ExecutionRefs(db) && ClaimAll(norm, db, ts, project, run, now) == Some(c)
    ensures GroupNormalizes(norm, ts, project)
    ensures var d, ks := Released(c.db, c.executions, later, reason), GroupKeys(norm, ts, project);
            && |d.locks| == |c.db.locks| >= |db.locks|
            && (forall k :: k in ks ==> Unlocked(d.locks, k))
            && (forall i :: 0 <= i < |db.locks| ==> d.locks[i] == OldRow(db.locks[i], ks, now))
            && (forall j :: |db.locks| <= j < |d.locks| ==> d.locks[j] == ReleaseRow(c.db.locks[j], later, reason))
  {
    ClaimExact(norm, db, ts, project, run, now);
    ClaimRecords(norm, db, ts, project, run, now, c);
    ClaimLocks(norm, db, ts, project, run, now, c);
    GroupExecutions(norm, db, ts, project, run, now, c);
    ReleaseOfGroup(db.locks, db.supply, c.db.locks, GroupKeys(norm, ts, project), c.lockIds, c.lockTokens, now,
                   IdSet(c.executions), later, reason);
  }

  /** Claim followed by release: every task can be claimed again by the UPSERT, at any time, but by
      no group claim, because its lease row stays; other leases are untouched. */
  lemma ReleaseFreesTasks(norm: Normalizer, db: Db, ts: seq<Candidate>, project: int, run: int, now: int, c: Claim,
                          later: int, reason: string, i: nat)
    requires ClaimAll(norm, db, ts, project, run, now) == Some(c) && i < |ts|
    ensures var d := Released(c.db, c.executions, later, reason);
            && (forall t :: t in db.leases ==> t in d.leases && d.leases[t] == db.leases[t])
            && (forall time :: Claimable(d, ts[i].id, time))
            && (forall group, p, r, time :: ts[i] in group ==> !GroupClaimable(norm, d, group, p, r, time))
  {
    ClaimExact(norm, db, ts, project, run, now);
    ClaimRecords(norm, db, ts, project, run, now, c);
    ClaimedTasks(norm, db, ts, project, now, c);
    var d := Released(c.db, c.executions, later, reason);
    assert TaskRecorded(db, ts[i], project, now, c, i);
    assert Fresh(db, ts[i]);
    assert ts[i].id in TasksOf(c.db.executions, c.executions);
    assert d.leases[ts[i].id].status == LeaseReleased;
    assert forall j :: 0 <= j < |ts| ==> Fresh(db, ts[j]);
  }

  /** A claimed task is kept from every worker for an hour, unless it is released before, and from every
      other group for good. */
  lemma ClaimKeepsTasks(norm: Normalizer, db: Db, ts: seq<Candidate>, project: int, run: int, now: int, c: Claim,
                        i: nat, later: int)
    requires ClaimAll(norm, db, ts, project, run, now) == Some(c) && i < |ts|
    ensures Claimable(c.db, ts[i].id, later) <==> later >= now + 3600
    ensures forall group, p, r :: ts[i] in group ==> ClaimAll(norm, c.db, group, p, r, later) == None
  {
    ClaimExact(norm, db, ts, project, run, now);
    ClaimRecords(norm, db, ts, project, run, now, c);
    assert TaskRecorded(db, ts[i], project, now, c, i) && Fresh(db, ts[i]);
    forall group, p, r | ts[i] in group ensures ClaimAll(norm, c.db, group, p, r, later) == None {
      ClaimExact(norm, c.db, group, p, r, later);
      assert !Fresh(c.db, ts[i]);
    }
  }

  // ---- Finalizing one worker of a group ----

  /** Releasing by the group's ids and tokens: exactly the new rows of that worker. */
  lemma ListedOfWorker(before: seq<Lock>, supply: nat, rows: seq<Lock>, ks: seq<Key>, ids: seq<nat>, tokens: seq<nat>,
                       now: int, worker: nat, execution: int, later: int)
    requires GrantedOver(before, supply, rows, ks, ids, tokens, now) && IdsDrawn(before, supply)
    requires forall j :: 0 <= j < |before| ==> before[j].holder.execution != execution
    ensures var after := Cleanup.LocksAfter(rows, ids, tokens, worker, execution, later);
            forall j :: 0 <= j < |rows| ==>
              if j >= |before| && rows[j].holder.worker == worker
              then IsActive(rows[j]) && after[j].status == LockReleased else after[j] == rows[j]
  {
    var after := Cleanup.LocksAfter(rows, ids, tokens, worker, execution, later);
    forall j | 0 <= j < |rows|
      ensures if j >= |before| && rows[j].holder.worker == worker
              then IsActive(rows[j]) && after[j].status == LockReleased else after[j] == rows[j]
    {
      if j < |before| {
        assert rows[j] == OldRow(before[j], ks, now);
      } else {
        var m := j - |before|;
        assert GroupRow(ks, rows[|before| + m], ids[m], tokens[m], now);
      }
    }
  }

  /** Given the lock ids and tokens of the whole group, finalizing one worker releases that worker's
      locks and no other, and doing it again releases nothing. */
  lemma FinalizeOneWorker(norm: Normalizer, db: Db, ts: seq<Candidate>, project: int, run: int, now: int, c: Claim,
                          i: nat, later: int)
    requires IdsDrawn(db.locks, db.supply) && ExecutionRefs(db)
    requires ClaimAll(norm, db, ts, project, run, now) == Some(c) && i < |ts|
    ensures |c.workers| == |c.executions| == |ts|
    ensures var rows := Cleanup.LocksAfter(c.db.locks, c.lockIds, c.lockTokens, c.workers[i], c.executions[i], later);
            && (forall j :: 0 <= j < |rows| ==>
                  if j >= |db.locks| && c.db.locks[j].holder.worker == c.workers[i]
                  then IsActive(c.db.locks[j]) && rows[j].status == LockReleased
                  else rows[j] == c.db.locks[j])
            && Cleanup.LocksAfter(rows, c.lockIds, c.lockTokens, c.workers[i], c.executions[i], later) == rows
  {
    ClaimExact(norm, db, ts, project, run, now);
    ClaimRecords(norm, db, ts, project, run, now, c);
    ClaimLocks(norm, db, ts, project, run, now, c);
    assert TaskRecorded(db, ts[i], project, now, c, i);
    ListedOfWorker(db.locks, db.supply, c.db.locks, GroupKeys(norm, ts, project), c.lockIds, c.lockTokens, now,
                   c.workers[i], c.executions[i], later);
    ReleaseIsIdempotent(c.db.locks, c.lockIds, c.lockTokens, c.workers[i], c.executions[i], later);
  }

  lemma ReleaseIsIdempotent(rows: seq<Lock>, ids: seq<nat>, tokens: seq<nat>, worker: nat, execution: int, now: int)
    ensures var after := Cleanup.LocksAfter(rows, ids, tokens, worker, execution, now);
            Cleanup.LocksAfter(after, ids, tokens, worker, execution, now) == after
  {
  }
}
