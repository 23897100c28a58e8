/** When a group claim succeeds, what it leaves behind, and how its release undoes it. */
module GroupClaims {
  import opened Schema
  import opened KeyOrder
  import opened ResourceLocks
  import opened Leases
  import opened ParallelScheduler

  predicate FilesNormalize(norm: Normalizer, t: Candidate, project: int)
  {
    AllNormalize(norm, Resources(t.files, project))
  }

  predicate GroupNormalizes(norm: Normalizer, ts: seq<Candidate>, project: int)
  {
    forall i :: 0 <= i < |ts| ==> FilesNormalize(norm, ts[i], project)
  }

  /** The keys a task locks, in the order of its files. */
  function FileKeys(norm: Normalizer, t: Candidate, project: int): (ks: seq<Key>)
    requires FilesNormalize(norm, t, project)
    ensures |ks| == |t.files|
    ensures forall k :: k in ks ==> WellTyped(k)
  {
    Keys(Entries(norm, Resources(t.files, project)))
  }

  function GroupKeys(norm: Normalizer, ts: seq<Candidate>, project: int): seq<Key>
    requires GroupNormalizes(norm, ts, project)
  {
    if ts == [] then [] else GroupKeys(norm, ts[..|ts| - 1], project) + FileKeys(norm, ts[|ts| - 1], project)
  }

  predicate DistinctTasks(ts: seq<Candidate>)
  {
    forall i, j :: 0 <= i < j < |ts| ==> ts[i].id != ts[j].id
  }

  predicate Fresh(db: Db, t: Candidate)
  {
    IsPending(db.tasks, t.id) && t.id !in db.leases
  }

  predicate RunOk(db: Db, run: int) { 1 <= run <= |db.runs| }

  /** Exactly what claim_task_group demands of the tables. */
  predicate GroupClaimable(norm: Normalizer, db: Db, ts: seq<Candidate>, project: int, run: int, now: int)
  {
    && (forall i :: 0 <= i < |ts| ==> Fresh(db, ts[i]))
    && DistinctTasks(ts)
    && (ts != [] ==> project in db.projects)
    && (forall i :: 0 <= i < |ts| && ts[i].files != [] ==> RunOk(db, run))
    && GroupNormalizes(norm, ts, project)
    && var ks := GroupKeys(norm, ts, project);
       NoDup(ks) && forall k :: k in ks ==> !Held(db.locks, k, now)
  }

  /** The part of GroupClaimable that the last task of a group adds. */
  predicate LastClaimable(norm: Normalizer, db: Db, front: seq<Candidate>, t: Candidate, project: int, run: int,
                          now: int)
    requires GroupNormalizes(norm, front, project)
  {
    && Fresh(db, t) && (forall i :: 0 <= i < |front| ==> front[i].id != t.id)
    && project in db.projects && (t.files != [] ==> RunOk(db, run))
    && FilesNormalize(norm, t, project)
    && var ks := FileKeys(norm, t, project);
       NoDup(ks) && forall k :: k in ks ==> !Held(db.locks, k, now) && k !in GroupKeys(norm, front, project)
  }

  lemma NoDupConcat<T>(a: seq<T>, b: seq<T>)
    ensures NoDup(a + b) <==> NoDup(a) && NoDup(b) && forall x :: x in b ==> x !in a
  {
    var s := a + b;
    if NoDup(s) {
      assert forall i :: 0 <= i < |a| ==> s[i] == a[i];
      assert forall i :: 0 <= i < |b| ==> s[|a| + i] == b[i];
    }
    if NoDup(a) && NoDup(b) && forall x :: x in b ==> x !in a {
      forall i, j | 0 <= i < j < |s| ensures s[i] != s[j] {
        if j >= |a| {
          assert s[j] in b;
          assert i < |a| ==> s[i] in a;
        }
      }
    }
  }

  lemma GroupClaimableSnoc(norm: Normalizer, db: Db, ts: seq<Candidate>, project: int, run: int, now: int)
    requires ts != []
    ensures var front, t := ts[..|ts| - 1], ts[|ts| - 1];
            GroupClaimable(norm, db, ts, project, run, now)
            <==> GroupClaimable(norm, db, front, project, run, now)
                 && LastClaimable(norm, db, front, t, project, run, now)
  {
    var front, t := ts[..|ts| - 1], ts[|ts| - 1];
    assert ts == front + [t];
    if GroupNormalizes(norm, front, project) && FilesNormalize(norm, t, project) {
      assert GroupNormalizes(norm, ts, project);
      NoDupConcat(GroupKeys(norm, front, project), FileKeys(norm, t, project));
    }
  }

  // ---- One round ----

  function NextHolder(c: Claim, t: Candidate, project: int, run: int): Holder
  {
    Holder(project, t.id, |c.db.executions| + 1, run, c.db.supply)
  }

  function SortedEntries(norm: Normalizer, t: Candidate, project: int): seq<Entry>
    requires FilesNormalize(norm, t, project)
  {
    Sort(Entries(norm, Resources(t.files, project)))
  }

  /** What a successful round leaves, uniformly for tasks with and without files. */
  function Rounded(norm: Normalizer, c: Claim, t: Candidate, project: int, run: int, now: int): Claim
    requires FilesNormalize(norm, t, project)
  {
    var e := Claim(Enrolled(c.db, t.id, project, now), c.workers + [c.db.supply],
                   c.executions + [|c.db.executions| + 1], c.lockIds, c.lockTokens);
    WithLocks(e, SortedEntries(norm, t, project), NextHolder(c, t, project, run), now)
  }

  /** What a round demands of the tables it finds. */
  predicate Roundable(norm: Normalizer, c: Claim, t: Candidate, project: int, run: int, now: int)
  {
    && Fresh(c.db, t) && project in c.db.projects && (t.files != [] ==> RunOk(c.db, run))
    && FilesNormalize(norm, t, project)
    && var ks := FileKeys(norm, t, project);
       NoDup(ks) && forall k :: k in ks ==> !Held(c.db.locks, k, now)
  }

  lemma RoundEffect(norm: Normalizer, c: Claim, t: Candidate, project: int, run: int, now: int)
    ensures var r := ClaimOne(norm, c, t, project, run, now);
            if Roundable(norm, c, t, project, run, now) then r == Some(Rounded(norm, c, t, project, run, now))
            else r == None
  {
    if t.files == [] {
      var d := Enrolled(c.db, t.id, project, now);
      assert SortedEntries(norm, t, project) == [];
      assert c.lockIds + DrawnIds(0, d.supply) == c.lockIds && c.lockTokens + DrawnTokens(0, d.supply) == c.lockTokens;
      assert GrantedRows(d.locks, [], NextHolder(c, t, project, run), d.supply, now, GROUP_LOCK_TTL) == d.locks;
    }
  }

  lemma {:induction false} SortedKeys(norm: Normalizer, t: Candidate, project: int)
    requires FilesNormalize(norm, t, project)
    ensures var es := SortedEntries(norm, t, project);
            |es| == |t.files| && forall k :: k in KeySet(es) <==> k in FileKeys(norm, t, project)
  {
    var es := SortedEntries(norm, t, project);
    PermutedKeys(Entries(norm, Resources(t.files, project)), es);
    assert forall i :: 0 <= i < |es| ==> Keys(es)[i] == es[i].key;
    assert forall k :: k in KeySet(es) <==> k in Keys(es);
  }

  /** After a grant exactly the earlier keys and the granted keys are held. */
  lemma HeldAfterGrant(rows: seq<Lock>, es: seq<Entry>, who: Holder, base: nat, now: int, k: Key)
    ensures Held(GrantedRows(rows, es, who, base, now, GROUP_LOCK_TTL), k, now)
       <==> Held(rows, k, now) || k in KeySet(es)
  {
    var all := GrantedRows(rows, es, who, base, now, GROUP_LOCK_TTL);
    assert forall i :: 0 <= i < |rows| && rows[i].expires > now ==> all[i] == rows[i];
    assert forall i :: 0 <= i < |rows| && rows[i].expires <= now ==> all[i].expires <= now;
    assert forall m :: 0 <= m < |es| ==>
        all[|rows| + m] == NewRow(es[m], who, base + 2 * m, now, GROUP_LOCK_TTL);
    if k in KeySet(es) {
      var m :| 0 <= m < |es| && es[m].key == k;
      assert all[|rows| + m].expires > now;
    }
    if Held(rows, k, now) {
      var i :| 0 <= i < |rows| && IsActive(rows[i]) && rows[i].key == k && rows[i].expires > now;
      assert all[i] == rows[i];
    }
  }

  // ---- Exactness ----

  /** The tables after a claim, as far as the next round can tell. */
  ghost predicate Advanced(norm: Normalizer, db: Db, ts: seq<Candidate>, project: int, now: int, c: Claim)
    requires GroupNormalizes(norm, ts, project)
  {
    && c.db.tasks == db.tasks && c.db.projects == db.projects && c.db.runs == db.runs
    && (forall t :: t in c.db.leases <==> t in db.leases || exists i :: 0 <= i < |ts| && ts[i].id == t)
    && (forall k :: Held(c.db.locks, k, now) <==> Held(db.locks, k, now) || k in GroupKeys(norm, ts, project))
  }

  lemma RoundVerdict(norm: Normalizer, db: Db, front: seq<Candidate>, t: Candidate, c: Claim, project: int, run: int,
                     now: int)
    requires GroupNormalizes(norm, front, project) && Advanced(norm, db, front, project, now, c)
    ensures Roundable(norm, c, t, project, run, now) <==> LastClaimable(norm, db, front, t, project, run, now)
  {
  }

  lemma RoundAdvances(norm: Normalizer, db: Db, front: seq<Candidate>, t: Candidate, c: Claim, project: int, run: int,
                      now: int)
    requires GroupNormalizes(norm, front, project) && Advanced(norm, db, front, project, now, c)
    requires FilesNormalize(norm, t, project) && GroupNormalizes(norm, front + [t], project)
    ensures Advanced(norm, db, front + [t], project, now, Rounded(norm, c, t, project, run, now))
  {
    var ts := front + [t];
    RoundHolds(norm, c, t, project, run, now);
    assert ts[..|ts| - 1] == front;
    assert ts[|front|].id == t.id;
    assert forall i :: 0 <= i < |front| ==> ts[i] == front[i];
  }

  lemma RoundHolds(norm: Normalizer, c: Claim, t: Candidate, project: int, run: int, now: int)
    requires FilesNormalize(norm, t, project)
    ensures forall k :: Held(Rounded(norm, c, t, project, run, now).db.locks, k, now)
                        <==> Held(c.db.locks, k, now) || k in FileKeys(norm, t, project)
  {
    var es := SortedEntries(norm, t, project);
    SortedKeys(norm, t, project);
    forall k ensures Held(Rounded(norm, c, t, project, run, now).db.locks, k, now)
                     <==> Held(c.db.locks, k, now) || k in FileKeys(norm, t, project)
    {
      HeldAfterGrant(c.db.locks, es, NextHolder(c, t, project, run), c.db.supply + 1, now, k);
    }
  }

  /** A round after an exact claim succeeds exactly when the group with one more task is claimable. */
  lemma RoundExact(norm: Normalizer, db: Db, front: seq<Candidate>, t: Candidate, c: Claim, project: int, run: int,
                   now: int)
    requires GroupNormalizes(norm, front, project) && Advanced(norm, db, front, project, now, c)
    ensures ClaimOne(norm, c, t, project, run, now).Some? <==> LastClaimable(norm, db, front, t, project, run, now)
    ensures ClaimOne(norm, c, t, project, run, now).Some? ==>
              && GroupNormalizes(norm, front + [t], project)
              && Advanced(norm, db, front + [t], project, now, ClaimOne(norm, c, t, project, run, now).value)
  {
    RoundEffect(norm, c, t, project, run, now);
    RoundVerdict(norm, db, front, t, c, project, run, now);
    if Roundable(norm, c, t, project, run, now) {
      assert GroupNormalizes(norm, front + [t], project);
      RoundAdvances(norm, db, front, t, c, project, run, now);
    }
  }

  /** claim_task_group succeeds exactly when the tasks are distinct, pending and without any lease
      row, and their normalized keys are pairwise distinct and not held by an unexpired lock. */
  lemma {:induction false} ClaimExact(norm: Normalizer, db: Db, ts: seq<Candidate>, project: int, run: int, now: int)
    ensures ClaimAll(norm, db, ts, project, run, now).Some? <==> GroupClaimable(norm, db, ts, project, run, now)
    ensures ClaimAll(norm, db, ts, project, run, now).Some? ==>
              Advanced(norm, db, ts, project, now, ClaimAll(norm, db, ts, project, run, now).value)
  {
    if ts != [] {
      var front, t := ts[..|ts| - 1], ts[|ts| - 1];
      assert ts == front + [t];
      ClaimExact(norm, db, front, project, run, now);
      GroupClaimableSnoc(norm, db, ts, project, run, now);
      var c := ClaimAll(norm, db, front, project, run, now);
      if c.Some? {
        RoundExact(norm, db, front, t, c.value, project, run, now);
      }
    }
  }

  // ---- What a claim leaves in the lease and execution tables ----

  predicate Recorded(db: Db, ts: seq<Candidate>, project: int, now: int, c: Claim)
  {
    && c.db == db.(locks := c.db.locks, leases := c.db.leases, executions := c.db.executions, supply := c.db.supply)
    && |c.workers| == |c.executions| == |ts| && c.db.supply >= db.supply
    && |c.db.executions| == |db.executions| + |ts| && c.db.executions[..|db.executions|] == db.executions
    && (forall t :: t in db.leases ==> t in c.db.leases && c.db.leases[t] == db.leases[t])
    && (forall t :: t in c.db.leases ==> t in db.leases || exists i :: 0 <= i < |ts| && ts[i].id == t)
    && (forall i :: 0 <= i < |ts| ==> TaskRecorded(db, ts[i], project, now, c, i))
    && (forall i, j :: 0 <= i < j < |ts| ==> c.workers[i] != c.workers[j])
  }

  predicate TaskRecorded(db: Db, t: Candidate, project: int, now: int, c: Claim, i: nat)
    requires i < |c.workers| == |c.executions|
  {
    && db.supply <= c.workers[i] < c.db.supply
    && c.executions[i] == |db.executions| + i + 1 <= |c.db.executions|
    && t.id in c.db.leases && c.db.leases[t.id] == NewLease(c.workers[i], now, LEASE_SECONDS)
    && c.db.executions[c.executions[i] - 1] == Execution(t.id, project, c.workers[i], Running, now, None)
  }

  lemma RoundRecords(norm: Normalizer, db: Db, front: seq<Candidate>, t: Candidate, c: Claim, project: int, run: int,
                     now: int)
    requires Recorded(db, front, project, now, c) && Roundable(norm, c, t, project, run, now)
    ensures Recorded(db, front + [t], project, now, Rounded(norm, c, t, project, run, now))
  {
    var ts, d := front + [t], Rounded(norm, c, t, project, run, now);
    assert d.workers == c.workers + [c.db.supply] && d.executions == c.executions + [|c.db.executions| + 1];
    assert d.db.leases == c.db.leases[t.id := NewLease(c.db.supply, now, LEASE_SECONDS)];
    assert d.db.executions == c.db.executions + [Execution(t.id, project, c.db.supply, Running, now, None)];
    forall i | 0 <= i < |ts|
      ensures TaskRecorded(db, ts[i], project, now, d, i) && (i < |front| ==> d.workers[i] < c.db.supply)
    {
      if i < |front| {
        assert ts[i] == front[i] && TaskRecorded(db, front[i], project, now, c, i);
      }
    }
    assert ts[|front|] == t;
    assert forall i :: 0 <= i < |front| ==> ts[i] == front[i];
  }

  /** Each task of a claimed group has its own lease, worker and running execution; leases and
      executions that were there before are untouched. */
  lemma {:induction false} ClaimRecords(norm: Normalizer, db: Db, ts: seq<Candidate>, project: int, run: int,
                                        now: int, c: Claim)
    requires ClaimAll(norm, db, ts, project, run, now) == Some(c)
    ensures Recorded(db, ts, project, now, c)
  {
    if ts != [] {
      var front, t := ts[..|ts| - 1], ts[|ts| - 1];
      assert ts == front + [t];
      var b := ClaimAll(norm, db, front, project, run, now).value;
      ClaimRecords(norm, db, front, project, run, now, b);
      RoundEffect(norm, b, t, project, run, now);
      RoundRecords(norm, db, front, t, b, project, run, now);
    }
  }

  // ---- What a claim leaves in the lock table ----

  /** An old row afterwards: expired if it was stale and its key was claimed, else unchanged. */
  function OldRow(r: Lock, ks: seq<Key>, now: int): Lock
  {
    if IsActive(r) && r.key in ks && r.expires <= now then ExpireRow(r, now) else r
  }

  predicate GroupRow(ks: seq<Key>, r: Lock, id: nat, token: nat, now: int)
  {
    && r.id == id && r.token == token && r.key in ks && IsActive(r)
    && r.expires == now + GROUP_LOCK_TTL && r.releasedAt == None
  }

  /** The old rows, followed by one row per collected lock id, with the collected token. */
  predicate GrantedOver(before: seq<Lock>, supply: nat, rows: seq<Lock>, ks: seq<Key>, ids: seq<nat>,
                        tokens: seq<nat>, now: int)
  {
    && |ids| == |tokens| == |ks| && |rows| == |before| + |ks|
    && (forall i :: 0 <= i < |before| ==> rows[i] == OldRow(before[i], ks, now))
    && (forall m :: 0 <= m < |ks| ==> ids[m] >= supply && GroupRow(ks, rows[|before| + m], ids[m], tokens[m], now))
  }

  predicate LockedFor(rows: seq<Lock>, n: nat, k: Key, who: Holder)
  {
    exists j :: n <= j < |rows| && rows[j].key == k && rows[j].holder == who
  }

  /** From row n on: every key of holder i is locked for it, and there are no other holders. */
  predicate OwnedBy(rows: seq<Lock>, n: nat, kss: seq<seq<Key>>, holders: seq<Holder>)
    requires |kss| == |holders|
  {
    && (forall i, k :: 0 <= i < |kss| && k in kss[i] ==> LockedFor(rows, n, k, holders[i]))
    && (forall j :: n <= j < |rows| ==> rows[j].holder in holders)
  }

  function KeyLists(norm: Normalizer, ts: seq<Candidate>, project: int): (kss: seq<seq<Key>>)
    requires GroupNormalizes(norm, ts, project)
    ensures |kss| == |ts|
  {
    seq(|ts|, i requires 0 <= i < |ts| => FileKeys(norm, ts[i], project))
  }

  function Holders(ts: seq<Candidate>, project: int, run: int, c: Claim): (hs: seq<Holder>)
    requires |ts| == |c.workers| == |c.executions|
    ensures |hs| == |ts|
  {
    seq(|ts|, i requires 0 <= i < |ts| => Holder(project, ts[i].id, c.executions[i], run, c.workers[i]))
  }

  lemma GrantShape(rows: seq<Lock>, es: seq<Entry>, who: Holder, base: nat, now: int)
    ensures var all := GrantedRows(rows, es, who, base, now, GROUP_LOCK_TTL);
            && |all| == |rows| + |es|
            && (forall j :: 0 <= j < |rows| ==>
                  all[j] == if IsActive(rows[j]) && rows[j].key in KeySet(es) && rows[j].expires <= now
                            then ExpireRow(rows[j], now) else rows[j])
            && (forall m :: 0 <= m < |es| ==>
                  all[|rows| + m] == NewRow(es[m], who, base + 2 * m, now, GROUP_LOCK_TTL))
  {
  }

  lemma GrantExtends(before: seq<Lock>, supply: nat, rows: seq<Lock>, ks: seq<Key>, ids: seq<nat>, tokens: seq<nat>,
                     now: int, es: seq<Entry>, kt: seq<Key>, who: Holder, base: nat)
    requires GrantedOver(before, supply, rows, ks, ids, tokens, now) && base >= supply
    requires |es| == |kt| && forall k :: k in KeySet(es) <==> k in kt
    ensures GrantedOver(before, supply, GrantedRows(rows, es, who, base, now, GROUP_LOCK_TTL), ks + kt,
                        ids + DrawnIds(|es|, base), tokens + DrawnTokens(|es|, base), now)
  {
  }

  lemma OwnershipExtends(rows: seq<Lock>, n: nat, kss: seq<seq<Key>>, holders: seq<Holder>,
                         es: seq<Entry>, kt: seq<Key>, who: Holder, base: nat, now: int)
    requires n <= |rows| && |kss| == |holders| && OwnedBy(rows, n, kss, holders)
    requires forall k :: k in KeySet(es) <==> k in kt
    ensures OwnedBy(GrantedRows(rows, es, who, base, now, GROUP_LOCK_TTL), n, kss + [kt], holders + [who])
  {
    GrantShape(rows, es, who, base, now);
    var all := GrantedRows(rows, es, who, base, now, GROUP_LOCK_TTL);
    forall i, k | 0 <= i < |kss| + 1 && k in (kss + [kt])[i] ensures LockedFor(all, n, k, (holders + [who])[i]) {
      if i < |kss| {
        var j :| n <= j < |rows| && rows[j].key == k && rows[j].holder == holders[i];
        assert all[j].key == k && all[j].holder == holders[i];
      } else {
        var m :| 0 <= m < |es| && es[m].key == k;
        assert all[|rows| + m].key == k && all[|rows| + m].holder == who;
      }
    }
    forall j | n <= j < |all| ensures all[j].holder in holders + [who] {
      if j < |rows| {
        assert all[j].holder == rows[j].holder;
      } else {
        assert all[|rows| + (j - |rows|)].holder == who == (holders + [who])[|holders|];
      }
    }
  }

  /** The lock table under a claim of `ts` in progress. */
  predicate LocksClaimed(norm: Normalizer, db: Db, ts: seq<Candidate>, project: int, run: int, now: int, c: Claim)
    requires GroupNormalizes(norm, ts, project)
  {
    && |c.workers| == |c.executions| == |ts| && c.db.supply >= db.supply
    && GrantedOver(db.locks, db.supply, c.db.locks, GroupKeys(norm, ts, project), c.lockIds, c.lockTokens, now)
    && OwnedBy(c.db.locks, |db.locks|, KeyLists(norm, ts, project), Holders(ts, project, run, c))
  }

  /** The names a round extends are those of the group with one more task. */
  lemma RoundNames(norm: Normalizer, front: seq<Candidate>, t: Candidate, c: Claim, project: int, run: int, now: int)
    requires GroupNormalizes(norm, front, project) && FilesNormalize(norm, t, project)
    requires GroupNormalizes(norm, front + [t], project) && |c.workers| == |c.executions| == |front|
    ensures var ts, d := front + [t], Rounded(norm, c, t, project, run, now);
            && |d.workers| == |d.executions| == |ts|
            && GroupKeys(norm, ts, project) == GroupKeys(norm, front, project) + FileKeys(norm, t, project)
            && KeyLists(norm, ts, project) == KeyLists(norm, front, project) + [FileKeys(norm, t, project)]
            && Holders(ts, project, run, d) == Holders(front, project, run, c) + [NextHolder(c, t, project, run)]
  {
  }

  lemma RoundLocks(norm: Normalizer, db: Db, front: seq<Candidate>, t: Candidate, c: Claim, project: int, run: int,
                   now: int)
    requires GroupNormalizes(norm, front, project) && LocksClaimed(norm, db, front, project, run, now, c)
    requires FilesNormalize(norm, t, project) && GroupNormalizes(norm, front + [t], project)
    ensures LocksClaimed(norm, db, front + [t], project, run, now, Rounded(norm, c, t, project, run, now))
  {
    RoundGrants(norm, db.locks, db.supply, front, t, c, project, run, now);
    RoundOwners(norm, |db.locks|, front, t, c, project, run, now);
    RoundNames(norm, front, t, c, project, run, now);
  }

  lemma RoundGrants(norm: Normalizer, before: seq<Lock>, supply: nat, front: seq<Candidate>, t: Candidate, c: Claim,
                    project: int, run: int, now: int)
    requires GroupNormalizes(norm, front, project) && c.db.supply >= supply
    requires GrantedOver(before, supply, c.db.locks, GroupKeys(norm, front, project), c.lockIds, c.lockTokens, now)
    requires FilesNormalize(norm, t, project)
    ensures var d := Rounded(norm, c, t, project, run, now);
            var ks := GroupKeys(norm, front, project) + FileKeys(norm, t, project);
            d.db.supply >= supply && GrantedOver(before, supply, d.db.locks, ks, d.lockIds, d.lockTokens, now)
  {
    var es, who, base := SortedEntries(norm, t, project), NextHolder(c, t, project, run), c.db.supply + 1;
    var d := Rounded(norm, c, t, project, run, now);
    assert d.db.locks == GrantedRows(c.db.locks, es, who, base, now, GROUP_LOCK_TTL);
    assert d.lockIds == c.lockIds + DrawnIds(|es|, base) && d.lockTokens == c.lockTokens + DrawnTokens(|es|, base);
    SortedKeys(norm, t, project);
    GrantExtends(before, supply, c.db.locks, GroupKeys(norm, front, project), c.lockIds, c.lockTokens, now,
                 es, FileKeys(norm, t, project), who, base);
  }

  lemma RoundOwners(norm: Normalizer, n: nat, front: seq<Candidate>, t: Candidate, c: Claim, project: int, run: int,
                    now: int)
    requires GroupNormalizes(norm, front, project) && |c.workers| == |c.executions| == |front| && n <= |c.db.locks|
    requires OwnedBy(c.db.locks, n, KeyLists(norm, front, project), Holders(front, project, run, c))
    requires FilesNormalize(norm, t, project) && GroupNormalizes(norm, front + [t], project)
    ensures var ts, d := front + [t], Rounded(norm, c, t, project, run, now);
            |d.workers| == |d.executions| == |ts|
            && OwnedBy(d.db.locks, n, KeyLists(norm, ts, project), Holders(ts, project, run, d))
  {
    var es, who := SortedEntries(norm, t, project), NextHolder(c, t, project, run);
    var rows := GrantedRows(c.db.locks, es, who, c.db.supply + 1, now, GROUP_LOCK_TTL);
    assert Rounded(norm, c, t, project, run, now).db.locks == rows;
    SortedKeys(norm, t, project);
    OwnershipExtends(c.db.locks, n, KeyLists(norm, front, project), Holders(front, project, run, c),
                     es, FileKeys(norm, t, project), who, c.db.supply + 1, now);
    RoundNames(norm, front, t, c, project, run, now);
  }

  lemma NextLocks(norm: Normalizer, db: Db, ts: seq<Candidate>, b: Claim, c: Claim, project: int, run: int, now: int)
    requires ts != [] && GroupNormalizes(norm, ts, project)
    requires LocksClaimed(norm, db, ts[..|ts| - 1], project, run, now, b)
    requires ClaimOne(norm, b, ts[|ts| - 1], project, run, now) == Some(c)
    ensures LocksClaimed(norm, db, ts, project, run, now, c)
  {
    var front, t := ts[..|ts| - 1], ts[|ts| - 1];
    assert ts == front + [t];
    RoundEffect(norm, b, t, project, run, now);
    RoundLocks(norm, db, front, t, b, project, run, now);
  }

  lemma NothingLocked(norm: Normalizer, db: Db, project: int, run: int, now: int)
    ensures LocksClaimed(norm, db, [], project, run, now, Claim(db, [], [], [], []))
  {
  }

  /** A claimed group holds exactly its keys, each for its own task; lock_tokens[i] belongs to
      lock_ids[i]; of the old rows only stale ones of claimed keys have changed. */
  lemma {:induction false} ClaimLocks(norm: Normalizer, db: Db, ts: seq<Candidate>, project: int, run: int, now: int,
                                      c: Claim)
    requires GroupNormalizes(norm, ts, project) && ClaimAll(norm, db, ts, project, run, now) == Some(c)
    ensures LocksClaimed(norm, db, ts, project, run, now, c)
  {
    if ts == [] {
      NothingLocked(norm, db, project, run, now);
    } else {
      var front := ts[..|ts| - 1];
      var b := ClaimAll(norm, db, front, project, run, now).value;
      ClaimLocks(norm, db, front, project, run, now, b);
      NextLocks(norm, db, ts, b, c, project, run, now);
    }
  }
}
