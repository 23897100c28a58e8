/** Runs of the lock table: every sequence of operations on it. The transactions of workers, group
    claims, the finalizer and the clean-up jobs are such sequences, see LockHistory. */
module LockProtocol {
  import opened Schema
  import opened KeyOrder
  import opened ResourceLocks

  datatype LockTable = LockTable(rows: seq<Lock>, supply: nat)

  datatype Op =
    | Acquire(reqs: seq<Resource>, who: Holder, refsOk: bool, now: int, ttl: int)
    | Renew(id: nat, token: nat, worker: nat, now: int, ttl: int)
    | Release(id: nat, token: nat, worker: nat, now: int, reason: string)
    | ReleaseExecution(execution: int, now: int, reason: string)
    | Takeover(id: nat, who: Holder, refsOk: bool, now: int, timeout: int)
    | RenewWorker(worker: nat, now: int, ttl: int)
    | Cleanup(now: int)
    | ForceRelease(project: Option<int>, now: int)
    | ReleaseOrphaned(living: set<int>, now: int)
    | Draw(count: nat)    // identifiers for something else, a worker say

  /** The committed effect of one operation and whether it reported success. */
  function Step(norm: Normalizer, t: LockTable, op: Op): (r: (LockTable, bool))
    ensures |t.rows| <= |r.0.rows|
  {
    match op
    case Acquire(reqs, who, refsOk, now, ttl) =>
      if Acquirable(norm, reqs, t.rows, refsOk, now) then
        var es := Sort(Entries(norm, reqs));
        (LockTable(GrantedRows(t.rows, es, who, t.supply, now, ttl), t.supply + 2 * |reqs|), true)
      else (t, false)
    case Renew(id, token, worker, now, ttl) =>
      (t.(rows := RenewRows(t.rows, id, token, worker, now, ttl)),
       Count(t.rows, (r: Lock) => Presents(r, id, token, worker)) == 1)
    case Release(id, token, worker, now, reason) =>
      (t.(rows := ReleaseRows(t.rows, id, token, worker, now, reason)),
       Count(t.rows, (r: Lock) => Presents(r, id, token, worker)) == 1)
    case ReleaseExecution(execution, now, reason) =>
      (t.(rows := ReleaseExecutions(t.rows, {execution}, now, reason)), true)
    case Takeover(id, who, refsOk, now, timeout) =>
      if refsOk && Count(t.rows, (r: Lock) => Abandoned(r, id, now, timeout)) == 1 then
        (LockTable(TakeoverRows(t.rows, id, who, t.supply, now, timeout), t.supply + 1), true)
      else (t, false)
    case RenewWorker(worker, now, ttl) => (t.(rows := RenewWorkerRows(t.rows, worker, now, ttl)), true)
    case Cleanup(now) => (t.(rows := CleanupRows(t.rows, now)), true)
    case ForceRelease(project, now) => (t.(rows := ForceReleaseRows(t.rows, project, now)), true)
    case ReleaseOrphaned(living, now) => (t.(rows := ReleaseOrphans(t.rows, living, now)), true)
    case Draw(count) => (t.(supply := t.supply + count), true)
  }

  function Run(norm: Normalizer, t: LockTable, ops: seq<Op>): (u: LockTable)
    ensures |t.rows| <= |u.rows|
  {
    if ops == [] then t
    else Step(norm, Run(norm, t, ops[..|ops| - 1]), ops[|ops| - 1]).0
  }

  // ---- What every operation keeps ----

  /** UNIQUE(lock_id) and UNIQUE(lock_token), by way of the supply. */
  predicate Identified(t: LockTable)
  {
    && (forall i :: 0 <= i < |t.rows| ==> t.rows[i].id < t.supply && t.rows[i].token < t.supply)
    && (forall i, j :: 0 <= i < j < |t.rows| ==> t.rows[i].id != t.rows[j].id && t.rows[i].token != t.rows[j].token)
  }

  /** At most one active row per key. */
  predicate Exclusive(rows: seq<Lock>)
  {
    forall i, j :: 0 <= i < j < |rows| && IsActive(rows[i]) && IsActive(rows[j]) ==> rows[i].key != rows[j].key
  }

  /** No active row has been released. */
  predicate Unreleased(rows: seq<Lock>)
  {
    forall i :: 0 <= i < |rows| && IsActive(rows[i]) ==> rows[i].releasedAt == None
  }

  predicate Valid(t: LockTable)
  {
    Identified(t) && Exclusive(t.rows) && Unreleased(t.rows)
  }

  /** How a table may grow: no row is lost, identities and keys stay, rows that left the active
      state never change again, and a token either stays or is replaced by a new one. */
  predicate Evolves(t: LockTable, u: LockTable)
  {
    && |t.rows| <= |u.rows| && t.supply <= u.supply
    && (forall i :: 0 <= i < |t.rows| ==> RowEvolves(t.rows[i], u.rows[i], t.supply))
    && (forall i :: |t.rows| <= i < |u.rows| ==> u.rows[i].token >= t.supply)
  }

  predicate RowEvolves(r: Lock, s: Lock, supply: nat)
  {
    && s.id == r.id && s.key == r.key
    && (!IsActive(r) ==> s == r)
    && (s.token == r.token || s.token >= supply)
  }

  /** Statements that touch active rows in place, without issuing tokens or reviving anything. */
  lemma InPlace(t: LockTable, u: LockTable)
    requires Valid(t) && |u.rows| == |t.rows| && u.supply == t.supply
    requires forall i :: 0 <= i < |t.rows| ==>
               && RowEvolves(t.rows[i], u.rows[i], t.supply) && u.rows[i].token == t.rows[i].token
               && (IsActive(u.rows[i]) ==> IsActive(t.rows[i]) && u.rows[i].releasedAt == t.rows[i].releasedAt)
    ensures Valid(u) && Evolves(t, u)
  {
  }

  lemma GrantExclusive(rows: seq<Lock>, es: seq<Entry>, who: Holder, supply: nat, now: int, ttl: int)
    requires Exclusive(rows) && Insertable(rows, es, true, now)
    ensures Exclusive(GrantedRows(rows, es, who, supply, now, ttl))
  {
    var expired := ExpireKeys(rows, KeySet(es), now);
    var all := GrantedRows(rows, es, who, supply, now, ttl);
    forall i, j | 0 <= i < j < |all| && IsActive(all[i]) && IsActive(all[j]) ensures all[i].key != all[j].key {
      if j < |rows| {
        assert all[i] == rows[i] && all[j] == rows[j];
      } else {
        var n := j - |rows|;
        assert all[j].key == es[n].key == Keys(es)[n];
        assert es[n].key in KeySet(es);
        if i < |rows| {
          assert all[i] == rows[i];
          assert !Held(rows, es[n].key, now);
        } else {
          assert all[i].key == Keys(es)[i - |rows|];
        }
      }
    }
  }

  lemma GrantKeeps(t: LockTable, es: seq<Entry>, who: Holder, now: int, ttl: int)
    requires Valid(t) && Insertable(t.rows, es, true, now)
    ensures var u := LockTable(GrantedRows(t.rows, es, who, t.supply, now, ttl), t.supply + 2 * |es|);
            Valid(u) && Evolves(t, u)
  {
    var u := LockTable(GrantedRows(t.rows, es, who, t.supply, now, ttl), t.supply + 2 * |es|);
    GrantExclusive(t.rows, es, who, t.supply, now, ttl);
    var v := LockTable(ExpireKeys(t.rows, KeySet(es), now), t.supply);
    InPlace(t, v);
    assert forall i :: 0 <= i < |t.rows| ==> u.rows[i] == v.rows[i];
    assert forall i :: |t.rows| <= i < |u.rows| ==>
        u.rows[i] == NewRow(es[i - |t.rows|], who, t.supply + 2 * (i - |t.rows|), now, ttl);
    assert Identified(u);
  }

  lemma TakeoverKeeps(t: LockTable, id: nat, who: Holder, now: int, timeout: int)
    requires Valid(t)
    ensures var u := LockTable(TakeoverRows(t.rows, id, who, t.supply, now, timeout), t.supply + 1);
            Valid(u) && Evolves(t, u)
  {
  }

  lemma UpdateKeeps(norm: Normalizer, t: LockTable, op: Op)
    requires Valid(t) && !op.Acquire? && !op.Takeover?
    ensures Valid(Step(norm, t, op).0) && Evolves(t, Step(norm, t, op).0)
  {
    if op.Renew? || op.RenewWorker? {
      InPlace(t, Step(norm, t, op).0);
    } else if !op.Draw? {
      EndingKeeps(norm, t, op);
    }
  }

  /** The operations that end locks: by their holder, in bulk, or as overdue. */
  lemma EndingKeeps(norm: Normalizer, t: LockTable, op: Op)
    requires Valid(t) && (op.Release? || op.ReleaseExecution? || op.Cleanup? || op.ForceRelease? || op.ReleaseOrphaned?)
    ensures Valid(Step(norm, t, op).0) && Evolves(t, Step(norm, t, op).0)
  {
    var u := Step(norm, t, op).0;
    assert forall i :: 0 <= i < |t.rows| ==> u.rows[i] == t.rows[i] || (IsActive(t.rows[i]) && !IsActive(u.rows[i]));
    InPlace(t, u);
  }

  lemma AcquireKeeps(norm: Normalizer, t: LockTable, op: Op)
    requires Valid(t) && op.Acquire?
    ensures Valid(Step(norm, t, op).0) && Evolves(t, Step(norm, t, op).0)
  {
    if Acquirable(norm, op.reqs, t.rows, op.refsOk, op.now) {
      AcquirableSorted(norm, op.reqs, t.rows, op.refsOk, op.now);
      GrantKeeps(t, Sort(Entries(norm, op.reqs)), op.who, op.now, op.ttl);
    }
  }

  /** Every operation keeps the constraints of the table and only lets it evolve. */
  lemma StepKeeps(norm: Normalizer, t: LockTable, op: Op)
    requires Valid(t)
    ensures Valid(Step(norm, t, op).0) && Evolves(t, Step(norm, t, op).0)
  {
    if op.Acquire? {
      AcquireKeeps(norm, t, op);
    } else if op.Takeover? {
      TakeoverKeeps(t, op.id, op.who, op.now, op.timeout);
    } else {
      UpdateKeeps(norm, t, op);
    }
  }

  lemma EvolvesTransitive(t: LockTable, u: LockTable, v: LockTable)
    requires Evolves(t, u) && Evolves(u, v)
    ensures Evolves(t, v)
  {
  }

  /** Over every run: locks stay exclusive, released and expired rows are frozen for good. */
  lemma {:induction false} RunKeeps(norm: Normalizer, t: LockTable, ops: seq<Op>)
    requires Valid(t)
    ensures Valid(Run(norm, t, ops)) && Evolves(t, Run(norm, t, ops))
  {
    if ops != [] {
      var u := Run(norm, t, ops[..|ops| - 1]);
      RunKeeps(norm, t, ops[..|ops| - 1]);
      StepKeeps(norm, u, ops[|ops| - 1]);
      EvolvesTransitive(t, u, Run(norm, t, ops));
    }
  }

  // ---- Fencing ----

  predicate Bears(r: Lock, token: nat) { r.token == token && IsActive(r) }

  /** The token was issued and opens nothing any more. */
  predicate Dead(t: LockTable, token: nat)
  {
    token < t.supply && forall i :: 0 <= i < |t.rows| ==> !Bears(t.rows[i], token)
  }

  /** A token that leaves its row, because the row was taken over, released or expired, is dead. */
  lemma LeavingIsDying(t: LockTable, u: LockTable, i: nat, token: nat)
    requires Valid(t) && Valid(u) && Evolves(t, u)
    requires i < |t.rows| && t.rows[i].token == token && !Bears(u.rows[i], token)
    ensures Dead(u, token)
  {
  }

  /** The dead stay dead. */
  lemma DeadStays(t: LockTable, u: LockTable, token: nat)
    requires Dead(t, token) && Evolves(t, u)
    ensures Dead(u, token)
  {
  }

  predicate PresentsToken(op: Op, token: nat)
  {
    (op.Renew? || op.Release?) && op.token == token
  }

  lemma DeadOpensNothing(norm: Normalizer, t: LockTable, op: Op, token: nat)
    requires Dead(t, token) && PresentsToken(op, token)
    ensures Step(norm, t, op) == (t, false)
  {
    CountZero(t.rows, (r: Lock) => Presents(r, op.id, op.token, op.worker));
    assert Step(norm, t, op).0.rows == t.rows;
  }

  /** Fencing over whole runs: once a token has left the row it was issued for, whatever happens
      next, every renew or release presenting it is refused and changes no row. */
  lemma Fencing(norm: Normalizer, t: LockTable, first: seq<Op>, i: nat, more: seq<Op>, op: Op)
    requires Valid(t) && i < |t.rows|
    requires !Bears(Run(norm, t, first).rows[i], t.rows[i].token)
    requires PresentsToken(op, t.rows[i].token)
    ensures var u := Run(norm, Run(norm, t, first), more); Step(norm, u, op) == (u, false)
  {
    var token, s := t.rows[i].token, Run(norm, t, first);
    RunKeeps(norm, t, first);
    LeavingIsDying(t, s, i, token);
    RunKeeps(norm, s, more);
    DeadStays(s, Run(norm, s, more), token);
    DeadOpensNothing(norm, Run(norm, s, more), op, token);
  }

  /** A successful takeover or release makes the token it found dead. */
  lemma SupersededIsDead(norm: Normalizer, t: LockTable, op: Op, i: nat)
    requires Valid(t) && i < |t.rows| && Step(norm, t, op).1
    requires (op.Takeover? || op.Release?) && t.rows[i].id == op.id
    ensures Dead(Step(norm, t, op).0, t.rows[i].token)
  {
    StepKeeps(norm, t, op);
    if op.Takeover? {
      CountZero(t.rows, (r: Lock) => Abandoned(r, op.id, op.now, op.timeout));
      var j :| 0 <= j < |t.rows| && Abandoned(t.rows[j], op.id, op.now, op.timeout);
      assert j == i;
    } else {
      CountZero(t.rows, (r: Lock) => Presents(r, op.id, op.token, op.worker));
      var j :| 0 <= j < |t.rows| && Presents(t.rows[j], op.id, op.token, op.worker);
      assert j == i;
    }
    LeavingIsDying(t, Step(norm, t, op).0, i, t.rows[i].token);
  }

  // ---- What the operations on one lock do ----

  /** The row the operation is about, in the state its WHERE clause asks for. */
  predicate Hit(op: Op, r: Lock)
    requires op.Renew? || op.Release? || op.Takeover?
  {
    match op
    case Renew(id, token, worker, _, _) =>
      r.id == id && r.token == token && r.holder.worker == worker && r.status == LockActive
    case Release(id, token, worker, _, _) =>
      r.id == id && r.token == token && r.holder.worker == worker && r.status == LockActive
    case Takeover(id, _, _, now, timeout) => r.id == id && r.status == LockActive && r.heartbeat < now - timeout
  }

  /** An active row and what became of it when it was ended. */
  predicate EndedAs(a: Lock, b: Lock, status: LockStatus, now: int)
  {
    a.status == LockActive && b == a.(status := status, releasedAt := Some(now), reason := b.reason)
  }

  /** In a valid table there is at most one such row, so the row count reports whether there is one. */
  lemma VerdictExact(norm: Normalizer, t: LockTable, op: Op)
    requires Valid(t) && (op.Renew? || op.Release? || op.Takeover?)
    ensures Step(norm, t, op).1 <==> (op.Takeover? ==> op.refsOk) && exists i :: 0 <= i < |t.rows| && Hit(op, t.rows[i])
  {
    if op.Takeover? {
      CountAtMostOne(t.rows, (r: Lock) => Abandoned(r, op.id, op.now, op.timeout));
    } else {
      CountAtMostOne(t.rows, (r: Lock) => Presents(r, op.id, op.token, op.worker));
    }
  }

  /** A renewed lock is held for the full term again by the same holder; a released one is free at
      once; a lock taken over passes to the new holder under a token of its own, for what is left of
      its term. All other rows stay as they are. */
  lemma EffectExact(norm: Normalizer, t: LockTable, op: Op, i: nat)
    requires Valid(t) && i < |t.rows| && (op.Renew? || op.Release? || op.Takeover?)
    requires Step(norm, t, op).1 && Hit(op, t.rows[i])
    ensures var u := Step(norm, t, op).0; var a, b := t.rows[i], u.rows[i];
            && |u.rows| == |t.rows| && (forall j :: 0 <= j < |t.rows| && j != i ==> u.rows[j] == t.rows[j])
            && (op.Renew? ==>
                  && b == a.(heartbeat := op.now, expires := b.expires)
                  && (forall now :: Held(u.rows, a.key, now) <==> now < op.now + op.ttl))
            && (op.Release? ==> Unlocked(u.rows, a.key) && EndedAs(a, b, LockReleased, op.now) && b.reason == op.reason)
            && (op.Takeover? ==>
                  && b == a.(token := t.supply, holder := op.who.(project := a.holder.project), heartbeat := op.now)
                  && b.token != a.token
                  && (forall now :: Held(u.rows, a.key, now) <==> Held(t.rows, a.key, now)))
  {
    var u := Step(norm, t, op).0;
    assert forall j :: 0 <= j < |t.rows| && j != i && IsActive(t.rows[j]) ==> t.rows[j].key != t.rows[i].key;
    assert forall j :: 0 <= j < |t.rows| && j != i ==> u.rows[j] == t.rows[j];
  }

  /** The bulk operations: a worker's renewal prolongs all of its own active locks and touches no other
      worker's; a batch release and a forced release end exactly the active locks of the execution or
      project; the clean-up ends what is overdue and takes no lock from anyone who still holds it. */
  lemma BulkExact(norm: Normalizer, t: LockTable, op: Op)
    ensures var u := Step(norm, t, op).0;
            match op
            case RenewWorker(worker, now, ttl) =>
              forall i :: 0 <= i < |t.rows| ==>
                if t.rows[i].status == LockActive && t.rows[i].holder.worker == worker
                then u.rows[i] == t.rows[i].(heartbeat := now, expires := now + ttl)
                else u.rows[i] == t.rows[i]
            case ReleaseExecution(execution, now, reason) =>
              forall i :: 0 <= i < |t.rows| ==>
                if t.rows[i].holder.execution == execution && t.rows[i].status == LockActive
                then EndedAs(t.rows[i], u.rows[i], LockReleased, now) && u.rows[i].reason == reason
                else u.rows[i] == t.rows[i]
            case ForceRelease(project, now) =>
              forall i :: 0 <= i < |t.rows| ==>
                if project in {None, Some(t.rows[i].holder.project)} && t.rows[i].status == LockActive
                then EndedAs(t.rows[i], u.rows[i], LockReleased, now) else u.rows[i] == t.rows[i]
            case ReleaseOrphaned(living, now) =>
              forall i :: 0 <= i < |t.rows| ==>
                if t.rows[i].holder.run !in living && t.rows[i].status == LockActive
                then EndedAs(t.rows[i], u.rows[i], LockReleased, now) else u.rows[i] == t.rows[i]
            case Cleanup(now) =>
              && (forall i :: 0 <= i < |t.rows| ==>
                    if t.rows[i].status == LockActive && t.rows[i].expires <= now
                    then EndedAs(t.rows[i], u.rows[i], LockExpired, now) else u.rows[i] == t.rows[i])
              && (forall k :: Held(u.rows, k, now) <==> Held(t.rows, k, now))
            case _ => true
  {
    if op.Cleanup? {
      var u := Step(norm, t, op).0;
      assert forall i :: 0 <= i < |t.rows| && t.rows[i].expires > op.now ==> u.rows[i] == t.rows[i];
    }
  }

  // ---- Exclusion and order independence of acquisition ----

  /** When a second request for a held key is granted, the first holder's row had expired and is
      terminal: two grants never overlap. */
  lemma GrantEndsPrevious(norm: Normalizer, t: LockTable, ops: seq<Op>, op: Op, i: nat, k: Key)
    requires Valid(t) && i < |t.rows| && t.rows[i].key == k
    requires op.Acquire? && Step(norm, Run(norm, t, ops), op).1
    requires k in Keys(Entries(norm, op.reqs))
    ensures var u := Run(norm, t, ops); var r := u.rows[i];
            && (IsActive(r) ==> r.expires <= op.now)
            && !IsActive(Step(norm, u, op).0.rows[i])
  {
    var u := Run(norm, t, ops);
    RunKeeps(norm, t, ops);
    var es := Sort(Entries(norm, op.reqs));
    PermutedKeys(Entries(norm, op.reqs), es);
    var m :| 0 <= m < |Keys(es)| && Keys(es)[m] == k;
    assert es[m].key in KeySet(es);
    assert !Held(u.rows, k, op.now);
    assert Step(norm, u, op).0.rows[i] == ExpireKeys(u.rows, KeySet(es), op.now)[i];
  }

  /** A granted request: every requested key has exactly one active row, a new one of the requester;
      an active row that was in the way has expired; all other rows are as before. */
  lemma GrantIsExact(norm: Normalizer, t: LockTable, op: Op)
    requires Valid(t) && op.Acquire? && Step(norm, t, op).1
    ensures var u, ks := Step(norm, t, op).0, Keys(Entries(norm, op.reqs));
            && |u.rows| == |t.rows| + |op.reqs|
            && (forall k :: k in ks ==> HoldsFor(u.rows, |t.rows|, k, op.who, op.now, op.now + op.ttl))
            && Exclusive(u.rows)
            && (forall i :: 0 <= i < |t.rows| ==>
                  if t.rows[i].status == LockActive && t.rows[i].key in ks
                  then EndedAs(t.rows[i], u.rows[i], LockExpired, op.now) && t.rows[i].expires <= op.now
                  else u.rows[i] == t.rows[i])
  {
    StepKeeps(norm, t, op);
    var es := Sort(Entries(norm, op.reqs));
    var u, ks := Step(norm, t, op).0, Keys(Entries(norm, op.reqs));
    PermutedKeys(Entries(norm, op.reqs), es);
    forall k | k in ks ensures HoldsFor(u.rows, |t.rows|, k, op.who, op.now, op.now + op.ttl) {
      GrantHolds(t.rows, es, op.who, t.supply, op.now, op.ttl, k);
    }
    GrantedKeys(norm, op.reqs);
    forall i | 0 <= i < |t.rows|
      ensures if t.rows[i].status == LockActive && t.rows[i].key in ks
              then EndedAs(t.rows[i], u.rows[i], LockExpired, op.now) && t.rows[i].expires <= op.now
              else u.rows[i] == t.rows[i]
    {
      assert u.rows[i] == ExpireKeys(t.rows, KeySet(es), op.now)[i];
      assert t.rows[i].key in ks ==> !Held(t.rows, t.rows[i].key, op.now);
    }
  }

  /** The keys of the sorted entries are the requested keys. */
  lemma GrantedKeys(norm: Normalizer, reqs: seq<Resource>)
    requires AllNormalize(norm, reqs)
    ensures forall k :: k in KeySet(Sort(Entries(norm, reqs))) <==> k in Keys(Entries(norm, reqs))
  {
    var es := Sort(Entries(norm, reqs));
    PermutedKeys(Entries(norm, reqs), es);
    assert forall m :: 0 <= m < |es| ==> Keys(es)[m] == es[m].key && es[m].key in KeySet(es);
  }

  lemma GrantHolds(rows: seq<Lock>, es: seq<Entry>, who: Holder, supply: nat, now: int, ttl: int, k: Key)
    requires k in Keys(es)
    ensures HoldsFor(GrantedRows(rows, es, who, supply, now, ttl), |rows|, k, who, now, now + ttl)
  {
    var m :| 0 <= m < |Keys(es)| && Keys(es)[m] == k;
    assert GrantedRows(rows, es, who, supply, now, ttl)[|rows| + m] == NewRow(es[m], who, supply + 2 * m, now, ttl);
  }

  /** Some row from position n on is active for this holder from now until it expires. */
  predicate HoldsFor(rows: seq<Lock>, n: nat, k: Key, who: Holder, now: int, expires: int)
  {
    exists j :: n <= j < |rows| && rows[j].status == LockActive && rows[j].key == k && rows[j].holder == who
                && rows[j].lockedAt == rows[j].heartbeat == now && rows[j].expires == expires
                && rows[j].releasedAt == None
  }

  lemma SameElements<T>(a: seq<T>, b: seq<T>)
    requires multiset(a) == multiset(b)
    ensures |a| == |b| && forall x :: x in a <==> x in b
  {
    assert |a| == |multiset(a)| == |multiset(b)| == |b|;
    assert forall x :: x in a <==> x in multiset(a);
    assert forall x :: x in b <==> x in multiset(b);
  }

  /** The verdict and the whole resulting table do not depend on the order of the request. */
  lemma RequestOrderIrrelevant(norm: Normalizer, t: LockTable, a: Op, b: Op)
    requires a.Acquire? && b.Acquire? && b == a.(reqs := b.reqs)
    requires multiset(a.reqs) == multiset(b.reqs)
    ensures Step(norm, t, a) == Step(norm, t, b)
  {
    SameElements(a.reqs, b.reqs);
    AllNormalizeByElement(norm, a.reqs);
    AllNormalizeByElement(norm, b.reqs);
    if AllNormalize(norm, a.reqs) {
      EntriesPermuted(norm, a.reqs, b.reqs);
      VerdictPermuted(norm, t, a, b);
      if NoDup(Keys(Entries(norm, a.reqs))) {
        SortForgetsOrder(Entries(norm, a.reqs), Entries(norm, b.reqs));
      }
    }
  }

  lemma AllNormalizeByElement(norm: Normalizer, reqs: seq<Resource>)
    ensures AllNormalize(norm, reqs) <==> forall r :: r in reqs ==> Normalized(norm, r).Some?
  {
  }

  lemma VerdictPermuted(norm: Normalizer, t: LockTable, a: Op, b: Op)
    requires a.Acquire? && b.Acquire? && b == a.(reqs := b.reqs) && (a.reqs == [] <==> b.reqs == [])
    requires AllNormalize(norm, a.reqs) && AllNormalize(norm, b.reqs)
    requires multiset(Entries(norm, a.reqs)) == multiset(Entries(norm, b.reqs))
    ensures Acquirable(norm, a.reqs, t.rows, a.refsOk, a.now) == Acquirable(norm, b.reqs, t.rows, b.refsOk, b.now)
  {
    PermutedKeys(Entries(norm, a.reqs), Entries(norm, b.reqs));
  }

  function Without<T>(s: seq<T>, j: nat): seq<T>
    requires j < |s|
  {
    s[..j] + s[j + 1..]
  }

  lemma WithoutCounts<T>(s: seq<T>, j: nat)
    requires j < |s|
    ensures multiset(Without(s, j)) == multiset(s) - multiset{s[j]}
    ensures s[j] in multiset(s)
  {
    assert s == s[..j] + [s[j]] + s[j + 1..];
  }

  lemma EntriesWithout(norm: Normalizer, reqs: seq<Resource>, j: nat)
    requires j < |reqs| && AllNormalize(norm, reqs)
    ensures AllNormalize(norm, Without(reqs, j))
    ensures Entries(norm, Without(reqs, j)) == Without(Entries(norm, reqs), j)
  {
  }

  lemma {:induction false} EntriesPermuted(norm: Normalizer, a: seq<Resource>, b: seq<Resource>)
    requires multiset(a) == multiset(b) && AllNormalize(norm, a) && AllNormalize(norm, b)
    ensures multiset(Entries(norm, a)) == multiset(Entries(norm, b))
    decreases |a|
  {
    SameElements(a, b);
    if a != [] {
      assert a[0] in b;
      var j :| 0 <= j < |b| && b[j] == a[0];
      WithoutCounts(a, 0);
      WithoutCounts(b, j);
      EntriesWithout(norm, a, 0);
      EntriesWithout(norm, b, j);
      EntriesPermuted(norm, Without(a, 0), Without(b, j));
      RestoreElement(Entries(norm, a), 0, Entries(norm, b), j);
    }
  }

  lemma RestoreElement<T>(a: seq<T>, i: nat, b: seq<T>, j: nat)
    requires i < |a| && j < |b| && a[i] == b[j] && multiset(Without(a, i)) == multiset(Without(b, j))
    ensures multiset(a) == multiset(b)
  {
    WithoutCounts(a, i);
    WithoutCounts(b, j);
    assert multiset(a) == multiset(Without(a, i)) + multiset{a[i]};
    assert multiset(b) == multiset(Without(b, j)) + multiset{b[j]};
  }
}
