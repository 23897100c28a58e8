/** The resource-lock table: atomic acquisition of several locks, renewal, release, takeover. */
module ResourceLocks {
  import opened Schema
  import opened KeyOrder

  /** normalize_resource_key: None stands for the ValueError it may raise. */
  type Normalizer = (string, string) -> Option<string>

  /** A requested resource, as the caller describes it. */
  datatype Resource = Resource(scope: string, scopeKey: string, kind: string, rawKey: string)

  /** Raised is an exception that leaves the function; Refused is `"success": False`. */
  datatype AcquireResult = Granted(ids: seq<nat>) | Refused | Raised

  const DEFAULT_LOCK_TTL := 300

  // ---- What a request asks for ----

  function Normalized(norm: Normalizer, r: Resource): Option<Entry>
  {
    match norm(r.kind, r.rawKey)
    case None => None
    case Some(name) => Some(Entry(Key(r.scope, r.scopeKey, r.kind, name), r.rawKey))
  }

  predicate AllNormalize(norm: Normalizer, reqs: seq<Resource>)
  {
    forall i :: 0 <= i < |reqs| ==> Normalized(norm, reqs[i]).Some?
  }

  function Entries(norm: Normalizer, reqs: seq<Resource>): (es: seq<Entry>)
    requires AllNormalize(norm, reqs)
  {
    seq(|reqs|, i requires 0 <= i < |reqs| => Normalized(norm, reqs[i]).value)
  }

  /** The CHECK constraints on resource_scope and resource_type. */
  predicate WellTyped(k: Key)
  {
    && k.scope in {"project", "workspace", "global"}
    && k.kind in {"file", "module", "db_table", "port", "service", "pkg_mgr", "workspace"}
  }

  /** The foreign keys of a lock row. */
  predicate RefsOk(db: Db, who: Holder)
  {
    && who.project in db.projects
    && who.task in db.tasks
    && 1 <= who.execution <= |db.executions|
    && 1 <= who.run <= |db.runs|
  }

  // ---- What the table says ----

  predicate IsActive(r: Lock) { r.status == LockActive }

  /** An unexpired active row holds the key. */
  predicate Held(rows: seq<Lock>, k: Key, now: int)
  {
    exists i :: 0 <= i < |rows| && IsActive(rows[i]) && rows[i].key == k && rows[i].expires > now
  }

  /** What the unique index on active rows lets through. */
  predicate Unlocked(rows: seq<Lock>, k: Key)
  {
    forall i :: 0 <= i < |rows| ==> !(IsActive(rows[i]) && rows[i].key == k)
  }

  /** When a request for several locks must be granted. */
  predicate Acquirable(norm: Normalizer, reqs: seq<Resource>, rows: seq<Lock>, refsOk: bool, now: int)
  {
    && reqs != [] && AllNormalize(norm, reqs) && refsOk
    && var ks := Keys(Entries(norm, reqs));
       NoDup(ks) && forall k :: k in ks ==> WellTyped(k) && !Held(rows, k, now)
  }

  // ---- What each statement does to the table ----

  function ExpireRow(r: Lock, now: int): Lock
  {
    r.(status := LockExpired, releasedAt := Some(now), reason := "lease_expired")
  }

  /** Expire the stale rows of some keys, and only those. */
  function ExpireKeys(rows: seq<Lock>, keys: set<Key>, now: int): (r: seq<Lock>)
    ensures |r| == |rows|
  {
    Update(rows, (r: Lock) => IsActive(r) && r.key in keys && r.expires <= now, (r: Lock) => ExpireRow(r, now))
  }

  function NewRow(e: Entry, who: Holder, id: nat, now: int, ttl: int): Lock
  {
    Lock(id, id + 1, e.key, e.raw, who, now, now, now + ttl, LockActive, None, "")
  }

  /** The rows granted to a list of entries; lock ids and tokens are drawn alternately. */
  function NewRows(es: seq<Entry>, who: Holder, supply: nat, now: int, ttl: int): (r: seq<Lock>)
    ensures |r| == |es|
  {
    seq(|es|, i requires 0 <= i < |es| => NewRow(es[i], who, supply + 2 * i, now, ttl))
  }

  /** The lock ids of n rows drawn from the supply at `base`; their tokens are the numbers between. */
  function DrawnIds(n: nat, base: nat): (ids: seq<nat>)
    ensures |ids| == n
  {
    seq(n, i => base + 2 * i)
  }

  function DrawnTokens(n: nat, base: nat): (tokens: seq<nat>)
    ensures |tokens| == n
  {
    seq(n, i => base + 2 * i + 1)
  }

  function KeySet(es: seq<Entry>): set<Key>
  {
    set i | 0 <= i < |es| :: es[i].key
  }

  function GrantedRows(rows: seq<Lock>, es: seq<Entry>, who: Holder, supply: nat, now: int, ttl: int): seq<Lock>
  {
    ExpireKeys(rows, KeySet(es), now) + NewRows(es, who, supply, now, ttl)
  }

  predicate Presents(r: Lock, id: nat, token: nat, worker: nat)
  {
    r.id == id && r.token == token && r.holder.worker == worker && IsActive(r)
  }

  function RenewRows(rows: seq<Lock>, id: nat, token: nat, worker: nat, now: int, ttl: int): seq<Lock>
  {
    Update(rows, (r: Lock) => Presents(r, id, token, worker), (r: Lock) => r.(heartbeat := now, expires := now + ttl))
  }

  function ReleaseRow(r: Lock, now: int, reason: string): Lock
  {
    r.(status := LockReleased, releasedAt := Some(now), reason := reason)
  }

  function ReleaseRows(rows: seq<Lock>, id: nat, token: nat, worker: nat, now: int, reason: string): seq<Lock>
  {
    Update(rows, (r: Lock) => Presents(r, id, token, worker), (r: Lock) => ReleaseRow(r, now, reason))
  }

  /** Release the active locks of some executions. */
  function ReleaseExecutions(rows: seq<Lock>, executions: set<int>, now: int, reason: string): (r: seq<Lock>)
    ensures |r| == |rows|
  {
    Update(rows, (r: Lock) => IsActive(r) && r.holder.execution in executions,
           (r: Lock) => ReleaseRow(r, now, reason))
  }

  predicate Abandoned(r: Lock, id: nat, now: int, timeout: int)
  {
    r.id == id && IsActive(r) && r.heartbeat < now - timeout
  }

  /** Takeover gives the row a new token and a new holder; it leaves the project and the expiry alone. */
  function TakeoverRows(rows: seq<Lock>, id: nat, who: Holder, token: nat, now: int, timeout: int): seq<Lock>
  {
    Update(rows, (r: Lock) => Abandoned(r, id, now, timeout),
           (r: Lock) => r.(token := token, holder := who.(project := r.holder.project), heartbeat := now))
  }

  function RenewWorkerRows(rows: seq<Lock>, worker: nat, now: int, ttl: int): seq<Lock>
  {
    Update(rows, (r: Lock) => r.holder.worker == worker && IsActive(r),
           (r: Lock) => r.(heartbeat := now, expires := now + ttl))
  }

  function CleanupRows(rows: seq<Lock>, now: int): (r: seq<Lock>)
    ensures |r| == |rows|
  {
    Update(rows, (r: Lock) => IsActive(r) && r.expires <= now, (r: Lock) => ExpireRow(r, now))
  }

  function ForceReleaseRows(rows: seq<Lock>, project: Option<int>, now: int): seq<Lock>
  {
    Update(rows, (r: Lock) => IsActive(r) && (project.Some? ==> r.holder.project == project.value),
           (r: Lock) => ReleaseRow(r, now, "force_cleanup"))
  }

  /** Release the active locks whose run is not among the living. */
  function ReleaseOrphans(rows: seq<Lock>, living: set<int>, now: int): (r: seq<Lock>)
    ensures |r| == |rows|
  {
    Update(rows, (r: Lock) => IsActive(r) && r.holder.run !in living,
           (r: Lock) => ReleaseRow(r, now, "worker_lost_on_recovery"))
  }

  // ---- The operations ----

  /** Phase 1 of the acquisition: normalize every key, in request order. */
  method NormalizeRequests(norm: Normalizer, reqs: seq<Resource>) returns (r: Option<seq<Entry>>)
    ensures r.Some? <==> AllNormalize(norm, reqs)
    ensures r.Some? ==> r.value == Entries(norm, reqs)
  {
    var es := [];
    for i := 0 to |reqs|
      invariant AllNormalize(norm, reqs[..i])
      invariant es == Entries(norm, reqs[..i])
    {
      match Normalized(norm, reqs[i])
      case None => return None;
      case Some(e) =>
        assert reqs[..i + 1] == reqs[..i] + [reqs[i]];
        es := es + [e];
    }
    assert reqs[..|reqs|] == reqs;
    return Some(es);
  }

  /** Phase 2: expire the stale rows of every requested key. */
  method ExpireStale(db: Database, es: seq<Entry>, now: int)
    modifies db`locks
    ensures db.locks == ExpireKeys(old(db.locks), KeySet(es), now)
  {
    for i := 0 to |es|
      invariant db.locks == ExpireKeys(old(db.locks), KeySet(es[..i]), now)
    {
      var k := es[i].key;
      db.locks := Update(db.locks, (r: Lock) => IsActive(r) && r.key == k && r.expires <= now,
                         (r: Lock) => ExpireRow(r, now));
      assert es[..i + 1] == es[..i] + [es[i]];
      KeySetSnoc(es[..i], es[i]);
    }
    assert es[..|es|] == es;
  }

  /** Whether the insert of row i meets every constraint of the table. */
  predicate Insertable(rows: seq<Lock>, es: seq<Entry>, refsOk: bool, now: int)
  {
    && refsOk && NoDup(Keys(es))
    && forall i :: 0 <= i < |es| ==> WellTyped(es[i].key) && !Held(rows, es[i].key, now)
  }

  /** Phase 3: insert one row after the other; the first constraint violated ends it. */
  method InsertLocks(db: Database, es: seq<Entry>, who: Holder, now: int, ttl: int, ghost before: seq<Lock>)
    returns (ids: Option<seq<nat>>)
    requires es != []
    requires db.locks == ExpireKeys(before, KeySet(es), now)
    modifies db`locks, db`supply
    ensures ids.Some? <==> Insertable(before, es, RefsOk(old(db.State()), who), now)
    ensures ids.Some? ==>
              && db.locks == old(db.locks) + NewRows(es, who, old(db.supply), now, ttl)
              && db.supply == old(db.supply) + 2 * |es|
              && ids.value == DrawnIds(|es|, old(db.supply))
  {
    var refsOk := RefsOk(db.State(), who);
    var drawn := [];
    for i := 0 to |es|
      invariant db.supply == old(db.supply) + 2 * i
      invariant db.locks == old(db.locks) + NewRows(es[..i], who, old(db.supply), now, ttl)
      invariant drawn == DrawnIds(i, old(db.supply))
      invariant i > 0 ==> Insertable(before, es[..i], refsOk, now)
    {
      var row := NewRow(es[i], who, db.supply, now, ttl);
      NextInsert(before, es, i, who, old(db.supply), refsOk, now, ttl);
      InsertablePrefix(before, es, i + 1, refsOk, now);
      if !(WellTyped(row.key) && Unlocked(db.locks, row.key) && RefsOk(db.State(), who)) {
        return None;    // sqlite3.IntegrityError
      }
      db.locks := db.locks + [row];
      drawn := drawn + [row.id];
      db.supply := db.supply + 2;
      NewRowsSnoc(es, i, who, old(db.supply), now, ttl);
    }
    assert es[..|es|] == es;
    return Some(drawn);
  }

  lemma InsertablePrefix(rows: seq<Lock>, es: seq<Entry>, n: nat, refsOk: bool, now: int)
    requires n <= |es|
    ensures Insertable(rows, es, refsOk, now) ==> Insertable(rows, es[..n], refsOk, now)
  {
    assert forall i :: 0 <= i < n ==> Keys(es[..n])[i] == Keys(es)[i];
  }

  /** acquire_resource_locks. It commits and rolls back nothing itself: a refusal leaves behind the
      expired rows and the rows inserted before the conflict, which the caller rolls back. */
  method AcquireResourceLocks(db: Database, norm: Normalizer, reqs: seq<Resource>, who: Holder, now: int, ttl: int)
    returns (r: AcquireResult)
    modifies db`locks, db`supply
    ensures r.Granted? <==> Acquirable(norm, reqs, old(db.locks), RefsOk(old(db.State()), who), now)
    ensures r.Raised? <==> !AllNormalize(norm, reqs)
    ensures r.Granted? ==>
              var es := Sort(Entries(norm, reqs));
              && db.locks == GrantedRows(old(db.locks), es, who, old(db.supply), now, ttl)
              && db.supply == old(db.supply) + 2 * |reqs|
              && r.ids == DrawnIds(|es|, old(db.supply))
  {
    if reqs == [] {
      return Refused;
    }
    var es := NormalizeRequests(norm, reqs);
    if es == None {
      return Raised;
    }
    var sorted := Sort(es.value);
    AcquirableSorted(norm, reqs, db.locks, RefsOk(db.State(), who), now);
    ghost var before := db.locks;
    ExpireStale(db, sorted, now);
    var ids := InsertLocks(db, sorted, who, now, ttl, before);
    return if ids.Some? then Granted(ids.value) else Refused;
  }

  lemma AcquirableSorted(norm: Normalizer, reqs: seq<Resource>, rows: seq<Lock>, refsOk: bool, now: int)
    requires reqs != [] && AllNormalize(norm, reqs)
    ensures Acquirable(norm, reqs, rows, refsOk, now)
       <==> Insertable(rows, Sort(Entries(norm, reqs)), refsOk, now)
  {
    var es := Entries(norm, reqs);
    PermutedKeys(es, Sort(es));
    InsertableByKey(rows, Sort(es), refsOk, now);
  }

  lemma InsertableByKey(rows: seq<Lock>, es: seq<Entry>, refsOk: bool, now: int)
    ensures Insertable(rows, es, refsOk, now)
       <==> refsOk && NoDup(Keys(es)) && forall k :: k in Keys(es) ==> WellTyped(k) && !Held(rows, k, now)
  {
    if forall k :: k in Keys(es) ==> WellTyped(k) && !Held(rows, k, now) {
      forall i | 0 <= i < |es| ensures WellTyped(es[i].key) && !Held(rows, es[i].key, now) {
        assert Keys(es)[i] in Keys(es);
      }
    }
  }

  lemma KeySetSnoc(es: seq<Entry>, e: Entry)
    ensures KeySet(es + [e]) == KeySet(es) + {e.key}
  {
    var all := es + [e];
    forall k | k in KeySet(es) ensures k in KeySet(all) {
      var i :| 0 <= i < |es| && es[i].key == k;
      assert all[i].key == k;
    }
    assert all[|es|].key == e.key;
    assert e.key in KeySet(all);
  }

  lemma NewRowsSnoc(es: seq<Entry>, i: nat, who: Holder, supply: nat, now: int, ttl: int)
    requires i < |es|
    ensures NewRows(es[..i + 1], who, supply, now, ttl)
         == NewRows(es[..i], who, supply, now, ttl) + [NewRow(es[i], who, supply + 2 * i, now, ttl)]
  {
  }

  /** The i-th insert passes exactly when its key is neither held by an unexpired row nor requested
      before, and its other constraints hold. */
  lemma NextInsert(before: seq<Lock>, es: seq<Entry>, i: nat, who: Holder, supply: nat, refsOk: bool, now: int,
                   ttl: int)
    requires i < |es| && (i > 0 ==> Insertable(before, es[..i], refsOk, now))
    ensures var rows := ExpireKeys(before, KeySet(es), now) + NewRows(es[..i], who, supply, now, ttl);
            refsOk && WellTyped(es[i].key) && Unlocked(rows, es[i].key)
            <==> Insertable(before, es[..i + 1], refsOk, now)
  {
    var expired := ExpireKeys(before, KeySet(es), now);
    var rows := expired + NewRows(es[..i], who, supply, now, ttl);
    var k := es[i].key;
    UnlockedAfterExpiry(before, es, i, now);
    UnlockedAmongNew(es, i, who, supply, now, ttl);
    UnlockedConcat(expired, NewRows(es[..i], who, supply, now, ttl), k);
    assert forall j :: 0 <= j < i ==> es[..i + 1][j] == es[..i][j];
    assert es[..i + 1][i] == es[i];
  }

  lemma UnlockedConcat(a: seq<Lock>, b: seq<Lock>, k: Key)
    ensures Unlocked(a + b, k) <==> Unlocked(a, k) && Unlocked(b, k)
  {
    if Unlocked(a + b, k) {
      assert forall j :: 0 <= j < |a| ==> a[j] == (a + b)[j];
      assert forall j :: 0 <= j < |b| ==> b[j] == (a + b)[|a| + j];
    }
  }

  lemma UnlockedAfterExpiry(before: seq<Lock>, es: seq<Entry>, i: nat, now: int)
    requires i < |es|
    ensures Unlocked(ExpireKeys(before, KeySet(es), now), es[i].key) <==> !Held(before, es[i].key, now)
  {
  }

  lemma UnlockedAmongNew(es: seq<Entry>, i: nat, who: Holder, supply: nat, now: int, ttl: int)
    requires i < |es| && (i > 0 ==> NoDup(Keys(es[..i])))
    ensures Unlocked(NewRows(es[..i], who, supply, now, ttl), es[i].key) <==> NoDup(Keys(es[..i + 1]))
  {
    var added := NewRows(es[..i], who, supply, now, ttl);
    var ks := Keys(es[..i + 1]);
    assert ks == Keys(es[..i]) + [es[i].key];
    assert forall j :: 0 <= j < i ==> added[j].key == ks[j] && IsActive(added[j]);
    if NoDup(ks) {
      forall j | 0 <= j < |added| ensures !(IsActive(added[j]) && added[j].key == es[i].key) {
        assert ks[j] != ks[i];
      }
    }
    if Unlocked(added, es[i].key) {
      forall m, n | 0 <= m < n < |ks| ensures ks[m] != ks[n] {
        assert n == i ==> added[m].key != ks[n];
        assert n < i ==> Keys(es[..i])[m] != Keys(es[..i])[n];
      }
    }
  }

  // ---- ResourceLockManager: one transaction a call ----

  function Ttl(ttl: Option<int>): int
  {
    if ttl.Some? && ttl.value != 0 then ttl.value else DEFAULT_LOCK_TTL
  }

  method Acquire(db: Database, norm: Normalizer, reqs: seq<Resource>, who: Holder, now: int, ttl: Option<int>)
    returns (ids: Option<seq<nat>>)
    modifies db
    ensures ids.Some? <==> Acquirable(norm, reqs, old(db.locks), RefsOk(old(db.State()), who), now)
    ensures ids.Some? ==>
              var es := Sort(Entries(norm, reqs));
              && db.State() == old(db.State()).(
                   locks := GrantedRows(old(db.locks), es, who, old(db.supply), now, Ttl(ttl)),
                   supply := old(db.supply) + 2 * |reqs|)
              && ids.value == DrawnIds(|es|, old(db.supply))
    ensures ids.None? ==> db.State() == old(db.State())
  {
    var snapshot := db.State();
    var r := AcquireResourceLocks(db, norm, reqs, who, now, Ttl(ttl));
    match r
    case Granted(granted) => return Some(granted);
    case _ =>
      db.Restore(snapshot);
      return None;
  }

  method Renew(db: Database, id: nat, token: nat, worker: nat, now: int, ttl: Option<int>) returns (ok: bool)
    modifies db`locks
    ensures ok <==> Count(old(db.locks), (r: Lock) => Presents(r, id, token, worker)) == 1
    ensures db.locks == RenewRows(old(db.locks), id, token, worker, now, Ttl(ttl))
  {
    ok := Count(db.locks, (r: Lock) => Presents(r, id, token, worker)) == 1;
    db.locks := RenewRows(db.locks, id, token, worker, now, Ttl(ttl));
  }

  method Release(db: Database, id: nat, token: nat, worker: nat, now: int, reason: string) returns (ok: bool)
    modifies db`locks
    ensures ok <==> Count(old(db.locks), (r: Lock) => Presents(r, id, token, worker)) == 1
    ensures db.locks == ReleaseRows(old(db.locks), id, token, worker, now, reason)
  {
    ok := Count(db.locks, (r: Lock) => Presents(r, id, token, worker)) == 1;
    db.locks := ReleaseRows(db.locks, id, token, worker, now, reason);
  }

  method ReleaseAllForExecution(db: Database, execution: int, now: int, reason: string)
    modifies db`locks
    ensures db.locks == ReleaseExecutions(old(db.locks), {execution}, now, reason)
  {
    db.locks := ReleaseExecutions(db.locks, {execution}, now, reason);
  }

  /** takeover_expired_lock. A dangling reference raises and changes nothing. */
  method TakeoverExpiredLock(db: Database, id: nat, who: Holder, now: int, timeout: int)
    returns (token: Option<nat>)
    modifies db`locks, db`supply
    ensures token.Some? <==>
              && Count(old(db.locks), (r: Lock) => Abandoned(r, id, now, timeout)) == 1
              && TakeoverRefsOk(old(db.State()), who)
    ensures token.Some? ==>
              && token.value == old(db.supply) && db.supply == old(db.supply) + 1
              && db.locks == TakeoverRows(old(db.locks), id, who, token.value, now, timeout)
    ensures token.None? && Count(old(db.locks), (r: Lock) => Abandoned(r, id, now, timeout)) <= 1 ==>
              db.locks == old(db.locks)
  {
    var hits := Count(db.locks, (r: Lock) => Abandoned(r, id, now, timeout));
    if hits == 0 || !TakeoverRefsOk(db.State(), who) {
      return None;
    }
    var drawn := db.supply;
    db.supply := db.supply + 1;
    db.locks := TakeoverRows(db.locks, id, who, drawn, now, timeout);
    return if hits == 1 then Some(drawn) else None;
  }

  predicate TakeoverRefsOk(db: Db, who: Holder)
  {
    who.task in db.tasks && 1 <= who.execution <= |db.executions| && 1 <= who.run <= |db.runs|
  }

  method RenewAllForWorker(db: Database, worker: nat, now: int, ttl: Option<int>)
    modifies db`locks
    ensures db.locks == RenewWorkerRows(old(db.locks), worker, now, Ttl(ttl))
  {
    db.locks := RenewWorkerRows(db.locks, worker, now, Ttl(ttl));
  }

  method CleanupExpired(db: Database, now: int) returns (count: nat)
    modifies db`locks
    ensures db.locks == CleanupRows(old(db.locks), now)
    ensures count == 0 <==> db.locks == old(db.locks)
  {
    ghost var before := db.locks;
    var stale := (r: Lock) => IsActive(r) && r.expires <= now;
    count := Count(db.locks, stale);
    CountZero(db.locks, stale);
    db.locks := CleanupRows(db.locks, now);
    if count == 0 {
      assert db.locks == before;
    } else {
      ghost var i :| 0 <= i < |before| && stale(before[i]);
      assert db.locks[i].status == LockExpired;
    }
  }

  method ForceReleaseOrphaned(db: Database, project: Option<int>, now: int)
    modifies db`locks
    ensures db.locks == ForceReleaseRows(old(db.locks), project, now)
  {
    db.locks := ForceReleaseRows(db.locks, project, now);
  }
}
