/** What a lock is worth, in the columns of the table: when a request is granted, for how long the lock
    is held, when it may be taken over, and what it refers to. */
module LockTerms {
  import opened Schema
  import opened KeyOrder
  import opened ResourceLocks
  import opened LockProtocol

  // ---- When a request is granted ----

  /** An unexpired active row names this very resource. */
  predicate Occupied(rows: seq<Lock>, r: Resource, name: string, now: int)
  {
    exists i :: 0 <= i < |rows| && rows[i].status == LockActive && rows[i].expires > now
                && rows[i].key == Key(r.scope, r.scopeKey, r.kind, name)
  }

  /** The resource is one of the known kinds, has a name, and nobody holds it. */
  predicate Obtainable(norm: Normalizer, rows: seq<Lock>, r: Resource, now: int)
  {
    && r.scope in {"project", "workspace", "global"}
    && r.kind in {"file", "module", "db_table", "port", "service", "pkg_mgr", "workspace"}
    && norm(r.kind, r.rawKey).Some? && !Occupied(rows, r, norm(r.kind, r.rawKey).value, now)
  }

  /** Two requests ask for one resource: scope and kind are the same, and so are the normalized names. */
  predicate SameResource(norm: Normalizer, a: Resource, b: Resource)
  {
    && a.scope == b.scope && a.scopeKey == b.scopeKey && a.kind == b.kind
    && norm(a.kind, a.rawKey) == norm(b.kind, b.rawKey)
  }

  lemma OccupiedIsHeld(norm: Normalizer, rows: seq<Lock>, r: Resource, now: int)
    requires Normalized(norm, r).Some?
    ensures norm(r.kind, r.rawKey).Some?
    ensures Occupied(rows, r, norm(r.kind, r.rawKey).value, now) <==> Held(rows, Normalized(norm, r).value.key, now)
  {
  }

  lemma DistinctKeys(norm: Normalizer, reqs: seq<Resource>)
    requires AllNormalize(norm, reqs)
    ensures NoDup(Keys(Entries(norm, reqs)))
       <==> forall i, j :: 0 <= i < j < |reqs| ==> !SameResource(norm, reqs[i], reqs[j])
  {
    var ks := Keys(Entries(norm, reqs));
    forall i, j | 0 <= i < j < |reqs| ensures ks[i] == ks[j] <==> SameResource(norm, reqs[i], reqs[j]) {
      assert Normalized(norm, reqs[i]).Some? && Normalized(norm, reqs[j]).Some?;
    }
  }

  lemma ObtainableKeys(norm: Normalizer, reqs: seq<Resource>, rows: seq<Lock>, now: int)
    requires AllNormalize(norm, reqs)
    ensures (forall k :: k in Keys(Entries(norm, reqs)) ==> WellTyped(k) && !Held(rows, k, now))
       <==> forall i :: 0 <= i < |reqs| ==> Obtainable(norm, rows, reqs[i], now)
  {
    var ks := Keys(Entries(norm, reqs));
    forall i | 0 <= i < |reqs|
      ensures Obtainable(norm, rows, reqs[i], now) <==> WellTyped(ks[i]) && !Held(rows, ks[i], now)
    {
      OccupiedIsHeld(norm, rows, reqs[i], now);
    }
    if forall k :: k in ks ==> WellTyped(k) && !Held(rows, k, now) {
      assert forall i :: 0 <= i < |reqs| ==> ks[i] in ks;
    }
  }

  /** A request is granted exactly when it asks for something, its references resolve, each resource
      can be had, and none is asked for twice. */
  lemma GrantableExactly(norm: Normalizer, t: LockTable, op: Op)
    requires op.Acquire?
    ensures Step(norm, t, op).1
       <==> && op.reqs != [] && op.refsOk
            && (forall i :: 0 <= i < |op.reqs| ==> Obtainable(norm, t.rows, op.reqs[i], op.now))
            && forall i, j :: 0 <= i < j < |op.reqs| ==> !SameResource(norm, op.reqs[i], op.reqs[j])
  {
    if AllNormalize(norm, op.reqs) {
      DistinctKeys(norm, op.reqs);
      ObtainableKeys(norm, op.reqs, t.rows, op.now);
    } else {
      var i :| 0 <= i < |op.reqs| && Normalized(norm, op.reqs[i]) == None;
      assert !Obtainable(norm, t.rows, op.reqs[i], op.now);
    }
  }

  // ---- For how long ----

  /** The row an operation has just given to, or confirmed for, a holder. */
  predicate JustConfirmed(t: LockTable, u: LockTable, op: Op, i: nat)
    requires i < |u.rows|
  {
    match op
    case Acquire(_, _, _, _, _) => i >= |t.rows|
    case Renew(id, _, _, _, _) => u.rows[i].id == id
    case Takeover(id, _, _, _, _) => u.rows[i].id == id
    case RenewWorker(worker, _, _) => u.rows[i].status == LockActive && u.rows[i].holder.worker == worker
    case _ => false
  }

  /** Whoever it is and whatever the timeout, the lock can be taken over exactly from then on. */
  ghost predicate AbandonedAfter(norm: Normalizer, t: LockTable, i: nat, since: int)
    requires i < |t.rows|
  {
    forall who, later, timeout ::
      Step(norm, t, Takeover(t.rows[i].id, who, true, later, timeout)).1 <==> later > since + timeout
  }

  lemma FreshHeartbeat(norm: Normalizer, t: LockTable, i: nat)
    requires Valid(t) && i < |t.rows| && t.rows[i].status == LockActive
    ensures AbandonedAfter(norm, t, i, t.rows[i].heartbeat)
  {
    forall who, later, timeout
      ensures Step(norm, t, Takeover(t.rows[i].id, who, true, later, timeout)).1
         <==> later > t.rows[i].heartbeat + timeout
    {
      var op := Takeover(t.rows[i].id, who, true, later, timeout);
      VerdictExact(norm, t, op);
      assert later > t.rows[i].heartbeat + timeout ==> Hit(op, t.rows[i]);
    }
  }

  lemma ConfirmedRow(norm: Normalizer, t: LockTable, op: Op, i: nat)
    requires Valid(t) && Step(norm, t, op).1 && i < |Step(norm, t, op).0.rows|
    requires JustConfirmed(t, Step(norm, t, op).0, op, i)
    ensures var r := Step(norm, t, op).0.rows[i];
            && r.status == LockActive && r.heartbeat == op.now
            && (!op.Takeover? ==> r.expires == op.now + op.ttl)
  {
    if op.Renew? || op.Takeover? {
      VerdictExact(norm, t, op);
      var j :| 0 <= j < |t.rows| && Hit(op, t.rows[j]);
      EffectExact(norm, t, op, j);
      assert i == j;
    }
  }

  /** A lock granted, renewed, renewed by its worker or taken over can be taken over exactly when more
      than the heartbeat timeout has passed since. */
  lemma HeartbeatProtects(norm: Normalizer, t: LockTable, op: Op, i: nat)
    requires Valid(t) && Step(norm, t, op).1 && i < |Step(norm, t, op).0.rows|
    requires JustConfirmed(t, Step(norm, t, op).0, op, i)
    ensures AbandonedAfter(norm, Step(norm, t, op).0, i, op.now)
  {
    ConfirmedRow(norm, t, op, i);
    StepKeeps(norm, t, op);
    FreshHeartbeat(norm, Step(norm, t, op).0, i);
  }

  /** A request for one well-formed resource, by anybody, is granted exactly from then on. */
  ghost predicate FreeFrom(norm: Normalizer, t: LockTable, r: Resource, since: int)
  {
    forall who, later, ttl :: Step(norm, t, Acquire([r], who, true, later, ttl)).1 <==> later >= since
  }

  /** The resource a row is a lock on. */
  predicate LockOn(norm: Normalizer, row: Lock, r: Resource)
  {
    norm(r.kind, r.rawKey).Some? && row.key == Key(r.scope, r.scopeKey, r.kind, norm(r.kind, r.rawKey).value)
    && WellTyped(row.key)
  }

  lemma RefusedUntilExpiry(norm: Normalizer, t: LockTable, i: nat, r: Resource)
    requires Valid(t) && i < |t.rows| && t.rows[i].status == LockActive && LockOn(norm, t.rows[i], r)
    ensures FreeFrom(norm, t, r, t.rows[i].expires)
  {
    forall who, later, ttl
      ensures Step(norm, t, Acquire([r], who, true, later, ttl)).1 <==> later >= t.rows[i].expires
    {
      GrantableExactly(norm, t, Acquire([r], who, true, later, ttl));
      assert [r][0] == r;
      var name := norm(r.kind, r.rawKey).value;
      assert Occupied(t.rows, r, name, later) <==> t.rows[i].expires > later by {
        if Occupied(t.rows, r, name, later) {
          var j :| 0 <= j < |t.rows| && t.rows[j].status == LockActive && t.rows[j].expires > later
                   && t.rows[j].key == Key(r.scope, r.scopeKey, r.kind, name);
          assert IsActive(t.rows[i]) && IsActive(t.rows[j]);
          assert j == i;
        }
      }
    }
  }

  /** What the caller of acquire and renew may leave out is 300 seconds. */
  predicate IsTerm(given: Option<int>, ttl: int)
  {
    if given in {None, Some(0)} then ttl == 300 else ttl == given.value
  }

  /** A lock granted or renewed for a term, or without one, is refused to everybody exactly until the
      term, or 300 seconds, are over. */
  lemma HeldForItsTerm(norm: Normalizer, t: LockTable, op: Op, i: nat, r: Resource, given: Option<int>)
    requires Valid(t) && Step(norm, t, op).1 && i < |Step(norm, t, op).0.rows| && !op.Takeover?
    requires JustConfirmed(t, Step(norm, t, op).0, op, i) && op.ttl == Ttl(given)
    requires LockOn(norm, Step(norm, t, op).0.rows[i], r)
    ensures FreeFrom(norm, Step(norm, t, op).0, r, Step(norm, t, op).0.rows[i].expires)
    ensures IsTerm(given, Step(norm, t, op).0.rows[i].expires - op.now)
  {
    ConfirmedRow(norm, t, op, i);
    StepKeeps(norm, t, op);
    RefusedUntilExpiry(norm, Step(norm, t, op).0, i, r);
  }

  // ---- The order in which locks are taken ----

  /** Lexicographic order, by the first difference: the strings agree up to a place where the first
      ends, or has the smaller character. */
  lemma {:induction false} StringLeExactly(a: string, b: string)
    ensures StringLe(a, b) <==> Smaller(a, b)
  {
    if a == [] {
      assert SmallerAt(a, b, 0);
    } else if b == [] || a[0] != b[0] {
      assert b != [] && a[0] < b[0] ==> SmallerAt(a, b, 0);
      assert forall n :: SmallerAt(a, b, n) ==> n == 0;
    } else {
      StringLeExactly(a[1..], b[1..]);
      forall n ensures n > 0 && SmallerAt(a[1..], b[1..], n - 1) <==> SmallerAt(a, b, n) {
        if 0 < n <= |a| && n <= |b| {
          assert a[..n] == [a[0]] + a[1..][..n - 1] && b[..n] == [b[0]] + b[1..][..n - 1];
        }
      }
      if exists n :: SmallerAt(a[1..], b[1..], n) {
        var n :| SmallerAt(a[1..], b[1..], n);
        assert SmallerAt(a, b, n + 1);
      }
      if exists n :: SmallerAt(a, b, n) {
        var n :| SmallerAt(a, b, n);
        assert SmallerAt(a[1..], b[1..], n - 1);
      }
    }
  }

  predicate SmallerAt(a: string, b: string, n: int)
  {
    0 <= n <= |a| && n <= |b| && a[..n] == b[..n] && (n == |a| || (n < |b| && a[n] < b[n]))
  }

  ghost predicate Smaller(a: string, b: string) { exists n :: SmallerAt(a, b, n) }

  /** The order of scope, scope key, kind and name. */
  ghost predicate ComesFirst(a: Key, b: Key)
  {
    if a.scope != b.scope then Smaller(a.scope, b.scope)
    else if a.scopeKey != b.scopeKey then Smaller(a.scopeKey, b.scopeKey)
    else if a.kind != b.kind then Smaller(a.kind, b.kind)
    else Smaller(a.name, b.name)
  }

  lemma KeyLeExactly(a: Key, b: Key)
    ensures KeyLe(a, b) <==> ComesFirst(a, b)
  {
    StringLeExactly(a.scope, b.scope);
    StringLeExactly(a.scopeKey, b.scopeKey);
    StringLeExactly(a.kind, b.kind);
    StringLeExactly(a.name, b.name);
  }

  predicate DrawnBefore(a: Lock, b: Lock) { a.id < a.token < b.id < b.token }

  /** Of two locks granted together the one that comes first in the fixed order was inserted, and its
      identifiers drawn, first. */
  lemma GrantedInOrder(norm: Normalizer, t: LockTable, op: Op, u: LockTable, i: nat, j: nat)
    requires op.Acquire? && Step(norm, t, op) == (u, true) && |t.rows| <= i < j < |u.rows|
    ensures u.rows[i].key != u.rows[j].key
    ensures ComesFirst(u.rows[i].key, u.rows[j].key) && DrawnBefore(u.rows[i], u.rows[j])
  {
    GrantIsSorted(norm, t, op, u);
    var es := Sort(Entries(norm, op.reqs));
    SortedRows(t.rows, es, op.who, t.supply, op.now, op.ttl, u.rows, i, j);
  }

  lemma GrantIsSorted(norm: Normalizer, t: LockTable, op: Op, u: LockTable)
    requires op.Acquire? && Step(norm, t, op) == (u, true)
    ensures AllNormalize(norm, op.reqs)
    ensures var es := Sort(Entries(norm, op.reqs));
            && u.rows == GrantedRows(t.rows, es, op.who, t.supply, op.now, op.ttl)
            && Sorted(es) && NoDup(Keys(es))
  {
    AcquirableSorted(norm, op.reqs, t.rows, op.refsOk, op.now);
  }

  lemma SortedRows(rows: seq<Lock>, es: seq<Entry>, who: Holder, supply: nat, now: int, ttl: int, u: seq<Lock>,
                   i: nat, j: nat)
    requires Sorted(es) && NoDup(Keys(es)) && u == GrantedRows(rows, es, who, supply, now, ttl)
    requires |rows| <= i < j < |u|
    ensures u[i].key != u[j].key && ComesFirst(u[i].key, u[j].key) && DrawnBefore(u[i], u[j])
  {
    var m, n := i - |rows|, j - |rows|;
    assert Keys(es)[m] == es[m].key && Keys(es)[n] == es[n].key;
    KeyLeExactly(es[m].key, es[n].key);
  }

  // ---- What a lock refers to ----

  /** The foreign keys of the lock table. */
  predicate Referenced(db: Db)
  {
    forall i :: 0 <= i < |db.locks| ==>
      && db.locks[i].holder.project in db.projects && db.locks[i].holder.task in db.tasks
      && 1 <= db.locks[i].holder.execution <= |db.executions| && 1 <= db.locks[i].holder.run <= |db.runs|
  }

  /** What is not acquired or taken over keeps its holder. */
  lemma HoldersStay(norm: Normalizer, t: LockTable, op: Op)
    requires !op.Acquire? && !op.Takeover?
    ensures var u := Step(norm, t, op).0;
            |u.rows| == |t.rows| && forall i :: 0 <= i < |t.rows| ==> u.rows[i].holder == t.rows[i].holder
  {
  }

  lemma GrantReferences(db: Db, es: seq<Entry>, who: Holder, supply: nat, now: int, ttl: int)
    requires Referenced(db) && RefsOk(db, who)
    ensures Referenced(db.(locks := GrantedRows(db.locks, es, who, supply, now, ttl)))
  {
  }

  lemma TakeoverReferences(db: Db, id: nat, who: Holder, token: nat, now: int, timeout: int)
    requires Referenced(db) && TakeoverRefsOk(db, who)
    ensures Referenced(db.(locks := TakeoverRows(db.locks, id, who, token, now, timeout)))
  {
  }

  /** No lock is granted to, or taken over for, a project, task, execution or run that does not exist. */
  lemma ReferencesKept(norm: Normalizer, db: Db, op: Op)
    requires Referenced(db)
    requires op.Acquire? ==> op.refsOk == RefsOk(db, op.who)
    requires op.Takeover? ==> op.refsOk == TakeoverRefsOk(db, op.who)
    ensures Referenced(db.(locks := Step(norm, LockTable(db.locks, db.supply), op).0.rows))
  {
    var t := LockTable(db.locks, db.supply);
    if op.Acquire? {
      if Step(norm, t, op).1 {
        GrantReferences(db, Sort(Entries(norm, op.reqs)), op.who, t.supply, op.now, op.ttl);
      }
    } else if op.Takeover? {
      if Step(norm, t, op).1 {
        TakeoverReferences(db, op.id, op.who, t.supply, op.now, op.timeout);
      }
    } else {
      HoldersStay(norm, t, op);
    }
  }

  /** And nothing is refused for references that exist. */
  lemma ReferencesSuffice(norm: Normalizer, db: Db, t: LockTable, op: Op)
    requires op.Acquire? || op.Takeover?
    requires op.refsOk == if op.Acquire? then RefsOk(db, op.who) else TakeoverRefsOk(db, op.who)
    requires op.Acquire? ==> op.who.project in db.projects
    requires op.who.task in db.tasks && 1 <= op.who.execution <= |db.executions| && 1 <= op.who.run <= |db.runs|
    ensures Step(norm, t, op) == Step(norm, t, op.(refsOk := true))
  {
  }
}
