/** The locks of a claimed group, file by file, and which claims exclude each other by their files. */
module FileLocks {
  import opened Schema
  import opened KeyOrder
  import opened ResourceLocks
  import opened Leases
  import opened ParallelScheduler
  import opened GroupClaims
  import Text

  /** The lock of one file: in the scope of its project, under its normalized name. */
  function FileKey(project: int, name: string): Key
  {
    Key("project", "project:" + Text.Decimal(project), "file", name)
  }

  /** An active lock on the file, for this holder, from now on for 300 seconds. */
  predicate IsFileLock(norm: Normalizer, r: Lock, f: string, who: Holder, now: int)
  {
    && norm("file", f).Some? && r.key == FileKey(who.project, norm("file", f).value) && r.rawKey == f
    && r.holder == who && r.status == LockActive && r.lockedAt == now && r.heartbeat == now
    && r.expires == now + 300 && r.releasedAt == None
  }

  /** The file is locked by a row from position n on. */
  predicate FileLocked(norm: Normalizer, rows: seq<Lock>, n: nat, f: string, who: Holder, now: int)
  {
    exists j :: n <= j < |rows| && IsFileLock(norm, rows[j], f, who, now)
  }

  /** The file's entry is among those a task is granted. */
  lemma EntryOfFile(norm: Normalizer, t: Candidate, project: int, f: string) returns (m: nat)
    requires FilesNormalize(norm, t, project) && f in t.files
    ensures norm("file", f).Some? && m < |SortedEntries(norm, t, project)|
    ensures SortedEntries(norm, t, project)[m] == Entry(FileKey(project, norm("file", f).value), f)
  {
    var es := Entries(norm, Resources(t.files, project));
    var k :| 0 <= k < |t.files| && t.files[k] == f;
    assert Normalized(norm, Resources(t.files, project)[k]).Some?;
    assert es[k] == Entry(FileKey(project, norm("file", f).value), f);
    assert es[k] in multiset(SortedEntries(norm, t, project));
    m :| 0 <= m < |SortedEntries(norm, t, project)| && SortedEntries(norm, t, project)[m] == es[k];
  }

  lemma GrantLocksFile(norm: Normalizer, rows: seq<Lock>, es: seq<Entry>, who: Holder, base: nat, now: int, m: nat,
                       f: string)
    requires m < |es| && norm("file", f).Some? && es[m] == Entry(FileKey(who.project, norm("file", f).value), f)
    ensures FileLocked(norm, GrantedRows(rows, es, who, base, now, GROUP_LOCK_TTL), |rows|, f, who, now)
  {
    GrantShape(rows, es, who, base, now);
    assert IsFileLock(norm, GrantedRows(rows, es, who, base, now, GROUP_LOCK_TTL)[|rows| + m], f, who, now);
  }

  lemma RoundLocksFile(norm: Normalizer, c: Claim, t: Candidate, project: int, run: int, now: int, f: string)
    requires FilesNormalize(norm, t, project) && f in t.files
    ensures var d := Rounded(norm, c, t, project, run, now);
            FileLocked(norm, d.db.locks, |c.db.locks|, f, NextHolder(c, t, project, run), now)
  {
    var m := EntryOfFile(norm, t, project, f);
    RoundGrant(norm, c, t, project, run, now);
    GrantLocksFile(norm, c.db.locks, SortedEntries(norm, t, project), NextHolder(c, t, project, run), c.db.supply + 1,
                   now, m, f);
  }

  lemma RoundGrant(norm: Normalizer, c: Claim, t: Candidate, project: int, run: int, now: int)
    requires FilesNormalize(norm, t, project)
    ensures Rounded(norm, c, t, project, run, now).db.locks
         == GrantedRows(c.db.locks, SortedEntries(norm, t, project), NextHolder(c, t, project, run), c.db.supply + 1,
                        now, GROUP_LOCK_TTL)
  {
  }

  /** The locks of earlier rounds stay, because they have not expired. */
  lemma RoundKeepsFile(norm: Normalizer, c: Claim, t: Candidate, project: int, run: int, now: int, n: nat, f: string,
                       who: Holder)
    requires FilesNormalize(norm, t, project) && FileLocked(norm, c.db.locks, n, f, who, now)
    ensures FileLocked(norm, Rounded(norm, c, t, project, run, now).db.locks, n, f, who, now)
  {
    var j :| n <= j < |c.db.locks| && IsFileLock(norm, c.db.locks[j], f, who, now);
    var rows := Rounded(norm, c, t, project, run, now).db.locks;
    RoundGrant(norm, c, t, project, run, now);
    GrantShape(c.db.locks, SortedEntries(norm, t, project), NextHolder(c, t, project, run), c.db.supply + 1, now);
    assert rows[j] == c.db.locks[j];
  }

  /** After a claim every file of every task is locked, under its own project's name for it, for the
      task's own execution and worker. */
  lemma {:induction false} ClaimLocksFiles(norm: Normalizer, db: Db, ts: seq<Candidate>, project: int, run: int,
                                           now: int, c: Claim, i: nat, f: string)
    requires ClaimAll(norm, db, ts, project, run, now) == Some(c) && i < |ts| && f in ts[i].files
    ensures |c.workers| == |c.executions| == |ts| && |c.db.locks| >= |db.locks|
    ensures FileLocked(norm, c.db.locks, |db.locks|, f,
                       Holder(project, ts[i].id, c.executions[i], run, c.workers[i]), now)
  {
    var front, t := ts[..|ts| - 1], ts[|ts| - 1];
    assert ts == front + [t];
    var b := ClaimAll(norm, db, front, project, run, now).value;
    ClaimRecords(norm, db, front, project, run, now, b);
    ClaimGrows(norm, db, front, project, run, now, b);
    RoundEffect(norm, b, t, project, run, now);
    if i < |front| {
      ClaimLocksFiles(norm, db, front, project, run, now, b, i, f);
      RoundKeepsFile(norm, b, t, project, run, now, |db.locks|, f,
                     Holder(project, ts[i].id, b.executions[i], run, b.workers[i]));
    } else {
      RoundLocksFile(norm, b, t, project, run, now, f);
      var j :| |b.db.locks| <= j < |c.db.locks|
               && IsFileLock(norm, c.db.locks[j], f, NextHolder(b, t, project, run), now);
      assert |db.locks| <= j;
    }
  }

  lemma ClaimGrows(norm: Normalizer, db: Db, ts: seq<Candidate>, project: int, run: int, now: int, c: Claim)
    requires ClaimAll(norm, db, ts, project, run, now) == Some(c)
    ensures |c.db.locks| >= |db.locks|
  {
    ClaimExact(norm, db, ts, project, run, now);
    ClaimLocks(norm, db, ts, project, run, now, c);
  }

  // ---- Names of projects ----

  lemma DecimalInjective(a: int, b: int)
    requires Text.Decimal(a) == Text.Decimal(b)
    ensures a == b
  {
    assert a < 0 ==> !Text.IsDigit(Text.Decimal(a)[0]);
    assert b < 0 ==> !Text.IsDigit(Text.Decimal(b)[0]);
    Text.NumeralReads(if a < 0 then -a else a);
    Text.NumeralReads(if b < 0 then -b else b);
    if a < 0 {
      assert Text.Decimal(a)[1..] == Text.Numeral(-a) && Text.Decimal(b)[1..] == Text.Numeral(-b);
    }
  }

  lemma FileKeysDiffer(p: int, q: int, m: string, n: string)
    ensures FileKey(p, m) == FileKey(q, n) <==> p == q && m == n
  {
    if FileKey(p, m) == FileKey(q, n) {
      assert ("project:" + Text.Decimal(p))[8..] == Text.Decimal(p);
      assert ("project:" + Text.Decimal(q))[8..] == Text.Decimal(q);
      DecimalInjective(p, q);
    }
  }

  /** The keys of a group are those of the files of its tasks. */
  lemma {:induction false} KeysAreFiles(norm: Normalizer, ts: seq<Candidate>, project: int, k: Key)
    requires GroupNormalizes(norm, ts, project)
    ensures k in GroupKeys(norm, ts, project) <==> exists i, f :: HasFile(norm, ts, project, k, i, f)
  {
    if ts != [] {
      var front, t := ts[..|ts| - 1], ts[|ts| - 1];
      KeysAreFiles(norm, front, project, k);
      KeysOfTask(norm, t, project, k);
      assert ts == front + [t];
      FilesOfFront(norm, front, t, project, k);
    }
  }

  /** A group has the file of a key in its last task or before. */
  lemma FilesOfFront(norm: Normalizer, front: seq<Candidate>, t: Candidate, project: int, k: Key)
    ensures (exists i, f :: HasFile(norm, front + [t], project, k, i, f))
       <==> || (exists i, f :: HasFile(norm, front, project, k, i, f))
            || exists f :: f in t.files && norm("file", f).Some? && k == FileKey(project, norm("file", f).value)
  {
    var ts := front + [t];
    if exists i, f :: HasFile(norm, ts, project, k, i, f) {
      var i, f :| HasFile(norm, ts, project, k, i, f);
      assert i < |front| ==> HasFile(norm, front, project, k, i, f);
    }
    if exists i, f :: HasFile(norm, front, project, k, i, f) {
      var i, f :| HasFile(norm, front, project, k, i, f);
      assert HasFile(norm, ts, project, k, i, f);
    }
    if exists f :: f in t.files && norm("file", f).Some? && k == FileKey(project, norm("file", f).value) {
      var f :| f in t.files && norm("file", f).Some? && k == FileKey(project, norm("file", f).value);
      assert HasFile(norm, ts, project, k, |front|, f);
    }
  }

  /** The key is that of the file of the task at position i. */
  predicate HasFile(norm: Normalizer, ts: seq<Candidate>, project: int, k: Key, i: int, f: string)
  {
    && 0 <= i < |ts| && f in ts[i].files && norm("file", f).Some? && k == FileKey(project, norm("file", f).value)
  }

  lemma KeysOfTask(norm: Normalizer, t: Candidate, project: int, k: Key)
    requires FilesNormalize(norm, t, project)
    ensures k in FileKeys(norm, t, project)
       <==> exists f :: f in t.files && norm("file", f).Some? && k == FileKey(project, norm("file", f).value)
  {
    var reqs, ks := Resources(t.files, project), FileKeys(norm, t, project);
    forall i | 0 <= i < |t.files|
      ensures norm("file", t.files[i]).Some? && ks[i] == FileKey(project, norm("file", t.files[i]).value)
    {
      assert Normalized(norm, reqs[i]).Some?;
    }
    if exists f :: f in t.files && norm("file", f).Some? && k == FileKey(project, norm("file", f).value) {
      var f :| f in t.files && norm("file", f).Some? && k == FileKey(project, norm("file", f).value);
      var i :| 0 <= i < |t.files| && t.files[i] == f;
      assert ks[i] == k;
    }
  }

  // ---- Which tasks are planned together ----

  predicate Nameable(norm: Normalizer, files: seq<string>)
  {
    forall i :: 0 <= i < |files| ==> norm("file", files[i]).Some?
  }

  /** Some file of b, before any that has no name, has the name of a file of a. */
  predicate Clash(norm: Normalizer, a: seq<string>, b: seq<string>)
  {
    exists i, j :: 0 <= i < |a| && 0 <= j < |b| && Nameable(norm, b[..j + 1])
                   && norm("file", a[i]) == norm("file", b[j])
  }

  lemma NameableExactly(norm: Normalizer, files: seq<string>, project: int)
    ensures AllNormalize(norm, Resources(files, project)) <==> Nameable(norm, files)
  {
    var reqs := Resources(files, project);
    assert forall i :: 0 <= i < |files| ==> (Normalized(norm, reqs[i]).Some? <==> norm("file", files[i]).Some?);
  }

  /** The keys of a list of files are those of its members. */
  lemma KeysOfFiles(norm: Normalizer, files: seq<string>, project: int, name: string)
    requires AllNormalize(norm, Resources(files, project))
    ensures FileKey(project, name) in EntryKeys(norm, Resources(files, project))
       <==> exists i :: 0 <= i < |files| && norm("file", files[i]) == Some(name)
  {
    var reqs := Resources(files, project);
    var es := Entries(norm, reqs);
    forall i | 0 <= i < |files|
      ensures norm("file", files[i]).Some? && es[i].key == FileKey(project, norm("file", files[i]).value)
    {
      assert Normalized(norm, reqs[i]).Some?;
    }
    if exists i :: 0 <= i < |files| && norm("file", files[i]) == Some(name) {
      var i :| 0 <= i < |files| && norm("file", files[i]) == Some(name);
      assert es[i].key in KeySet(es);
    }
  }

  lemma ClashAt(norm: Normalizer, a: seq<string>, b: seq<string>, project: int, j: nat)
    requires AllNormalize(norm, Resources(a, project)) && j < |b|
    requires Nameable(norm, b[..j + 1])
    ensures AllNormalize(norm, Resources(b, project)[..j + 1])
    ensures Normalized(norm, Resources(b, project)[j]).Some?
    ensures Normalized(norm, Resources(b, project)[j]).value.key in EntryKeys(norm, Resources(a, project))
       <==> exists i :: 0 <= i < |a| && norm("file", a[i]) == norm("file", b[j])
  {
    assert Resources(b, project)[..j + 1] == Resources(b[..j + 1], project);
    NameableExactly(norm, b[..j + 1], project);
    assert b[..j + 1][j] == b[j];
    KeysOfFiles(norm, a, project, norm("file", b[j]).value);
  }

  /** The planner's verdict on two tasks, file by file: the first must have names for all its files; then
      they conflict when a file of the second clashes with one of the first, and are compatible when the
      second has names for all its files and none clashes. */
  lemma VerdictExactly(norm: Normalizer, a: seq<string>, b: seq<string>, project: int)
    ensures var v := VerdictOf(norm, Resources(a, project), Resources(b, project));
            && (v == Conflict <==> Nameable(norm, a) && Clash(norm, a, b))
            && (v == Compatible <==> Nameable(norm, a) && Nameable(norm, b) && !Clash(norm, a, b))
  {
    NameableExactly(norm, a, project);
    NameableExactly(norm, b, project);
    if Nameable(norm, a) {
      ConflictIsClash(norm, a, b, project);
      if Nameable(norm, b) {
        DisjointIsNoClash(norm, a, b, project);
      }
    }
  }

  lemma ConflictIsClash(norm: Normalizer, a: seq<string>, b: seq<string>, project: int)
    requires Nameable(norm, a) && AllNormalize(norm, Resources(a, project))
    ensures InConflict(norm, Resources(a, project), Resources(b, project)) <==> Clash(norm, a, b)
  {
    var reqs := Resources(b, project);
    forall j | 0 <= j < |b|
      ensures reqs[j].rawKey == b[j] && (AllNormalize(norm, reqs[..j + 1]) <==> Nameable(norm, b[..j + 1]))
    {
      assert reqs[..j + 1] == Resources(b[..j + 1], project);
      NameableExactly(norm, b[..j + 1], project);
    }
    forall j | 0 <= j < |b| && Nameable(norm, b[..j + 1])
      ensures Normalized(norm, reqs[j]).Some?
      ensures Normalized(norm, reqs[j]).value.key in EntryKeys(norm, Resources(a, project))
         <==> exists i :: 0 <= i < |a| && norm("file", a[i]) == norm("file", b[j])
    {
      ClashAt(norm, a, b, project, j);
    }
  }

  lemma DisjointIsNoClash(norm: Normalizer, a: seq<string>, b: seq<string>, project: int)
    requires Nameable(norm, b) && AllNormalize(norm, Resources(a, project)) && AllNormalize(norm, Resources(b, project))
    ensures EntryKeys(norm, Resources(a, project)) !! EntryKeys(norm, Resources(b, project)) <==> !Clash(norm, a, b)
  {
    var es := Entries(norm, Resources(b, project));
    forall j | 0 <= j < |b|
      ensures Nameable(norm, b[..j + 1])
      ensures es[j].key in EntryKeys(norm, Resources(a, project))
         <==> exists i :: 0 <= i < |a| && norm("file", a[i]) == norm("file", b[j])
    {
      ClashAt(norm, a, b, project, j);
    }
    if Clash(norm, a, b) {
      var i, j :| 0 <= i < |a| && 0 <= j < |b| && Nameable(norm, b[..j + 1])
                  && norm("file", a[i]) == norm("file", b[j]);
      assert es[j].key in EntryKeys(norm, Resources(b, project));
    }
  }

  // ---- Which claims exclude each other ----

  predicate SomeCommonTask(ts: seq<Candidate>, us: seq<Candidate>)
  {
    exists i, j :: 0 <= i < |ts| && 0 <= j < |us| && ts[i].id == us[j].id
  }

  /** Two tasks name one file. */
  predicate SomeCommonFile(norm: Normalizer, ts: seq<Candidate>, us: seq<Candidate>)
  {
    exists i, j, f, g :: 0 <= i < |ts| && 0 <= j < |us| && f in ts[i].files && g in us[j].files
                         && norm("file", f) == norm("file", g)
  }

  /** After a claim another group can be claimed exactly when it could be before, shares no task with the
      first, and, if it is one of the same project, no file. Groups of different projects never exclude
      each other by their files. */
  lemma ClaimsExcludeExactly(norm: Normalizer, db: Db, ts: seq<Candidate>, p: int, run: int, now: int, c: Claim,
                             us: seq<Candidate>, q: int, other: int)
    requires ClaimAll(norm, db, ts, p, run, now) == Some(c)
    ensures ClaimAll(norm, c.db, us, q, other, now).Some?
       <==> && ClaimAll(norm, db, us, q, other, now).Some? && !SomeCommonTask(ts, us)
            && (p == q ==> !SomeCommonFile(norm, ts, us))
  {
    ClaimExact(norm, db, ts, p, run, now);
    ClaimExact(norm, db, us, q, other, now);
    ClaimExact(norm, c.db, us, q, other, now);
    if GroupNormalizes(norm, us, q) {
      ClaimableAfter(norm, db, ts, p, now, c, us, q, other);
    }
  }

  lemma ClaimableAfter(norm: Normalizer, db: Db, ts: seq<Candidate>, p: int, now: int, c: Claim, us: seq<Candidate>,
                       q: int, other: int)
    requires GroupNormalizes(norm, ts, p) && GroupNormalizes(norm, us, q) && Advanced(norm, db, ts, p, now, c)
    ensures GroupClaimable(norm, c.db, us, q, other, now)
       <==> && GroupClaimable(norm, db, us, q, other, now) && !SomeCommonTask(ts, us)
            && (p == q ==> !SomeCommonFile(norm, ts, us))
  {
    FreshAfter(norm, db, ts, p, now, c, us);
    SharedKeys(norm, ts, p, us, q);
    FreeKeys(norm, db, c.db, GroupKeys(norm, ts, p), GroupKeys(norm, us, q), now);
  }

  predicate Overlap(a: seq<Key>, b: seq<Key>) { exists k :: k in a && k in b }

  predicate AllFree(rows: seq<Lock>, ks: seq<Key>, now: int) { forall k :: k in ks ==> !Held(rows, k, now) }

  /** Keys are free afterwards exactly when they were before and are not among the claimed ones. */
  lemma FreeKeys(norm: Normalizer, a: Db, b: Db, claimed: seq<Key>, ks: seq<Key>, now: int)
    requires forall k :: Held(b.locks, k, now) <==> Held(a.locks, k, now) || k in claimed
    ensures AllFree(b.locks, ks, now) <==> AllFree(a.locks, ks, now) && !Overlap(claimed, ks)
  {
    if AllFree(b.locks, ks, now) {
      forall k | k in ks ensures !Held(a.locks, k, now) && k !in claimed {
        assert !Held(b.locks, k, now);
      }
    }
  }

  lemma FreshAfter(norm: Normalizer, db: Db, ts: seq<Candidate>, p: int, now: int, c: Claim, us: seq<Candidate>)
    requires GroupNormalizes(norm, ts, p) && Advanced(norm, db, ts, p, now, c)
    ensures (forall j :: 0 <= j < |us| ==> Fresh(c.db, us[j]))
       <==> (forall j :: 0 <= j < |us| ==> Fresh(db, us[j])) && !SomeCommonTask(ts, us)
  {
  }

  lemma SharedKeys(norm: Normalizer, ts: seq<Candidate>, p: int, us: seq<Candidate>, q: int)
    requires GroupNormalizes(norm, ts, p) && GroupNormalizes(norm, us, q)
    ensures Overlap(GroupKeys(norm, ts, p), GroupKeys(norm, us, q)) <==> p == q && SomeCommonFile(norm, ts, us)
  {
    if Overlap(GroupKeys(norm, ts, p), GroupKeys(norm, us, q)) {
      var k :| k in GroupKeys(norm, ts, p) && k in GroupKeys(norm, us, q);
      SharedFile(norm, ts, p, us, q, k);
    }
    if p == q && SomeCommonFile(norm, ts, us) {
      var i, j, f, g :| 0 <= i < |ts| && 0 <= j < |us| && f in ts[i].files && g in us[j].files
                        && norm("file", f) == norm("file", g);
      NameOfFile(norm, ts, p, i, f);
      var k := FileKey(p, norm("file", f).value);
      KeyOfFile(norm, ts, p, i, f);
      KeyOfFile(norm, us, q, j, g);
      assert k in GroupKeys(norm, ts, p) && k in GroupKeys(norm, us, q);
    }
  }

  lemma SharedFile(norm: Normalizer, ts: seq<Candidate>, p: int, us: seq<Candidate>, q: int, k: Key)
    requires GroupNormalizes(norm, ts, p) && GroupNormalizes(norm, us, q)
    requires k in GroupKeys(norm, ts, p) && k in GroupKeys(norm, us, q)
    ensures p == q && SomeCommonFile(norm, ts, us)
  {
    KeysAreFiles(norm, ts, p, k);
    KeysAreFiles(norm, us, q, k);
    var i, f :| HasFile(norm, ts, p, k, i, f);
    var j, g :| HasFile(norm, us, q, k, j, g);
    FileKeysDiffer(p, q, norm("file", f).value, norm("file", g).value);
  }

  lemma KeyOfFile(norm: Normalizer, ts: seq<Candidate>, p: int, i: nat, f: string)
    requires GroupNormalizes(norm, ts, p) && i < |ts| && f in ts[i].files && norm("file", f).Some?
    ensures FileKey(p, norm("file", f).value) in GroupKeys(norm, ts, p)
  {
    var k := FileKey(p, norm("file", f).value);
    assert HasFile(norm, ts, p, k, i, f);
    KeysAreFiles(norm, ts, p, k);
  }

  /** And as long as the locks last, no group of the project with one of the files can be claimed. */
  lemma LockedFileRefuses(norm: Normalizer, db: Db, ts: seq<Candidate>, p: int, run: int, now: int, c: Claim,
                          us: seq<Candidate>, other: int, later: int)
    requires ClaimAll(norm, db, ts, p, run, now) == Some(c) && SomeCommonFile(norm, ts, us) && later < now + 300
    ensures ClaimAll(norm, c.db, us, p, other, later) == None
  {
    var i, j, f, g :| 0 <= i < |ts| && 0 <= j < |us| && f in ts[i].files && g in us[j].files
                      && norm("file", f) == norm("file", g);
    ClaimLocksFiles(norm, db, ts, p, run, now, c, i, f);
    ClaimExact(norm, c.db, us, p, other, later);
    var who := Holder(p, ts[i].id, c.executions[i], run, c.workers[i]);
    HeldFileRefuses(norm, c.db, |db.locks|, f, who, now, us, j, g, other, later);
  }

  lemma HeldFileRefuses(norm: Normalizer, db: Db, n: nat, f: string, who: Holder, now: int, us: seq<Candidate>, j: nat,
                        g: string, run: int, later: int)
    requires FileLocked(norm, db.locks, n, f, who, now) && later < now + 300
    requires j < |us| && g in us[j].files && norm("file", f) == norm("file", g)
    ensures !GroupClaimable(norm, db, us, who.project, run, later)
  {
    if GroupNormalizes(norm, us, who.project) {
      var k := FileKey(who.project, norm("file", g).value);
      KeyOfFile(norm, us, who.project, j, g);
      var m :| n <= m < |db.locks| && IsFileLock(norm, db.locks[m], f, who, now);
      assert Held(db.locks, k, later);
    }
  }

  lemma NameOfFile(norm: Normalizer, ts: seq<Candidate>, p: int, i: nat, f: string)
    requires GroupNormalizes(norm, ts, p) && i < |ts| && f in ts[i].files
    ensures norm("file", f).Some?
  {
    var m := EntryOfFile(norm, ts[i], p, f);
  }
}
