/** Claiming a group of tasks together with their resource locks, releasing it, and planning it. */
module ParallelScheduler {
  import opened Schema
  import opened KeyOrder
  import opened ResourceLocks
  import opened Leases
  import Text

  /** What the scheduler knows of a task it may run. */
  datatype Candidate = Candidate(id: int, files: seq<string>)

  datatype TaskGroup = TaskGroup(tasks: seq<Candidate>, workers: seq<nat>, executions: seq<int>,
                                 lockIds: seq<nat>, lockTokens: seq<nat>, isParallel: bool)

  /** A claim under way: the tables so far and the lists collected so far. */
  datatype Claim = Claim(db: Db, workers: seq<nat>, executions: seq<int>, lockIds: seq<nat>, lockTokens: seq<nat>)

  const GROUP_LOCK_TTL := 300

  /** files_to_resource_list: one project-scoped file lock per file. */
  function Resources(files: seq<string>, project: int): (r: seq<Resource>)
    ensures |r| == |files|
  {
    seq(|files|, i requires 0 <= i < |files| =>
      Resource("project", "project:" + Text.Decimal(project), "file", files[i]))
  }

  // ---- Claiming one task inside the transaction ----

  function Enrolled(db: Db, task: int, project: int, now: int): Db
  {
    db.(leases := db.leases[task := NewLease(db.supply, now, LEASE_SECONDS)],
        executions := db.executions + [Execution(task, project, db.supply, Running, now, None)],
        supply := db.supply + 1)
  }

  /** The next task's lease, worker, execution and locks; None when any statement fails. */
  function ClaimOne(norm: Normalizer, c: Claim, t: Candidate, project: int, run: int, now: int): Option<Claim>
  {
    if t.id in c.db.leases || !IsPending(c.db.tasks, t.id) || project !in c.db.projects then None
    else
      var worker, execution := c.db.supply, |c.db.executions| + 1;
      var d := Enrolled(c.db, t.id, project, now);
      var e := Claim(d, c.workers + [worker], c.executions + [execution], c.lockIds, c.lockTokens);
      var who := Holder(project, t.id, execution, run, worker);
      var reqs := Resources(t.files, project);
      if t.files == [] then Some(e)
      else if Acquirable(norm, reqs, d.locks, RefsOk(d, who), now) then
        Some(WithLocks(e, Sort(Entries(norm, reqs)), who, now))
      else None
  }

  function WithLocks(e: Claim, es: seq<Entry>, who: Holder, now: int): Claim
  {
    var base := e.db.supply;
    e.(db := e.db.(locks := GrantedRows(e.db.locks, es, who, base, now, GROUP_LOCK_TTL), supply := base + 2 * |es|),
       lockIds := e.lockIds + DrawnIds(|es|, base),
       lockTokens := e.lockTokens + DrawnTokens(|es|, base))
  }

  function ClaimAll(norm: Normalizer, db: Db, ts: seq<Candidate>, project: int, run: int, now: int): Option<Claim>
  {
    if ts == [] then Some(Claim(db, [], [], [], []))
    else
      match ClaimAll(norm, db, ts[..|ts| - 1], project, run, now)
      case None => None
      case Some(c) => ClaimOne(norm, c, ts[|ts| - 1], project, run, now)
  }

  // ---- The transaction ----

  /** Lock ids in the table have been drawn from the supply. */
  predicate IdsDrawn(rows: seq<Lock>, supply: nat)
  {
    forall i :: 0 <= i < |rows| ==> rows[i].id < supply
  }

  /** In a table just extended by a grant, a granted lock id is found, and with its own token. */
  lemma GrantedToken(before: seq<Lock>, es: seq<Entry>, who: Holder, base: nat, now: int, m: nat)
    requires IdsDrawn(before, base) && m < |es|
    ensures var rows := GrantedRows(before, es, who, base, now, GROUP_LOCK_TTL);
            && |rows| == |before| + |es| && rows[|before| + m].id == base + 2 * m
            && forall j :: 0 <= j < |rows| && rows[j].id == base + 2 * m ==> rows[j].token == base + 2 * m + 1
  {
  }

  /** Reads back the token of every lock just granted. */
  method LookUpTokens(db: Database, ids: seq<nat>, ghost before: seq<Lock>, ghost es: seq<Entry>,
                      ghost who: Holder, ghost base: nat, ghost now: int) returns (tokens: seq<nat>)
    requires IdsDrawn(before, base)
    requires db.locks == GrantedRows(before, es, who, base, now, GROUP_LOCK_TTL)
    requires ids == DrawnIds(|es|, base)
    ensures tokens == DrawnTokens(|es|, base)
  {
    tokens := [];
    ghost var rows := db.locks;
    for m := 0 to |ids|
      invariant tokens == DrawnTokens(m, base)
    {
      GrantedToken(before, es, who, base, now, m);
      var j :| 0 <= j < |db.locks| && db.locks[j].id == ids[m];
      tokens := tokens + [db.locks[j].token];
    }
  }

  /** The first part of a round in claim_task_group: the task's lease and execution record. */
  method Enroll(db: Database, task: int, project: int, now: int) returns (ok: bool)
    modifies db`leases, db`executions, db`supply
    ensures ok <==> old(task !in db.leases && IsPending(db.tasks, task) && project in db.projects)
    ensures ok ==> db.State() == Enrolled(old(db.State()), task, project, now)
  {
    var worker := db.supply;
    db.supply := db.supply + 1;
    if Leased(db.leases, task, now) {
      return false;
    }
    if !IsPending(db.tasks, task) {
      return false;
    }
    if task in db.leases || project !in db.projects {
      return false;    // sqlite3.IntegrityError: UNIQUE(task_id), foreign key of executions
    }
    db.leases := db.leases[task := NewLease(worker, now, LEASE_SECONDS)];
    db.executions := db.executions + [Execution(task, project, worker, Running, now, None)];
    return true;
  }

  /** One round of the loop in claim_task_group. */
  method ClaimNext(db: Database, norm: Normalizer, c: Claim, t: Candidate, project: int, run: int, now: int)
    returns (r: Option<Claim>)
    requires c.db == db.State() && IdsDrawn(db.locks, db.supply)
    modifies db
    ensures r == ClaimOne(norm, c, t, project, run, now)
    ensures r.Some? ==> db.State() == r.value.db && IdsDrawn(db.locks, db.supply)
  {
    var worker := db.supply;
    var ok := Enroll(db, t.id, project, now);
    if !ok {
      return None;
    }
    var execution := |db.executions|;
    var e := Claim(db.State(), c.workers + [worker], c.executions + [execution], c.lockIds, c.lockTokens);
    if t.files == [] {
      return Some(e);
    }
    r := LockFiles(db, norm, e, Resources(t.files, project), Holder(project, t.id, execution, run, worker), now);
  }

  /** The last part of a round: the locks of the task's files. */
  method LockFiles(db: Database, norm: Normalizer, c: Claim, reqs: seq<Resource>, who: Holder, now: int)
    returns (r: Option<Claim>)
    requires c.db == db.State() && IdsDrawn(db.locks, db.supply)
    modifies db`locks, db`supply
    ensures r == if Acquirable(norm, reqs, c.db.locks, RefsOk(c.db, who), now)
                 then Some(WithLocks(c, Sort(Entries(norm, reqs)), who, now)) else None
    ensures r.Some? ==> db.State() == r.value.db && IdsDrawn(db.locks, db.supply)
  {
    ghost var before, base := db.locks, db.supply;
    var granted := AcquireResourceLocks(db, norm, reqs, who, now, GROUP_LOCK_TTL);
    match granted {
      case Granted(ids) =>
        ghost var es := Sort(Entries(norm, reqs));
        var tokens := LookUpTokens(db, ids, before, es, who, base, now);
        GrantDraws(before, es, who, base, now);
        assert |es| == |reqs|;
        var d := db.State();
        assert d == c.db.(locks := GrantedRows(c.db.locks, es, who, base, now, GROUP_LOCK_TTL),
                          supply := base + 2 * |es|);
        r := Some(c.(db := d, lockIds := c.lockIds + ids, lockTokens := c.lockTokens + tokens));
        assert r.value == WithLocks(c, es, who, now);
      case _ => r := None;
    }
  }

  lemma GrantDraws(before: seq<Lock>, es: seq<Entry>, who: Holder, base: nat, now: int)
    requires IdsDrawn(before, base)
    ensures IdsDrawn(GrantedRows(before, es, who, base, now, GROUP_LOCK_TTL), base + 2 * |es|)
  {
  }

  /** claim_task_group: all tasks with all their locks, or nothing. */
  method ClaimTaskGroup(db: Database, norm: Normalizer, tasks: seq<Candidate>, project: int, run: int, now: int)
    returns (group: Option<TaskGroup>)
    requires IdsDrawn(db.locks, db.supply)
    modifies db
    ensures group.Some? <==> tasks != [] && ClaimAll(norm, old(db.State()), tasks, project, run, now).Some?
    ensures group.Some? ==>
              var c := ClaimAll(norm, old(db.State()), tasks, project, run, now).value;
              && db.State() == c.db
              && group.value == TaskGroup(tasks, c.workers, c.executions, c.lockIds, c.lockTokens, |tasks| == 2)
    ensures group.None? ==> db.State() == old(db.State())
  {
    if tasks == [] {
      return None;
    }
    var snapshot := db.State();
    var c := Claim(snapshot, [], [], [], []);
    for i := 0 to |tasks|
      invariant db.State() == c.db && IdsDrawn(db.locks, db.supply)
      invariant ClaimAll(norm, snapshot, tasks[..i], project, run, now) == Some(c)
    {
      assert tasks[..i + 1][..i] == tasks[..i];
      var next := ClaimNext(db, norm, c, tasks[i], project, run, now);
      if next == None {
        ClaimFailsEarly(norm, snapshot, tasks, i + 1, project, run, now);
        db.Restore(snapshot);
        return None;
      }
      c := next.value;
    }
    assert tasks[..|tasks|] == tasks;
    return Some(TaskGroup(tasks, c.workers, c.executions, c.lockIds, c.lockTokens, |tasks| == 2));
  }

  lemma {:induction false} ClaimFailsEarly(norm: Normalizer, db: Db, ts: seq<Candidate>, n: nat, project: int,
                                           run: int, now: int)
    requires n <= |ts| && ClaimAll(norm, db, ts[..n], project, run, now) == None
    ensures ClaimAll(norm, db, ts, project, run, now) == None
    decreases |ts| - n
  {
    if n == |ts| {
      assert ts[..n] == ts;
    } else {
      assert ts[..n + 1][..n] == ts[..n];
      ClaimFailsEarly(norm, db, ts, n + 1, project, run, now);
    }
  }

  // ---- Releasing a group ----

  function TasksOf(executions: seq<Execution>, ids: seq<int>): set<int>
  {
    set i | 0 <= i < |ids| && 1 <= ids[i] <= |executions| :: executions[ids[i] - 1].task
  }

  function IdSet(ids: seq<int>): set<int>
  {
    set i | 0 <= i < |ids| :: ids[i]
  }

  /** The locks of the executions and the active leases of their tasks are released; the execution
      rows are not touched. */
  function Released(db: Db, ids: seq<int>, now: int, reason: string): Db
  {
    db.(locks := ReleaseExecutions(db.locks, IdSet(ids), now, reason),
        leases := ReleaseLeases(db.leases, TasksOf(db.executions, ids), now))
  }

  method ReleaseGroupLocks(db: Database, ids: seq<int>, now: int, reason: string)
    modifies db`locks
    ensures db.locks == ReleaseExecutions(old(db.locks), IdSet(ids), now, reason)
  {
    for i := 0 to |ids|
      invariant db.locks == ReleaseExecutions(old(db.locks), IdSet(ids[..i]), now, reason)
    {
      ReleaseAllForExecution(db, ids[i], now, reason);
      IdSetSnoc(ids, i);
      ReleaseTwice(old(db.locks), IdSet(ids[..i]), {ids[i]}, now, reason);
    }
    assert ids[..|ids|] == ids;
  }

  method ReleaseTaskGroup(db: Database, ids: seq<int>, now: int, reason: string)
    modifies db`locks, db`leases
    ensures db.State() == Released(old(db.State()), ids, now, reason)
  {
    ReleaseGroupLocks(db, ids, now, reason);
    for i := 0 to |ids|
      invariant db.locks == ReleaseExecutions(old(db.locks), IdSet(ids), now, reason)
      invariant db.leases == ReleaseLeases(old(db.leases), TasksOf(db.executions, ids[..i]), now)
    {
      TasksOfSnoc(db.executions, ids, i);
      if 1 <= ids[i] <= |db.executions| {
        ReleaseLease(db, db.executions[ids[i] - 1].task, now);
      }
    }
    assert ids[..|ids|] == ids;
  }

  lemma IdSetSnoc(ids: seq<int>, i: nat)
    requires i < |ids|
    ensures IdSet(ids[..i + 1]) == IdSet(ids[..i]) + {ids[i]}
  {
  }

  lemma ReleaseTwice(rows: seq<Lock>, a: set<int>, b: set<int>, now: int, reason: string)
    ensures ReleaseExecutions(ReleaseExecutions(rows, a, now, reason), b, now, reason)
         == ReleaseExecutions(rows, a + b, now, reason)
  {
  }

  lemma TasksOfSnoc(executions: seq<Execution>, ids: seq<int>, i: nat)
    requires i < |ids|
    ensures TasksOf(executions, ids[..i + 1])
         == TasksOf(executions, ids[..i]) + if 1 <= ids[i] <= |executions| then {executions[ids[i] - 1].task} else {}
  {
  }

  // ---- Planning ----

  /** Raises: a key before the first conflict does not normalize. */
  datatype Verdict = Compatible | Conflict | Raises

  function EntryKeys(norm: Normalizer, reqs: seq<Resource>): set<Key>
    requires AllNormalize(norm, reqs)
  {
    KeySet(Entries(norm, reqs))
  }

  predicate AreCompatible(norm: Normalizer, a: seq<Resource>, b: seq<Resource>)
  {
    AllNormalize(norm, a) && AllNormalize(norm, b) && EntryKeys(norm, a) !! EntryKeys(norm, b)
  }

  /** Some key of b, reached before a key that does not normalize, is a key of a. */
  predicate InConflict(norm: Normalizer, a: seq<Resource>, b: seq<Resource>)
  {
    AllNormalize(norm, a)
    && exists j :: 0 <= j < |b| && AllNormalize(norm, b[..j + 1])
         && Normalized(norm, b[j]).value.key in EntryKeys(norm, a)
  }

  function VerdictOf(norm: Normalizer, a: seq<Resource>, b: seq<Resource>): Verdict
  {
    if AreCompatible(norm, a, b) then Compatible else if InConflict(norm, a, b) then Conflict else Raises
  }

  /** _resources_conflict */
  method ResourcesConflict(norm: Normalizer, a: seq<Resource>, b: seq<Resource>) returns (v: Verdict)
    ensures v == VerdictOf(norm, a, b)
  {
    var seen: set<Key> := {};
    for i := 0 to |a|
      invariant AllNormalize(norm, a[..i]) && seen == EntryKeys(norm, a[..i])
    {
      match Normalized(norm, a[i])
      case None => return Raises;
      case Some(e) =>
        assert a[..i + 1] == a[..i] + [a[i]];
        assert Entries(norm, a[..i + 1]) == Entries(norm, a[..i]) + [e];
        KeySetSnoc(Entries(norm, a[..i]), e);
        seen := seen + {e.key};
    }
    assert a[..|a|] == a;
    for j := 0 to |b|
      invariant AllNormalize(norm, b[..j]) && EntryKeys(norm, a) !! EntryKeys(norm, b[..j])
    {
      match Normalized(norm, b[j])
      case None =>
        RaisesAt(norm, a, b, j);
        return Raises;
      case Some(e) =>
        assert b[..j + 1] == b[..j] + [b[j]];
        assert Entries(norm, b[..j + 1]) == Entries(norm, b[..j]) + [e];
        KeySetSnoc(Entries(norm, b[..j]), e);
        if e.key in seen {
          assert Entries(norm, b[..j + 1])[j] == e;
          ConflictAt(norm, a, b, j);
          return Conflict;
        }
    }
    assert b[..|b|] == b;
    return Compatible;
  }

  lemma RaisesAt(norm: Normalizer, a: seq<Resource>, b: seq<Resource>, j: nat)
    requires AllNormalize(norm, a) && j < |b| && Normalized(norm, b[j]) == None
    requires AllNormalize(norm, b[..j]) && EntryKeys(norm, a) !! EntryKeys(norm, b[..j])
    ensures VerdictOf(norm, a, b) == Raises
  {
    forall i | 0 <= i < |b| && AllNormalize(norm, b[..i + 1])
      ensures Normalized(norm, b[i]).value.key !in EntryKeys(norm, a)
    {
      if i < j {
        assert Entries(norm, b[..j])[i].key in EntryKeys(norm, b[..j]);
      }
    }
  }

  lemma ConflictAt(norm: Normalizer, a: seq<Resource>, b: seq<Resource>, j: nat)
    requires AllNormalize(norm, a) && j < |b| && AllNormalize(norm, b[..j + 1])
    requires Normalized(norm, b[j]).value.key in EntryKeys(norm, a)
    ensures VerdictOf(norm, a, b) == Conflict
  {
    if AllNormalize(norm, b) {
      assert Entries(norm, b)[j].key in EntryKeys(norm, b);
    }
  }

  datatype Choice = Pair(i: nat, j: nat) | NoPair | Unreadable

  function PairVerdict(norm: Normalizer, ts: seq<Candidate>, project: int, i: nat, j: nat): Verdict
    requires i < |ts| && j < |ts|
  {
    VerdictOf(norm, Resources(ts[i].files, project), Resources(ts[j].files, project))
  }

  /** All pairs lexicographically before (i, j) conflict. */
  predicate ConflictsBefore(norm: Normalizer, ts: seq<Candidate>, project: int, i: nat, j: nat)
  {
    forall m, n :: 0 <= m < n < |ts| && (m < i || (m == i && n < j)) ==>
      PairVerdict(norm, ts, project, m, n) == Conflict
  }

  /** _find_non_conflicting_pair: the lexicographically first pair that does not conflict decides. */
  method FindNonConflictingPair(norm: Normalizer, ts: seq<Candidate>, project: int) returns (c: Choice)
    ensures c.Pair? ==> c.i < c.j < |ts| && PairVerdict(norm, ts, project, c.i, c.j) == Compatible
                        && ConflictsBefore(norm, ts, project, c.i, c.j)
    ensures c.NoPair? <==> ConflictsBefore(norm, ts, project, |ts|, 0)
    ensures c.Unreadable? ==> exists i, j :: 0 <= i < j < |ts| && PairVerdict(norm, ts, project, i, j) == Raises
                                         && ConflictsBefore(norm, ts, project, i, j)
  {
    for i := 0 to |ts|
      invariant ConflictsBefore(norm, ts, project, i, 0)
    {
      for j := i + 1 to |ts|
        invariant ConflictsBefore(norm, ts, project, i, j)
      {
        var v := ResourcesConflict(norm, Resources(ts[i].files, project), Resources(ts[j].files, project));
        assert v == PairVerdict(norm, ts, project, i, j);
        match v
        case Compatible => return Pair(i, j);
        case Raises => return Unreadable;
        case Conflict =>
      }
    }
    return NoPair;
  }

  /** find_parallel_tasks on the runnable tasks: None when normalization raises. */
  method FindParallelTasks(norm: Normalizer, runnable: seq<Candidate>, project: int) returns (r: Option<seq<Candidate>>)
    ensures r.Some? ==> |r.value| <= 2 && (r.value == [] <==> runnable == [])
    ensures r.Some? && |r.value| == 2 ==>
              exists i, j :: 0 <= i < j < |runnable| && r.value == [runnable[i], runnable[j]]
                && PairVerdict(norm, runnable, project, i, j) == Compatible
                && ConflictsBefore(norm, runnable, project, i, j)
    ensures r.Some? && |r.value| == 1 ==>
              r.value == runnable[..1] && (|runnable| == 1 || ConflictsBefore(norm, runnable, project, |runnable|, 0))
    ensures r.None? ==>
              exists i, j :: 0 <= i < j < |runnable| && PairVerdict(norm, runnable, project, i, j) == Raises
                && ConflictsBefore(norm, runnable, project, i, j)
  {
    if runnable == [] {
      return Some([]);
    }
    if |runnable| == 1 {
      return Some(runnable[..1]);
    }
    var c := FindNonConflictingPair(norm, runnable, project);
    match c
    case Pair(i, j) => return Some([runnable[i], runnable[j]]);
    case NoPair => return Some(runnable[..1]);
    case Unreadable => return None;
  }
}
