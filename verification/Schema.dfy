/** The tables of the execution engine as values, and the database that holds them. */
module Schema {

  datatype Option<+T> = None | Some(value: T)

  // ---- executor_resource_locks ----

  /** What the partial unique index on active locks ranges over. */
  datatype Key = Key(scope: string, scopeKey: string, kind: string, name: string)

  datatype LockStatus = LockActive | LockReleased | LockExpired

  datatype Lock = Lock(id: nat, token: nat, key: Key, rawKey: string, holder: Holder,
                       lockedAt: int, heartbeat: int, expires: int,
                       status: LockStatus, releasedAt: Option<int>, reason: string)

  /** The columns of a lock that say on whose behalf it is held. */
  datatype Holder = Holder(project: int, task: int, execution: int, run: int, worker: nat)

  // ---- task_leases, one row a task ----

  datatype LeaseStatus = LeaseActive | LeaseReleased | LeaseExpired

  datatype Lease = Lease(worker: nat, status: LeaseStatus, lockedAt: int,
                         expires: Option<int>, releasedAt: Option<int>)

  // ---- executions; the row with id n is at index n - 1 ----

  datatype ExecutionStatus = Running | ExecSuccess | ExecBlocked | ExecFailed | ExecCancelled

  datatype Execution = Execution(task: int, project: int, worker: nat,
                                 status: ExecutionStatus, startedAt: int, completedAt: Option<int>)

  // ---- executor_runs; the row with id n is at index n - 1 ----

  datatype RunStatus =
    | Idle | Starting | Scanning | Claiming | Executing | Testing | Repairing | Paused | Stopping
    | RunCompleted | RunBlocked | RunFailed

  datatype Run = Run(project: Option<int>, worker: nat, status: RunStatus, heartbeat: Option<int>,
                     currentTask: Option<int>, total: nat, completed: nat, blocked: nat, failed: nat,
                     repaired: nat, skipped: nat, reason: string, finishedAt: Option<int>)

  // ---- execution_approvals ----

  datatype ApprovalStatus = Requested | Approved | Rejected | Consumed | Lapsed

  datatype Approval = Approval(project: int, status: ApprovalStatus, allowed: seq<int>, tokenHash: nat,
                               riskConfirmed: bool, singleUse: bool, createdAt: int, expires: Option<int>,
                               consumedAt: Option<int>, consumedRun: Option<int>, consumedTask: Option<int>)

  // ---- development_tasks and projects ----

  datatype TaskStatus = Pending | Completed | Blocked | Failed | Cancelled | Other(name: string)

  datatype Readiness = Ready | Draft | NeedsPlanning | OtherReadiness

  /** One element of the JSON list in the dependencies column. */
  datatype Json = JNull | JBool(b: bool) | JInt(n: int) | JString(s: string) | JOther

  /** The files_to_modify column: one of the texts that count as missing (NULL, "", "[]", "null"),
      or any other text together with the list it parses to, [] when it parses to no list. */
  datatype FilesColumn = MissingFiles | FilesText(parsed: seq<string>)

  /** The codex_prompt column: NULL or "", one of the placeholders "[]" and "null", or a text. */
  datatype PromptColumn = NoPrompt | PlaceholderPrompt | PromptText

  /** `missingFields` counts the other descriptive columns that are missing. */
  datatype Task = Task(project: int, title: string, priority: int, sortOrder: int,
                       status: TaskStatus, readiness: Readiness, dependencies: seq<Json>,
                       files: FilesColumn, prompt: PromptColumn, manual: bool, missingFields: nat)

  datatype Project = Project(paused: bool)

  datatype Db = Db(locks: seq<Lock>, leases: map<int, Lease>, executions: seq<Execution>,
                   runs: seq<Run>, approvals: seq<Approval>, tasks: map<int, Task>,
                   projects: map<int, Project>, supply: nat)

  /** The SQLite file every service opens. `supply` is the next unused identifier: it stands for
      the generator of the uuids that become lock ids, lock tokens and worker ids. */
  class Database {
    var locks: seq<Lock>
    var leases: map<int, Lease>
    var executions: seq<Execution>
    var runs: seq<Run>
    var approvals: seq<Approval>
    var tasks: map<int, Task>
    var projects: map<int, Project>
    var supply: nat

    constructor (s: Db)
      ensures State() == s
    {
      locks, leases, executions, runs := s.locks, s.leases, s.executions, s.runs;
      approvals, tasks, projects, supply := s.approvals, s.tasks, s.projects, s.supply;
    }

    function State(): Db
      reads this
    {
      Db(locks, leases, executions, runs, approvals, tasks, projects, supply)
    }

    /** ROLLBACK to a snapshot. The identifiers drawn since were never published, so the supply
        is wound back with the tables. */
    method Restore(s: Db)
      modifies this
      ensures State() == s
    {
      locks, leases, executions, runs := s.locks, s.leases, s.executions, s.runs;
      approvals, tasks, projects, supply := s.approvals, s.tasks, s.projects, s.supply;
    }
  }

  /** Other processes commit whatever they like. */
  method Interfere(db: Database, others: Db -> Db)
    modifies db
    ensures db.State() == others(old(db.State()))
  {
    db.Restore(others(db.State()));
  }

  // ---- SQL statements ----

  /** UPDATE rows SET change WHERE hit. */
  function Update<T>(rows: seq<T>, hit: T -> bool, change: T -> T): (r: seq<T>)
    ensures |r| == |rows|
    ensures forall i :: 0 <= i < |rows| ==> r[i] == if hit(rows[i]) then change(rows[i]) else rows[i]
  {
    seq(|rows|, i requires 0 <= i < |rows| => if hit(rows[i]) then change(rows[i]) else rows[i])
  }

  /** The number of rows a WHERE clause matches: cursor.rowcount. */
  function Count<T>(rows: seq<T>, hit: T -> bool): nat
  {
    if rows == [] then 0
    else Count(rows[..|rows| - 1], hit) + (if hit(rows[|rows| - 1]) then 1 else 0)
  }

  lemma {:induction false} CountZero<T>(rows: seq<T>, hit: T -> bool)
    ensures Count(rows, hit) == 0 <==> forall i :: 0 <= i < |rows| ==> !hit(rows[i])
  {
    if rows != [] {
      var front := rows[..|rows| - 1];
      CountZero(front, hit);
      assert forall i :: 0 <= i < |front| ==> front[i] == rows[i];
    }
  }

  /** When at most one row can match, the row count says whether one did. */
  lemma {:induction false} CountAtMostOne<T>(rows: seq<T>, hit: T -> bool)
    requires forall i, j :: 0 <= i < j < |rows| && hit(rows[i]) ==> !hit(rows[j])
    ensures Count(rows, hit) <= 1
    ensures Count(rows, hit) == 1 <==> exists i :: 0 <= i < |rows| && hit(rows[i])
  {
    if rows != [] {
      var front := rows[..|rows| - 1];
      CountAtMostOne(front, hit);
      if hit(rows[|rows| - 1]) {
        CountZero(front, hit);
      }
      assert forall i :: 0 <= i < |front| ==> front[i] == rows[i];
    }
  }

  lemma {:induction false} CountDrops<T>(rows: seq<T>, hit: T -> bool, i: nat, x: T)
    requires i < |rows| && hit(rows[i]) && !hit(x)
    ensures Count(rows[i := x], hit) == Count(rows, hit) - 1
  {
    var n := |rows| - 1;
    if i == n {
      assert rows[i := x][..n] == rows[..n];
    } else {
      assert rows[i := x][..n] == rows[..n][i := x];
      CountDrops(rows[..n], hit, i, x);
    }
  }

  predicate NoDup<T(==)>(s: seq<T>)
  {
    forall i, j :: 0 <= i < j < |s| ==> s[i] != s[j]
  }
}
