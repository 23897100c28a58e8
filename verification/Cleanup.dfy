/** The finalizer every task exit goes through. */
module Cleanup {
  import opened Schema
  import opened ResourceLocks
  import opened Leases

  datatype ExitStatus =
    | ExitCompleted | ExitBlocked | ExitFailed | ExitCancelled | MergeConflict | MergeRegressionFailed
    | WorkerLost | Timeout | SafetyViolation | Shutdown | OtherExit

  function ExecutionStatusOf(exit: ExitStatus): ExecutionStatus
  {
    match exit
    case ExitCompleted => ExecSuccess
    case ExitBlocked | MergeConflict | MergeRegressionFailed | SafetyViolation => ExecBlocked
    case ExitCancelled | Shutdown => ExecCancelled
    case _ => ExecFailed
  }

  function TaskStatusOf(exit: ExitStatus): TaskStatus
  {
    match exit
    case ExitCompleted => Completed
    case ExitFailed | OtherExit => Failed
    case ExitCancelled | Shutdown => Cancelled
    case _ => Blocked
  }

  // ---- Releasing locks by token ----

  predicate Listed(r: Lock, ids: seq<nat>, tokens: seq<nat>, worker: nat)
    requires |ids| == |tokens|
  {
    IsActive(r) && r.holder.worker == worker && exists i :: 0 <= i < |ids| && ids[i] == r.id && tokens[i] == r.token
  }

  /** Release the active listed rows whose token and worker match. */
  function ReleaseListed(rows: seq<Lock>, ids: seq<nat>, tokens: seq<nat>, worker: nat, now: int): (r: seq<Lock>)
    requires |ids| == |tokens|
    ensures |r| == |rows|
  {
    Update(rows, (r: Lock) => Listed(r, ids, tokens, worker), (r: Lock) => ReleaseRow(r, now, "finalized"))
  }

  /** Tokens count only when there are as many of them as lock ids, and some. */
  predicate ByToken(ids: seq<nat>, tokens: seq<nat>)
  {
    ids != [] && |ids| == |tokens|
  }

  predicate ToRelease(r: Lock, ids: seq<nat>, tokens: seq<nat>, worker: nat, execution: int)
  {
    if ByToken(ids, tokens) then Listed(r, ids, tokens, worker) else IsActive(r) && r.holder.execution == execution
  }

  function LocksAfter(rows: seq<Lock>, ids: seq<nat>, tokens: seq<nat>, worker: nat, execution: int,
                      now: int): (r: seq<Lock>)
    ensures |r| == |rows|
  {
    if ByToken(ids, tokens) then ReleaseListed(rows, ids, tokens, worker, now)
    else ReleaseExecutions(rows, {execution}, now, "finalized_batch")
  }

  /** _release_resource_locks; the result is the number of rows released. */
  method ReleaseResourceLocks(db: Database, execution: int, ids: seq<nat>, tokens: seq<nat>, worker: nat, now: int)
    returns (count: nat)
    modifies db`locks
    ensures db.locks == LocksAfter(old(db.locks), ids, tokens, worker, execution, now)
    ensures count == Count(old(db.locks), (r: Lock) => ToRelease(r, ids, tokens, worker, execution))
  {
    ghost var before := db.locks;
    if ids == [] || |ids| != |tokens| {
      count := Count(db.locks, (r: Lock) => IsActive(r) && r.holder.execution == execution);
      db.locks := ReleaseExecutions(db.locks, {execution}, now, "finalized_batch");
      CountSame(before, (r: Lock) => IsActive(r) && r.holder.execution == execution,
                (r: Lock) => ToRelease(r, ids, tokens, worker, execution));
      return;
    }
    count := 0;
    CountZero(before, (r: Lock) => Listed(r, [], [], worker));
    assert ids[..0] == [] && tokens[..0] == [];
    assert ReleaseListed(before, [], [], worker, now) == before;
    for i := 0 to |ids|
      invariant db.locks == ReleaseListed(before, ids[..i], tokens[..i], worker, now)
      invariant count == Count(before, (r: Lock) => Listed(r, ids[..i], tokens[..i], worker))
    {
      var hits := Count(db.locks, (r: Lock) => Presents(r, ids[i], tokens[i], worker));
      ListedSnoc(before, ids, tokens, worker, i, now);
      db.locks := Update(db.locks, (r: Lock) => Presents(r, ids[i], tokens[i], worker),
                         (r: Lock) => ReleaseRow(r, now, "finalized"));
      count := count + hits;
    }
    assert ids[..|ids|] == ids && tokens[..|ids|] == tokens;
    CountSame(before, (r: Lock) => Listed(r, ids, tokens, worker),
              (r: Lock) => ToRelease(r, ids, tokens, worker, execution));
  }

  lemma {:induction false} CountSame<T>(rows: seq<T>, p: T -> bool, q: T -> bool)
    requires forall i :: 0 <= i < |rows| ==> p(rows[i]) == q(rows[i])
    ensures Count(rows, p) == Count(rows, q)
  {
    if rows != [] {
      var front := rows[..|rows| - 1];
      assert forall i :: 0 <= i < |front| ==> front[i] == rows[i];
      CountSame(front, p, q);
    }
  }

  /** Counting a union through an update that takes the first part out. */
  lemma {:induction false} CountStep<T>(before: seq<T>, after: seq<T>, p: T -> bool, q: T -> bool, pq: T -> bool)
    requires |after| == |before|
    requires forall i :: 0 <= i < |before| ==>
               (pq(before[i]) <==> p(before[i]) || q(after[i])) && !(p(before[i]) && q(after[i]))
    ensures Count(before, pq) == Count(before, p) + Count(after, q)
  {
    if before != [] {
      var n := |before| - 1;
      assert forall i :: 0 <= i < n ==> before[..n][i] == before[i] && after[..n][i] == after[i];
      CountStep(before[..n], after[..n], p, q, pq);
    }
  }

  /** One more id and token: the rows released, and their number. */
  lemma ListedSnoc(rows: seq<Lock>, ids: seq<nat>, tokens: seq<nat>, worker: nat, i: nat, now: int)
    requires |ids| == |tokens| && i < |ids|
    ensures var u := ReleaseListed(rows, ids[..i], tokens[..i], worker, now);
            var hit := (r: Lock) => Presents(r, ids[i], tokens[i], worker);
            && Update(u, hit, (r: Lock) => ReleaseRow(r, now, "finalized"))
               == ReleaseListed(rows, ids[..i + 1], tokens[..i + 1], worker, now)
            && Count(rows, (r: Lock) => Listed(r, ids[..i + 1], tokens[..i + 1], worker))
               == Count(rows, (r: Lock) => Listed(r, ids[..i], tokens[..i], worker)) + Count(u, hit)
  {
    var u := ReleaseListed(rows, ids[..i], tokens[..i], worker, now);
    forall k | 0 <= k < |rows|
      ensures Listed(rows[k], ids[..i + 1], tokens[..i + 1], worker)
         <==> Listed(rows[k], ids[..i], tokens[..i], worker) || Presents(u[k], ids[i], tokens[i], worker)
      ensures Listed(rows[k], ids[..i], tokens[..i], worker) ==> !IsActive(u[k])
    {
      ListedGrows(rows[k], ids, tokens, worker, i);
    }
    CountStep(rows, u, (r: Lock) => Listed(r, ids[..i], tokens[..i], worker),
              (r: Lock) => Presents(r, ids[i], tokens[i], worker),
              (r: Lock) => Listed(r, ids[..i + 1], tokens[..i + 1], worker));
  }

  lemma ListedGrows(r: Lock, ids: seq<nat>, tokens: seq<nat>, worker: nat, i: nat)
    requires |ids| == |tokens| && i < |ids|
    ensures Listed(r, ids[..i + 1], tokens[..i + 1], worker)
       <==> Listed(r, ids[..i], tokens[..i], worker) || Presents(r, ids[i], tokens[i], worker)
  {
  }

  // ---- The whole exit ----

  function FinishExecution(rows: seq<Execution>, execution: int, exit: ExitStatus, now: int): (r: seq<Execution>)
    ensures |r| == |rows|
  {
    if 1 <= execution <= |rows| then
      rows[execution - 1 := rows[execution - 1].(status := ExecutionStatusOf(exit), completedAt := Some(now))]
    else rows
  }

  function SetTaskStatus(tasks: map<int, Task>, task: int, status: TaskStatus): (r: map<int, Task>)
    ensures r.Keys == tasks.Keys
  {
    if task in tasks then tasks[task := tasks[task].(status := status)] else tasks
  }

  /** The counter of the outcome goes up and the heartbeat is set, unless the task was cancelled;
      then the current task is cleared. */
  function FinishRun(runs: seq<Run>, run: int, status: TaskStatus, now: int): (r: seq<Run>)
    ensures |r| == |runs|
  {
    if !(1 <= run <= |runs|) then runs
    else
      var row := runs[run - 1];
      var counted := match status
        case Completed => row.(completed := row.completed + 1, heartbeat := Some(now))
        case Blocked => row.(blocked := row.blocked + 1, heartbeat := Some(now))
        case Failed => row.(failed := row.failed + 1, heartbeat := Some(now))
        case _ => row;
      runs[run - 1 := counted.(currentTask := None)]
  }

  function Finalized(db: Db, execution: int, task: int, exit: ExitStatus, ids: seq<nat>, tokens: seq<nat>,
                     worker: nat, run: Option<int>, now: int): Db
  {
    db.(executions := FinishExecution(db.executions, execution, exit, now),
        locks := LocksAfter(db.locks, ids, tokens, worker, execution, now),
        leases := ReleaseLeases(db.leases, {task}, now),
        tasks := SetTaskStatus(db.tasks, task, TaskStatusOf(exit)),
        runs := if run.Some? then FinishRun(db.runs, run.value, TaskStatusOf(exit), now) else db.runs)
  }

  method FinalizeExecution(db: Database, execution: int, task: int, exit: ExitStatus, ids: seq<nat>, tokens: seq<nat>,
                           worker: nat, run: Option<int>, now: int)
    modifies db
    ensures db.State() == Finalized(old(db.State()), execution, task, exit, ids, tokens, worker, run, now)
  {
    db.executions := FinishExecution(db.executions, execution, exit, now);
    var _ := ReleaseResourceLocks(db, execution, ids, tokens, worker, now);
    ReleaseLease(db, task, now);
    db.tasks := SetTaskStatus(db.tasks, task, TaskStatusOf(exit));
    if run.Some? {
      db.runs := FinishRun(db.runs, run.value, TaskStatusOf(exit), now);
    }
  }

  /** Without lock ids, or with fewer or more tokens than ids, the finalizer ends all active locks of its
      execution; with as many tokens as ids exactly the active ones of its worker whose id and token it
      was given in one place. Every other row stays as it is. */
  lemma LocksFinalizedExactly(db: Db, execution: int, task: int, exit: ExitStatus, ids: seq<nat>, tokens: seq<nat>,
                              worker: nat, run: Option<int>, now: int)
    ensures var d := Finalized(db, execution, task, exit, ids, tokens, worker, run, now);
            && |d.locks| == |db.locks|
            && (forall j :: 0 <= j < |db.locks| ==>
                  var a, b := db.locks[j], d.locks[j];
                  if a.status == LockActive && (if ids == [] || |ids| != |tokens| then a.holder.execution == execution
                                                else a.holder.worker == worker && InOnePlace(a, ids, tokens))
                  then b == a.(status := LockReleased, releasedAt := Some(now), reason := b.reason)
                  else b == a)
  {
  }

  predicate InOnePlace(r: Lock, ids: seq<nat>, tokens: seq<nat>)
    requires |ids| == |tokens|
  {
    exists i :: 0 <= i < |ids| && r.id == ids[i] && r.token == tokens[i]
  }

  /** After the exit of a running task: the execution is a success and the task is completed exactly
      for a completed exit; the counter of the task's new status, and no other, is up by one, with the
      heartbeat, unless the task was cancelled; no other row of these tables has changed. */
  lemma FinalizedExact(db: Db, execution: int, task: int, exit: ExitStatus, ids: seq<nat>, tokens: seq<nat>,
                       worker: nat, run: int, now: int)
    requires 1 <= execution <= |db.executions| && task in db.tasks
    ensures var d := Finalized(db, execution, task, exit, ids, tokens, worker, Some(run), now);
            && d.tasks.Keys == db.tasks.Keys && d.leases.Keys == db.leases.Keys
            && |d.executions| == |db.executions| && |d.runs| == |db.runs| && d.approvals == db.approvals
            && Closed(d.executions[execution - 1], exit, now) && LeftAs(d.tasks[task].status, exit)
            && d.tasks[task].status == TaskStatusOf(exit)
            && SameWork(db.executions[execution - 1], d.executions[execution - 1])
            && (1 <= run <= |db.runs| ==> CountedOnce(db.runs[run - 1], d.runs[run - 1], TaskStatusOf(exit), now))
            && (forall i :: 0 <= i < |db.runs| && i != run - 1 ==> d.runs[i] == db.runs[i])
            && (forall i :: 0 <= i < |db.executions| && i != execution - 1 ==> d.executions[i] == db.executions[i])
            && d.tasks[task] == db.tasks[task].(status := d.tasks[task].status)
            && (forall id :: id in db.tasks && id != task ==> d.tasks[id] == db.tasks[id])
            && d.projects == db.projects && d.supply == db.supply
            && (task in d.leases ==> LeaseClosed(db.leases[task], d.leases[task], now))
            && (forall id :: id in db.leases && id != task ==> d.leases[id] == db.leases[id])
  {
  }

  predicate SameWork(a: Execution, b: Execution)
  {
    b == a.(status := b.status, completedAt := b.completedAt)
  }

  /** The statuses of an execution and of its task, by exit. */
  predicate Closed(e: Execution, exit: ExitStatus, now: int)
  {
    && e.completedAt == Some(now)
    && (e.status == ExecSuccess <==> exit == ExitCompleted)
    && (e.status == ExecBlocked <==> exit in {ExitBlocked, MergeConflict, MergeRegressionFailed, SafetyViolation})
    && (e.status == ExecCancelled <==> exit in {ExitCancelled, Shutdown})
    && (e.status == ExecFailed <==> exit in {ExitFailed, WorkerLost, Timeout, OtherExit})
  }

  predicate LeftAs(status: TaskStatus, exit: ExitStatus)
  {
    && (status == Completed <==> exit == ExitCompleted)
    && (status == Failed <==> exit in {ExitFailed, OtherExit})
    && (status == Cancelled <==> exit in {ExitCancelled, Shutdown})
    && status in {Completed, Failed, Cancelled, Blocked}
  }

  /** An active lease has been released; any other is as it was. */
  predicate LeaseClosed(a: Lease, b: Lease, now: int)
  {
    b == if a.status == LeaseActive then a.(status := LeaseReleased, releasedAt := Some(now)) else a
  }

  /** The run's row has counted one task that was left with this status. */
  predicate CountedOnce(before: Run, after: Run, status: TaskStatus, now: int)
  {
    after == before.(completed := before.completed + OneIf(status == Completed),
                     blocked := before.blocked + OneIf(status == Blocked),
                     failed := before.failed + OneIf(status == Failed),
                     heartbeat := if status == Cancelled then before.heartbeat else Some(now),
                     currentTask := None)
  }

  function OneIf(b: bool): nat { if b then 1 else 0 }

  /** The statuses of a task and of its execution tell the same story. */
  predicate Matches(task: TaskStatus, execution: ExecutionStatus)
  {
    match task
    case Completed => execution == ExecSuccess
    case Blocked => execution == ExecBlocked
    case Failed => execution == ExecFailed
    case _ => execution == ExecCancelled
  }

  /** A lost worker and a timeout are failures in the execution table and blocks in the task table;
      for every other exit the two tables agree. */
  lemma TablesAgreeExactly(exit: ExitStatus)
    ensures Matches(TaskStatusOf(exit), ExecutionStatusOf(exit)) <==> exit !in {WorkerLost, Timeout}
  {
  }
}
