/** The life of one task in a worker: claim, consume the approval, execute, finalize. */
module TaskWorker {
  import opened Schema
  import opened Leases
  import opened Approvals
  import opened Cleanup

  /** Which of the words the engine looks for occur in an error message. */
  datatype ErrorText = ErrorText(safety: bool, timeout: bool, test: bool, exitCode: bool, merge: bool)

  /** How the foreign part of an execution (tools, model, safety check, tests, commit) turns out. */
  datatype Outcome =
    | Succeeds | ToolchainMissing | UnsafeChange | NothingToCheck
    | ExecutionError(text: ErrorText) | UnexpectedError(text: ErrorText)

  /** The task_status a worker reports to the loop; the tables get their own. */
  datatype Report = ReportCompleted | ReportBlocked | ReportTestFailed | ReportFailed

  /** NeverStarted: an exception before run_task, which the caller turns into a result. */
  datatype TaskResult =
    | NeverStarted
    | NotClaimed
    | ConsumptionRefused
    | Ran(report: Report, execution: int, consumed: Option<seq<int>>)

  /** _classify_error */
  function Classify(t: ErrorText): ExitStatus
  {
    if t.safety then SafetyViolation
    else if t.timeout then Timeout
    else if t.test then ExitFailed
    else if t.merge then MergeConflict
    else ExitFailed
  }

  /** _map_error_to_status */
  function ReportOfError(t: ErrorText): Report
  {
    if t.safety then ReportBlocked
    else if t.timeout then ReportBlocked
    else if t.test || t.exitCode then ReportTestFailed
    else ReportFailed
  }

  function ExitOf(o: Outcome): ExitStatus
  {
    match o
    case Succeeds => ExitCompleted
    case ToolchainMissing | NothingToCheck => ExitBlocked
    case UnsafeChange => SafetyViolation
    case ExecutionError(text) => Classify(text)
    case UnexpectedError(_) => ExitFailed
  }

  function ReportOf(o: Outcome): Report
  {
    match o
    case Succeeds => ReportCompleted
    case ToolchainMissing | NothingToCheck | UnsafeChange => ReportBlocked
    case ExecutionError(text) => ReportOfError(text)
    case UnexpectedError(text) => ReportOfError(text)
  }

  function ClaimedBy(db: Db, task: int, worker: nat, now: int): Db
  {
    db.(leases := db.leases[task := NewLease(worker, now, LEASE_SECONDS)])
  }

  function Started(db: Db, task: int, project: int, worker: nat, now: int): Db
  {
    db.(executions := db.executions + [Execution(task, project, worker, Running, now, None)])
  }

  /** The tables and the result after run_task. With `consume` the worker was handed the approval
      service, and no execution starts unless the consumption succeeds. Only a success reports the
      consumed approval's scope. */
  function AfterTask(db: Db, task: int, project: int, worker: nat, run: int, consume: bool, o: Outcome,
                     now: int): (Db, TaskResult)
  {
    if !Claimable(db, task, now) then (db, NotClaimed)
    else
      var claimed := ClaimedBy(db, task, worker, now);
      var v := ConsumeVerdict(db.approvals, project, Some(task), now);
      if consume && !v.Taken? then
        (claimed.(leases := ReleaseLeases(claimed.leases, {task}, now)), ConsumptionRefused)
      else
        var approvals := if consume then ConsumedRows(db.approvals, v, Some(run), Some(task), now) else db.approvals;
        var execution := |db.executions| + 1;
        var started := Started(claimed.(approvals := approvals), task, project, worker, now);
        (Finalized(started, execution, task, ExitOf(o), [], [], worker, Some(run), now),
         Ran(ReportOf(o), execution, if consume && o.Succeeds? then Some(v.allowed) else None))
  }

  /** The exits of run_task: each one finalizes, and reports in its own words. */
  method ExecuteAndFinalize(db: Database, execution: int, task: int, worker: nat, run: int, o: Outcome, now: int)
    returns (report: Report)
    modifies db
    ensures report == ReportOf(o)
    ensures db.State() == Finalized(old(db.State()), execution, task, ExitOf(o), [], [], worker, Some(run), now)
  {
    match o {
      case Succeeds =>
        FinalizeExecution(db, execution, task, ExitCompleted, [], [], worker, Some(run), now);
        return ReportCompleted;
      case ToolchainMissing | NothingToCheck =>
        FinalizeExecution(db, execution, task, ExitBlocked, [], [], worker, Some(run), now);
        return ReportBlocked;
      case UnsafeChange =>
        FinalizeExecution(db, execution, task, SafetyViolation, [], [], worker, Some(run), now);
        return ReportBlocked;
      case ExecutionError(text) =>
        FinalizeExecution(db, execution, task, Classify(text), [], [], worker, Some(run), now);
        return ReportOfError(text);
      case UnexpectedError(text) =>
        FinalizeExecution(db, execution, task, ExitFailed, [], [], worker, Some(run), now);
        return ReportOfError(text);
    }
  }

  /** run_task */
  method RunTask(db: Database, task: int, project: int, worker: nat, run: int, consume: bool, o: Outcome, now: int)
    returns (r: TaskResult)
    modifies db
    ensures (db.State(), r) == AfterTask(old(db.State()), task, project, worker, run, consume, o, now)
  {
    var claimed := CollectorClaim(db, task, worker, now, LEASE_SECONDS);
    if !claimed {
      return NotClaimed;
    }
    assert db.State() == ClaimedBy(old(db.State()), task, worker, now);
    var scope: Option<seq<int>> := None;
    if consume {
      var v := ConsumeApproval(db, project, Some(run), Some(task), now);
      if !v.Taken? {
        ReleaseLease(db, task, now);
        return ConsumptionRefused;
      }
      scope := Some(v.allowed);
    }
    r := StartAndFinish(db, task, project, worker, run, scope, o, now);
  }

  method StartAndFinish(db: Database, task: int, project: int, worker: nat, run: int, scope: Option<seq<int>>,
                        o: Outcome, now: int)
    returns (r: TaskResult)
    modifies db
    ensures r == Ran(ReportOf(o), |old(db.executions)| + 1, if o.Succeeds? then scope else None)
    ensures db.State() == Finalized(Started(old(db.State()), task, project, worker, now), |old(db.executions)| + 1,
                                    task, ExitOf(o), [], [], worker, Some(run), now)
  {
    db.executions := db.executions + [Execution(task, project, worker, Running, now, None)];
    var execution := |db.executions|;
    var report := ExecuteAndFinalize(db, execution, task, worker, run, o, now);
    return Ran(report, execution, if o.Succeeds? then scope else None);
  }

  /** Whatever happens after a claim, the lease is discharged; the task leaves the pending state,
      unless the consumption was refused, and then nothing was executed or consumed. */
  lemma LeaseDischarged(db: Db, task: int, project: int, worker: nat, run: int, consume: bool, o: Outcome, now: int)
    ensures var (d, r) := AfterTask(db, task, project, worker, run, consume, o, now);
            && (r.NotClaimed? <==> !Claimable(db, task, now)) && (r.NotClaimed? ==> d == db)
            && (!r.NotClaimed? ==>
                  && task in d.leases && d.leases[task].status == LeaseReleased
                  && task in d.tasks && (d.tasks[task].status == Pending <==> r.ConsumptionRefused?))
            && (r.ConsumptionRefused? ==> d == db.(leases := d.leases))
            && (r.Ran? ==> forall j :: 0 <= j < |d.locks| && d.locks[j].holder.execution == r.execution ==>
                  d.locks[j].status != LockActive)
            && (r.Ran? ==>
                  && r.execution == |d.executions| == |db.executions| + 1
                  && d.executions[..|db.executions|] == db.executions
                  && d.executions[r.execution - 1].task == task
                  && d.executions[r.execution - 1].status != Running)
            && (forall t :: t != task ==> (t in d.leases <==> t in db.leases))
            && (forall t :: t != task && t in d.leases ==> d.leases[t] == db.leases[t])
            && (forall t :: t != task ==> (t in d.tasks <==> t in db.tasks))
            && (forall t :: t != task && t in d.tasks ==> d.tasks[t] == db.tasks[t])
  {
    if AfterTask(db, task, project, worker, run, consume, o, now).1.Ran? {
      RanLeaves(db, task, project, worker, run, consume, o, now);
      RanUnlocks(db, task, project, worker, run, consume, o, now);
    }
  }

  /** An executed task leaves no active lock of its execution, and all other locks as they were. */
  lemma RanUnlocks(db: Db, task: int, project: int, worker: nat, run: int, consume: bool, o: Outcome, now: int)
    requires AfterTask(db, task, project, worker, run, consume, o, now).1.Ran?
    ensures var (d, r) := AfterTask(db, task, project, worker, run, consume, o, now);
            && |d.locks| == |db.locks|
            && (forall j :: 0 <= j < |d.locks| ==>
                  if db.locks[j].holder.execution == r.execution then d.locks[j].status != LockActive
                  else d.locks[j] == db.locks[j])
            && (forall j :: 0 <= j < |d.locks| ==> d.locks[j].holder == db.locks[j].holder)
  {
    var started := BeforeExit(db, task, project, worker, run, consume, now);
    LocksFinalizedExactly(started, |db.executions| + 1, task, ExitOf(o), [], [], worker, Some(run), now);
  }

  /** The tables when an execution has started. */
  function BeforeExit(db: Db, task: int, project: int, worker: nat, run: int, consume: bool, now: int): Db
  {
    var v := ConsumeVerdict(db.approvals, project, Some(task), now);
    var approvals := if consume then ConsumedRows(db.approvals, v, Some(run), Some(task), now) else db.approvals;
    Started(ClaimedBy(db, task, worker, now).(approvals := approvals), task, project, worker, now)
  }

  /** What an executed task leaves: its own execution row, closed, its status and its share in the run's
      counters. */
  lemma RanLeaves(db: Db, task: int, project: int, worker: nat, run: int, consume: bool, o: Outcome, now: int)
    requires AfterTask(db, task, project, worker, run, consume, o, now).1.Ran?
    ensures var (d, r) := AfterTask(db, task, project, worker, run, consume, o, now);
            && r.report == ReportOf(o) && task in d.tasks && d.tasks[task].status == TaskStatusOf(ExitOf(o))
            && r.execution == |d.executions| == |db.executions| + 1 && d.executions[..|db.executions|] == db.executions
            && d.executions[r.execution - 1]
                 == Execution(task, project, worker, d.executions[r.execution - 1].status, now, Some(now))
            && Closed(d.executions[r.execution - 1], ExitOf(o), now)
            && d.tasks.Keys == db.tasks.Keys && d.projects == db.projects && d.supply == db.supply
            && d.tasks[task] == db.tasks[task].(status := d.tasks[task].status)
            && (forall t :: t in db.tasks && t != task ==> d.tasks[t] == db.tasks[t])
            && d.leases.Keys == db.leases.Keys + {task}
            && d.leases[task] == Lease(worker, LeaseReleased, now, Some(now + 3600), Some(now))
            && (forall t :: t in db.leases && t != task ==> d.leases[t] == db.leases[t])
            && |d.runs| == |db.runs|
            && (1 <= run <= |db.runs| ==> CountedOnce(db.runs[run - 1], d.runs[run - 1], TaskStatusOf(ExitOf(o)), now))
  {
    var started := BeforeExit(db, task, project, worker, run, consume, now);
    FinalizedExact(started, |db.executions| + 1, task, ExitOf(o), [], [], worker, run, now);
  }

  /** What a worker reports of an executed task and what the tables then say of the task agree exactly
      when the execution raised no error, or an error of its own whose message speaks of safety or a
      timeout or of none of test, exit_code and merge, or any other exception whose message speaks of
      none of safety, timeout, test and exit_code. */
  lemma ReportAgreesExactly(db: Db, task: int, project: int, worker: nat, run: int, consume: bool, o: Outcome, now: int)
    requires AfterTask(db, task, project, worker, run, consume, o, now).1.Ran?
    ensures var (d, r) := AfterTask(db, task, project, worker, run, consume, o, now);
            && task in d.tasks
            && (Agree(r.report, d.tasks[task].status) <==>
                  match o
                  case ExecutionError(t) => t.safety || t.timeout || !(t.test || t.exitCode || t.merge)
                  case UnexpectedError(t) => !(t.safety || t.timeout || t.test || t.exitCode)
                  case _ => true)
  {
    RanLeaves(db, task, project, worker, run, consume, o, now);
    if o.ExecutionError? {
      ErrorStoredExactly(o.text);
    }
  }

  /** Both kinds of disagreement: a failing test is reported as such and stored as failed; an unexpected
      exception that speaks of a timeout is reported as blocked and stored as failed. */
  lemma ReportsDiffer(t: Task, worker: nat)
    requires t.status == Pending
    ensures var db := Db([], map[], [], [], [], map[7 := t], map[], 0);
            var failing := ErrorText(false, false, true, false, false);
            var late := ErrorText(false, true, false, false, false);
            var (d, r) := AfterTask(db, 7, 1, worker, 1, false, ExecutionError(failing), 0);
            var (e, q) := AfterTask(db, 7, 1, worker, 1, false, UnexpectedError(late), 0);
            && r.Ran? && r.report == ReportTestFailed && d.tasks[7].status == Failed
            && q.Ran? && q.report == ReportBlocked && e.tasks[7].status == Failed
  {
  }

  /** The task row and the execution row of an executed task agree exactly when the execution did not
      end in an error of its own that speaks of a timeout and not of safety. */
  lemma StoredRowsAgreeExactly(db: Db, task: int, project: int, worker: nat, run: int, consume: bool, o: Outcome,
                               now: int)
    requires AfterTask(db, task, project, worker, run, consume, o, now).1.Ran?
    ensures var (d, r) := AfterTask(db, task, project, worker, run, consume, o, now);
            && task in d.tasks && 1 <= r.execution <= |d.executions|
            && (Matches(d.tasks[task].status, d.executions[r.execution - 1].status) <==>
                  !(o.ExecutionError? && o.text.timeout && !o.text.safety))
  {
    RanLeaves(db, task, project, worker, run, consume, o, now);
    TablesAgreeExactly(ExitOf(o));
  }

  /** What an error message leaves in the tables: the task is blocked, or else failed, and the
      execution is blocked, or else failed, though not for the same messages. */
  lemma ErrorStoredExactly(t: ErrorText)
    ensures var task, execution := TaskStatusOf(Classify(t)), ExecutionStatusOf(Classify(t));
            && task in {Blocked, Failed} && execution in {ExecBlocked, ExecFailed}
            && (task == Blocked <==> t.safety || t.timeout || (t.merge && !t.test))
            && (execution == ExecBlocked <==> t.safety || (t.merge && !t.test && !t.timeout))
  {
  }

  predicate Agree(r: Report, s: TaskStatus)
  {
    match r
    case ReportCompleted => s == Completed
    case ReportBlocked => s == Blocked
    case ReportTestFailed => s == Other("test_failed")
    case ReportFailed => s == Failed
  }

  /** What each outcome leaves in the two tables. */
  predicate StoredAs(o: Outcome, task: TaskStatus, execution: ExecutionStatus)
  {
    match o
    case Succeeds => task == Completed && execution == ExecSuccess
    case ToolchainMissing | NothingToCheck | UnsafeChange => task == Blocked && execution == ExecBlocked
    case UnexpectedError(_) => task == Failed && execution == ExecFailed
    case ExecutionError(t) =>
      && task == (if t.safety || t.timeout || (t.merge && !t.test) then Blocked else Failed)
      && execution == (if t.safety || (t.merge && !t.test && !t.timeout) then ExecBlocked else ExecFailed)
  }

  /** What the loop is told of each outcome. */
  predicate ToldAs(o: Outcome, report: Report)
  {
    match o
    case Succeeds => report == ReportCompleted
    case ToolchainMissing | NothingToCheck | UnsafeChange => report == ReportBlocked
    case ExecutionError(t) => ToldOf(t, report)
    case UnexpectedError(t) => ToldOf(t, report)
  }

  predicate ToldOf(t: ErrorText, report: Report)
  {
    && (report == ReportBlocked <==> t.safety || t.timeout)
    && (report == ReportTestFailed <==> (t.test || t.exitCode) && !t.safety && !t.timeout)
    && report != ReportCompleted
  }

  /** Every outcome, in the task table, in the execution table and in the worker's result. */
  lemma OutcomesExact(db: Db, task: int, project: int, worker: nat, run: int, consume: bool, o: Outcome, now: int)
    requires AfterTask(db, task, project, worker, run, consume, o, now).1.Ran?
    ensures var (d, r) := AfterTask(db, task, project, worker, run, consume, o, now);
            && task in d.tasks && 1 <= r.execution <= |d.executions|
            && StoredAs(o, d.tasks[task].status, d.executions[r.execution - 1].status) && ToldAs(o, r.report)
  {
    RanLeaves(db, task, project, worker, run, consume, o, now);
    if o.ExecutionError? {
      ErrorStoredExactly(o.text);
    }
  }

  /** An execution takes place with a consumption exactly of the latest valid approval, which admits
      the task and is afterwards recorded as consumed by this run for this task; without one the approvals
      are left alone. */
  lemma ExecutionConsumes(db: Db, task: int, project: int, worker: nat, run: int, consume: bool, o: Outcome, now: int)
    requires AfterTask(db, task, project, worker, run, consume, o, now).1.Ran?
    ensures var i := LatestValid(db.approvals, project, now);
            var d := AfterTask(db, task, project, worker, run, consume, o, now).0;
            if consume then
              && i.Some? && Admits(db.approvals[i.value], task) && |d.approvals| == |db.approvals|
              && d.approvals[i.value] == db.approvals[i.value].(status := Consumed, consumedAt := Some(now),
                                                                consumedRun := Some(run), consumedTask := Some(task))
              && forall j :: 0 <= j < |db.approvals| && j != i.value ==> d.approvals[j] == db.approvals[j]
            else d.approvals == db.approvals
  {
  }

  /** The consumption is reported, with the list of the approval it took, exactly when the execution
      succeeds; an execution that ends otherwise has consumed its approval without saying so. */
  lemma ConsumptionReportedExactly(db: Db, task: int, project: int, worker: nat, run: int, consume: bool, o: Outcome,
                                   now: int)
    requires AfterTask(db, task, project, worker, run, consume, o, now).1.Ran?
    ensures var (d, r) := AfterTask(db, task, project, worker, run, consume, o, now);
            && (r.consumed.Some? <==> consume && o == Succeeds)
            && (r.consumed.Some? ==>
                  exists i :: 0 <= i < |db.approvals| && i < |d.approvals|
                              && db.approvals[i].allowed == r.consumed.value
                              && JustTaken(db.approvals[i], d.approvals[i], run, task, now))
  {
    ExecutionConsumes(db, task, project, worker, run, consume, o, now);
    var (d, r) := AfterTask(db, task, project, worker, run, consume, o, now);
    if r.consumed.Some? {
      var i := LatestValid(db.approvals, project, now).value;
      assert JustTaken(db.approvals[i], d.approvals[i], run, task, now);
    }
  }

  predicate JustTaken(a: Approval, b: Approval, run: int, task: int, now: int)
  {
    && a.status == Approved && a.consumedAt == None
    && b == a.(status := Consumed, consumedAt := Some(now), consumedRun := Some(run), consumedTask := Some(task))
  }
}
