/** What the loop remembers of a consumption: the scope of a success, and nothing of a failure. */
module LoopConsumption {
  import opened Schema
  import opened Leases
  import opened Approvals
  import opened Runs
  import opened TaskScheduler
  import opened TaskWorker
  import opened LoopController
  import LoopSafety
  import LoopProgress

  /** An execution with a consumption, and what is remembered of it: after a success the list of the
      approval, or with no list the task alone; after anything else nothing, though the approval is
      consumed all the same. */
  lemma RememberedExactly(cfg: Config, s: LoopState, t: Turn, task: int)
    requires !s.control.consumed && s.control.scope == None
    requires AfterWork(cfg, s, t, task).1.Ran?
    ensures var (w, r) := AfterWork(cfg, s, t, task);
            && LatestValid(t.during(s.db).approvals, cfg.project, t.now).Some?
            && var i := LatestValid(t.during(s.db).approvals, cfg.project, t.now).value;
               var a := t.during(s.db).approvals[i];
               && i < |w.db.approvals| && w.db.approvals[i].consumedAt == Some(t.now)
               && (w.control.consumed <==> t.outcome == Succeeds)
               && (w.control.scope.Some? <==> t.outcome == Succeeds)
               && (t.outcome == Succeeds ==>
                     forall id :: id in w.control.scope.value <==> id in a.allowed || (a.allowed == [] && id == task))
  {
    ExecutionConsumes(t.during(s.db), task, cfg.project, cfg.worker, cfg.run, true, t.outcome, t.now);
    ConsumptionReportedExactly(t.during(s.db), task, cfg.project, cfg.worker, cfg.run, true, t.outcome, t.now);
  }

  /** A pass nobody disturbs and nothing stops, whatever the outcome. */
  ghost predicate Plain(cfg: Config, s: LoopState, t: Turn)
  {
    && (forall d :: t.before(d) == d && t.during(d) == d) && !t.stop && t.pause.NotPaused? && t.fault.NoFault?
    && s.seen.total < cfg.budget.maxTasks && t.elapsed < cfg.budget.maxRuntime && s.seen.failed < cfg.budget.maxFailures
  }

  /** The run has consumed nothing it knows of, and its first choice can be executed with approval i, which
      is the only one of the project that is valid at either time. */
  predicate OneApproval(cfg: Config, s: LoopState, i: nat, now: int, later: int)
  {
    && s.phase.Looping? && !s.control.consumed && s.control.scope == None && Exists(s.db.runs, cfg.run)
    && LatestValid(s.db.approvals, cfg.project, now) == Some(i)
    && (forall j :: 0 <= j < |s.db.approvals| && IsValid(s.db.approvals[j], cfg.project, later) ==> j == i)
    && Choices(cfg, s, now) != [] && !Promptless(s.db.tasks, Choices(cfg, s, now)[0])
  }

  /** The first execution fails: the approval is gone, and the run does not know that it had one. */
  lemma FailureForgets(cfg: Config, s: LoopState, t: Turn, i: nat, later: int)
    requires Plain(cfg, s, t) && OneApproval(cfg, s, i, t.now, later) && t.outcome != Succeeds
    ensures var u := Pass(cfg, s, t);
            && u.phase.Looping? && !u.control.consumed && u.control.scope == None && Exists(u.db.runs, cfg.run)
            && LoopProgress.Executions(u.trace) == LoopProgress.Executions(s.trace) + 1
            && LatestValid(u.db.approvals, cfg.project, later) == None
  {
    var a, task := AtScan(cfg, s, t), Choices(cfg, s, t.now)[0];
    LoopSafety.QuietPass(cfg, s, t);
    LoopSafety.ChosenIsRunnable(cfg, s, t.now);
    assert task in Choices(cfg, s, t.now);
    LoopSafety.ChoicesExact(cfg, s, t.now);
    var v := a.(db := Launched(a.db, cfg.run, task));
    LoopSafety.LaunchKeepsCounters(a.db, cfg.run, task);
    assert t.during(v.db) == v.db;
    FailedWork(cfg, v, t, task, i, later);
    var (w, r) := AfterWork(cfg, v, t, task);
    LoopSafety.SettleSyncs(cfg, w, task, r, t.now);
    LoopSafety.SettleKeepsScope(cfg, w, task, r, t.now);
    LoopSafety.SettleKeepsRest(cfg, w, task, r, t.now);
  }

  lemma FailedWork(cfg: Config, s: LoopState, t: Turn, task: int, i: nat, later: int)
    requires t.during(s.db) == s.db && t.outcome != Succeeds && !Promptless(s.db.tasks, task)
    requires s.phase.Looping? && !s.control.consumed && s.control.scope == None && Exists(s.db.runs, cfg.run)
    requires LatestValid(s.db.approvals, cfg.project, t.now) == Some(i) && Claimable(s.db, task, t.now)
    requires i < |s.db.approvals| && Admits(s.db.approvals[i], task)
    requires forall j :: 0 <= j < |s.db.approvals| && IsValid(s.db.approvals[j], cfg.project, later) ==> j == i
    ensures var (w, r) := AfterWork(cfg, s, t, task);
            && r.Ran? && w.phase.Looping? && !w.control.consumed && w.control.scope == None
            && Exists(w.db.runs, cfg.run) && LoopProgress.Executions(w.trace) == LoopProgress.Executions(s.trace) + 1
            && LatestValid(w.db.approvals, cfg.project, later) == None
  {
    var (w, r) := AfterWork(cfg, s, t, task);
    assert r.Ran?;
    RememberedExactly(cfg, s, t, task);
    ExecutionConsumes(s.db, task, cfg.project, cfg.worker, cfg.run, true, t.outcome, t.now);
    LoopProgress.ChosenIsCounted(cfg, s, t, task);
    LoopSafety.WorkKeepsTotal(cfg, s, t, task);
  }

  /** So when no other approval is live, the next attempt on a task with a prompt executes nothing and
      ends the run, although the approval may have listed that task too. */
  lemma FailureCostsTheRun(cfg: Config, s: LoopState, t: Turn, i: nat, next: Turn)
    requires Plain(cfg, s, t) && OneApproval(cfg, s, i, t.now, next.now) && t.outcome != Succeeds
    ensures var u := Pass(cfg, s, t);
            Plain(cfg, u, next) && RunnableSet(u.db, cfg.project, next.now) != {} ==> EndsUnapproved(cfg, u, next)
  {
    FailureForgets(cfg, s, t, i, next.now);
    var u := Pass(cfg, s, t);
    if Plain(cfg, u, next) && RunnableSet(u.db, cfg.project, next.now) != {} {
      LoopSafety.NoApprovalNoExecution(cfg, u, next);
    }
  }

  /** The pass executes nothing, and ends the run exactly when the first runnable task has a prompt. */
  predicate EndsUnapproved(cfg: Config, u: LoopState, t: Turn)
  {
    var v, list := Pass(cfg, u, t), RunnableList(u.db, cfg.project, t.now);
    && list != [] && v.trace == u.trace && v.db.executions == u.db.executions
    && (v.phase == Ended(RunBlocked, "approval_consumption_failed") <==> !Promptless(u.db.tasks, list[0]))
  }
}
