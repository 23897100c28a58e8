/** One pass of the loop in detail: which task it takes, how it may end, what it shows in its run's row. */
module LoopPasses {
  import opened Schema
  import opened Leases
  import opened Cleanup
  import opened Runs
  import opened TaskScheduler
  import opened TaskWorker
  import opened LoopController
  import LoopSafety
  import LoopOutcome
  import LoopProgress

  // ---- Which task it takes ----

  /** More urgent: of higher priority, or of equal priority and earlier in the sort order, or equal in
      both and older. */
  predicate MoreUrgent(tasks: map<int, Task>, a: int, b: int)
    requires a in tasks && b in tasks
  {
    || tasks[a].priority > tasks[b].priority
    || (tasks[a].priority == tasks[b].priority && tasks[a].sortOrder < tasks[b].sortOrder)
    || (tasks[a].priority == tasks[b].priority && tasks[a].sortOrder == tasks[b].sortOrder && a < b)
  }

  /** The runnable tasks are listed from the most to the least urgent. */
  lemma ListedByUrgency(db: Db, project: int, now: int, i: nat, j: nat)
    requires i < j < |RunnableList(db, project, now)|
    ensures var list := RunnableList(db, project, now);
            list[i] in db.tasks && list[j] in db.tasks && MoreUrgent(db.tasks, list[i], list[j])
  {
    var list := RunnableList(db, project, now);
    assert list[i] in list && list[j] in list;
  }

  /** Of the runnable tasks in scope, in the tables as scanned, none is more urgent than this one. */
  ghost predicate IsMostUrgent(cfg: Config, a: LoopState, now: int, task: int)
  {
    && task in LoopSafety.Eligible(cfg, a, now)
    && forall id :: id in LoopSafety.Eligible(cfg, a, now) && id != task ==> MoreUrgent(a.db.tasks, task, id)
  }

  lemma FirstIsMostUrgent(cfg: Config, s: LoopState, now: int)
    requires Choices(cfg, s, now) != []
    ensures IsMostUrgent(cfg, s, now, Choices(cfg, s, now)[0])
  {
    LoopSafety.ChoicesExact(cfg, s, now);
    var choices := Choices(cfg, s, now);
    assert choices[0] in choices;
    forall id | id in LoopSafety.Eligible(cfg, s, now) && id != choices[0]
      ensures MoreUrgent(s.db.tasks, choices[0], id)
    {
      assert id in choices;
      var i :| 0 <= i < |choices| && choices[i] == id;
    }
  }

  /** What a pass consumes an approval for, executes, and accounts for is the most urgent of the runnable
      tasks in scope. */
  lemma MostUrgentFirst(cfg: Config, s: LoopState, t: Turn)
    requires s.phase.Looping?
    ensures var u, a := Pass(cfg, s, t), AtScan(cfg, s, t);
            && s.trace <= u.trace && s.done <= u.done
            && (forall k :: |s.trace| <= k < |u.trace| ==> IsMostUrgent(cfg, a, t.now, u.trace[k].task))
            && (forall k :: |s.done| <= k < |u.done| ==> IsMostUrgent(cfg, a, t.now, u.done[k].task))
  {
    var u, a := Pass(cfg, s, t), AtScan(cfg, s, t);
    LoopSafety.PassIsScanOrEnd(cfg, s, t);
    if !LoopSafety.JustEnded(s, u) && u != s {
      FirstIsMostUrgent(cfg, a, t.now);
      ExecuteIsAbout(cfg, a, t, Choices(cfg, a, t.now)[0]);
    }
  }

  /** Whatever an execution adds to the trace and to the notes is about its task. */
  lemma ExecuteIsAbout(cfg: Config, s: LoopState, t: Turn, task: int)
    ensures var u := Execute(cfg, s, t, task);
            && s.trace <= u.trace && s.done <= u.done
            && (forall k :: |s.trace| <= k < |u.trace| ==> u.trace[k].task == task)
            && (forall k :: |s.done| <= k < |u.done| ==> u.done[k].task == task)
  {
    if !t.fault.PreparationFails? {
      var v := s.(db := Launched(s.db, cfg.run, task));
      WorkIsAbout(cfg, v, t, task);
      var (w, r) := AfterWork(cfg, v, t, task);
      SettleIsAbout(cfg, w, task, r, t.now);
    }
  }

  lemma WorkIsAbout(cfg: Config, s: LoopState, t: Turn, task: int)
    ensures var w := AfterWork(cfg, s, t, task).0;
            && s.trace <= w.trace && w.done == s.done
            && (forall k :: |s.trace| <= k < |w.trace| ==> w.trace[k].task == task)
  {
    var more := Announcement(t.during(s.db), s.control.consumed, cfg, t, task);
    assert forall k :: 0 <= k < |more| ==> more[k].task == task;
  }

  lemma SettleIsAbout(cfg: Config, s: LoopState, task: int, r: TaskResult, now: int)
    ensures var u := Settle(cfg, s, task, r, now);
            && u.trace == s.trace && s.done <= u.done
            && (forall k :: |s.done| <= k < |u.done| ==> u.done[k].task == task)
  {
  }

  // ---- How it may end ----

  /** The user stopped the run, at once or during a pause. */
  predicate Stopped(t: Turn)
  {
    t.stop || (t.pause.PausedFor? && t.pause.stopped)
  }

  predicate OverBudget(cfg: Config, s: LoopState, t: Turn)
  {
    || s.seen.total >= cfg.budget.maxTasks || t.elapsed >= cfg.budget.maxRuntime
    || s.seen.failed >= cfg.budget.maxFailures
  }

  /** The end of a scan that finds nothing: completed without tasks or when all are completed, else
      blocked. */
  predicate IdleEnd(tasks: map<int, Task>, project: int, phase: Phase)
  {
    var ours := set id | id in tasks && tasks[id].project == project;
    if ours == {} then phase == Ended(RunCompleted, "no_tasks")
    else if forall id :: id in ours ==> tasks[id].status == Completed then phase == Ended(RunCompleted, "all_completed")
    else phase == Ended(RunBlocked, "blocked_no_runnable_tasks")
  }

  /** Every end a pass can come to, in the order in which the conditions are asked; LoopSafety.RefusalEndsRun
      says when an execution ends the run. */
  lemma PassEndsExactly(cfg: Config, s: LoopState, t: Turn)
    requires s.phase.Looping?
    ensures var phase, a := Pass(cfg, s, t).phase, AtScan(cfg, s, t);
            if Stopped(t) then phase == Ended(RunCompleted, "stopped_by_user")
            else if OverBudget(cfg, s, t) then phase == Ended(Paused, "budget_exceeded")
            else if t.fault.ScanFails? then phase == Ended(RunFailed, "")
            else if LoopSafety.Eligible(cfg, a, t.now) == {} then IdleEnd(a.db.tasks, cfg.project, phase)
            else if t.fault.PreparationFails? then phase == Ended(RunFailed, "")
            else phase in {Looping, RunVanished, Ended(RunBlocked, "approval_consumption_failed")}
  {
    if !Stopped(t) && !OverBudget(cfg, s, t) && !t.fault.ScanFails? {
      var a := AtScan(cfg, s, t);
      LoopSafety.ChoicesExact(cfg, a, t.now);
      if LoopSafety.Eligible(cfg, a, t.now) == {} {
        IdleVerdict(a.db.tasks, cfg.project);
      }
    }
  }

  lemma IdleVerdict(tasks: map<int, Task>, project: int)
    ensures var (status, reason) := QueueVerdict(tasks, project); IdleEnd(tasks, project, Ended(status, reason))
  {
    var ours := set id | id in tasks && tasks[id].project == project;
    EmptyOrNot(ours);
    assert forall id :: id in tasks && tasks[id].project == project ==> id in ours;
  }

  /** A task that another worker has claimed meanwhile, or that is not pending any more, is not executed
      and uses up no approval, but the run counts it as failed, unless it counted it before. */
  lemma LostClaimCounts(cfg: Config, s: LoopState, t: Turn, task: int)
    requires s.phase.Looping? && Exists(s.db.runs, cfg.run) && !t.fault.PreparationFails?
    requires !Promptless(s.db.tasks, task) && (forall d :: t.during(d).runs == d.runs)
    requires !Claimable(t.during(Launched(s.db, cfg.run, task)), task, t.now)
    ensures var u, offered := Execute(cfg, s, t, task), t.during(Launched(s.db, cfg.run, task));
            && u.phase.Looping? && u.trace == s.trace && u.db == offered.(runs := u.db.runs)
            && u.control.consumed == s.control.consumed && u.control.scope == s.control.scope
            && u.seen.failed == s.db.runs[cfg.run - 1].failed + OneIf(task !in s.control.counted)
            && u.seen.blocked == s.db.runs[cfg.run - 1].blocked && u.seen.completed == s.db.runs[cfg.run - 1].completed
            && u.control.consecutiveFailures == s.control.consecutiveFailures + 1
  {
    LoopSafety.LaunchKeepsCounters(s.db, cfg.run, task);
  }

  // ---- What it shows ----

  /** The row differs from what it was in these columns only, and no other row differs. */
  predicate Shows(before: seq<Run>, after: seq<Run>, run: int, row: Run)
  {
    Exists(before, run) && after == before[run - 1 := row]
  }

  /** While a run that is live, and the only live one of its project, goes through the phases of a pass,
      its row says so: paused, unless others say otherwise, scanning, and executing which task. */
  lemma PhasesShown(cfg: Config, s: LoopState, t: Turn, task: int)
    requires LoopOutcome.OwnRunLive(s.db.runs, cfg.run) && t.before(s.db) == s.db && task in s.db.tasks
    ensures var row := s.db.runs[cfg.run - 1];
            && (t.pause.PausedFor? && t.pause.meanwhile(WithStatus(s.db, cfg.run, StatusPatch(Paused)))
                                        == WithStatus(s.db, cfg.run, StatusPatch(Paused)) ==>
                  Shows(s.db.runs, Waited(cfg, s.db, t).runs, cfg.run,
                        row.(status := Paused, heartbeat := Some(t.now))))
            && Shows(s.db.runs, Begun(cfg, s).db.runs, cfg.run, row.(status := Scanning))
            && Shows(s.db.runs, Launched(s.db, cfg.run, task).runs, cfg.run,
                     row.(status := Executing, currentTask := Some(task), total := row.total + 1))
            && (t.pause.NotPaused? ==>
                  Shows(s.db.runs, AtScan(cfg, s, t).db.runs, cfg.run,
                        row.(status := Scanning, heartbeat := Some(t.now))))
  {
    PatchShown(s.db, cfg.run, StatusPatch(Paused));
    PatchShown(s.db, cfg.run, StatusPatch(Scanning));
    LaunchShown(s.db, cfg.run, task);
    if t.pause.NotPaused? {
      var beaten := s.db.(runs := Beaten(s.db.runs, cfg.run, t.now));
      PatchShown(beaten, cfg.run, StatusPatch(Scanning));
    }
  }

  lemma PatchShown(db: Db, run: int, p: Patch)
    requires LoopOutcome.OwnRunLive(db.runs, run) && !IsEmpty(p) && PatchRefsOk(db.tasks, p)
    ensures var u, row := WithStatus(db, run, p), db.runs[run - 1];
            && u == db.(runs := u.runs) && Shows(db.runs, u.runs, run, u.runs[run - 1])
            && SetTo(row, u.runs[run - 1], p)
  {
    assert Updatable(db.runs, run, p, true);
    UpdateExact(db.runs, run, p);
  }

  lemma LaunchShown(db: Db, run: int, task: int)
    requires LoopOutcome.OwnRunLive(db.runs, run) && task in db.tasks
    ensures var u, row := Launched(db, run, task), db.runs[run - 1];
            && u == db.(runs := u.runs)
            && Shows(db.runs, u.runs, run,
                     row.(status := Executing, currentTask := Some(task), total := row.total + 1))
  {
    var p := StatusPatch(Executing).(currentTask := Some(task));
    var claiming := WithStatus(db, run, StatusPatch(Claiming));
    PatchShown(db, run, StatusPatch(Claiming));
    LoopOutcome.StatusKeepsLive(db, run, StatusPatch(Claiming));
    PatchShown(claiming, run, p);
  }

  /** A pass after which the loop goes on has sent a heartbeat: nobody takes the run over before the
      timeout has passed since. */
  lemma PassProtects(cfg: Config, s: LoopState, t: Turn, later: int, timeout: int)
    requires s.phase.Looping? && Pass(cfg, s, t).phase.Looping?
    ensures var u := Pass(cfg, s, t);
            && Exists(u.db.runs, cfg.run) && u.seen == u.db.runs[cfg.run - 1] && u.seen.heartbeat == Some(t.now)
            && (Stealable(u.seen, later, timeout) ==> later > t.now + timeout)
  {
    var a := AtScan(cfg, s, t);
    LoopSafety.PassExecutes(cfg, s, t);
    var task := Choices(cfg, a, t.now)[0];
    var launched := a.(db := Launched(a.db, cfg.run, task));
    var (w, r) := AfterWork(cfg, launched, t, task);
    SettleBeats(cfg, w, task, r, t.now);
  }

  lemma SettleBeats(cfg: Config, s: LoopState, task: int, r: TaskResult, now: int)
    requires Settle(cfg, s, task, r, now).phase.Looping?
    ensures var u := Settle(cfg, s, task, r, now);
            Exists(u.db.runs, cfg.run) && u.seen == u.db.runs[cfg.run - 1] && u.seen.heartbeat == Some(now)
  {
  }

  // ---- What becomes of a loop that dies ----

  /** The tables in which a worker of the loop has just claimed the task it is to execute. */
  function InMidTask(cfg: Config, s: LoopState, t: Turn, task: int): Db
  {
    ClaimedBy(Launched(AtScan(cfg, s, t).db, cfg.run, task), task, cfg.worker, t.now)
  }

  /** If the process dies there, the recovery leaves run and task alone until the timeout has passed since
      the scan; then it restarts the run for another worker, without a task, and the task can be claimed
      again, although the lease would have lasted longer. */
  lemma DeadLoopRecovers(cfg: Config, s: LoopState, t: Turn, task: int, other: nat, later: int, timeout: int)
    requires LoopOutcome.OwnRunLive(s.db.runs, cfg.run) && t.before(s.db) == s.db && t.pause.NotPaused?
    requires IsPending(s.db.tasks, task) && t.now <= later < t.now + 3600
    ensures var d := InMidTask(cfg, s, t, task);
            && Exists(d.runs, cfg.run)
            && var (e, action) := Attempted(d, cfg.run, d.runs[cfg.run - 1], other, Alone(later), timeout);
               if later <= t.now + timeout then action == Skipped && e == d && !Claimable(d, task, later)
               else && action == Resumed && Exists(e.runs, cfg.run) && Claimable(e, task, later)
                    && e.runs[cfg.run - 1].status == Starting && e.runs[cfg.run - 1].worker == other
                    && e.runs[cfg.run - 1].currentTask == None
  {
    var a, d := AtScan(cfg, s, t), InMidTask(cfg, s, t, task);
    PhasesShown(cfg, s, t, task);
    ScanLive(cfg, s, t);
    LaunchShown(a.db, cfg.run, task);
    AttemptExact(d, cfg.run, other, later, timeout);
  }

  lemma ScanLive(cfg: Config, s: LoopState, t: Turn)
    requires LoopOutcome.OwnRunLive(s.db.runs, cfg.run) && t.before(s.db) == s.db && t.pause.NotPaused?
    ensures LoopOutcome.OwnRunLive(AtScan(cfg, s, t).db.runs, cfg.run)
    ensures AtScan(cfg, s, t).db == s.db.(runs := AtScan(cfg, s, t).db.runs)
  {
    LoopOutcome.StatusKeepsLive(s.db.(runs := Beaten(s.db.runs, cfg.run, t.now)), cfg.run, StatusPatch(Scanning));
  }
}
