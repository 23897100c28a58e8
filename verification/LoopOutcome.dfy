/** What a loop ends with is what the run table says, and until then its run is live. */
module LoopOutcome {
  import opened Schema
  import opened Cleanup
  import opened Runs
  import opened TaskWorker
  import opened LoopController
  import LoopSafety

  /** The run of this loop is live and, as always, no project has two live runs. */
  predicate OwnRunLive(runs: seq<Run>, run: int)
  {
    OneLive(runs) && Exists(runs, run) && IsLive(runs[run - 1].status)
  }

  /** The run's row states how and when the loop ended, and why unless an exception ended it. */
  predicate Recorded(runs: seq<Run>, run: int, status: RunStatus, reason: string)
  {
    && OneLive(runs) && Exists(runs, run)
    && runs[run - 1].status == status && (reason != "" ==> runs[run - 1].reason == reason)
    && runs[run - 1].finishedAt.Some?
  }

  predicate Consistent(cfg: Config, s: LoopState)
  {
    match s.phase
    case Looping => OwnRunLive(s.db.runs, cfg.run)
    case Ended(status, reason) => Recorded(s.db.runs, cfg.run, status, reason)
    case RunVanished => false
  }

  /** A loop that has ended has set the time on its run's row. */
  predicate Dated(cfg: Config, u: LoopState, now: int)
  {
    u.phase.Ended? ==> Exists(u.db.runs, cfg.run) && u.db.runs[cfg.run - 1].finishedAt == Some(now)
  }

  lemma StatusKeepsLive(db: Db, run: int, p: Patch)
    requires OwnRunLive(db.runs, run) && (p.status.Some? ==> IsLive(p.status.value))
    ensures OwnRunLive(WithStatus(db, run, p).runs, run)
  {
  }

  /** The last update of a run goes through: from a live row to any status, or between two statuses
      that are not live. */
  lemma FinalIsRecorded(db: Db, run: int, status: RunStatus, reason: string, now: int)
    requires OneLive(db.runs) && Exists(db.runs, run)
    requires IsLive(db.runs[run - 1].status) || !IsLive(status)
    ensures Recorded(WithStatus(db, run, FinalPatch(status, reason, now)).runs, run, status, reason)
    ensures WithStatus(db, run, FinalPatch(status, reason, now)).runs[run - 1].finishedAt == Some(now)
  {
    var p := FinalPatch(status, reason, now);
    assert Updatable(db.runs, run, p, PatchRefsOk(db.tasks, p));
  }

  lemma TwiceIsRecorded(db: Db, run: int, status: RunStatus, reason: string, now: int)
    requires OwnRunLive(db.runs, run)
    ensures var u := WithStatus(WithStatus(db, run, StatusPatch(status)), run, FinalPatch(status, reason, now));
            Recorded(u.runs, run, status, reason) && u.runs[run - 1].finishedAt == Some(now)
  {
    var p := StatusPatch(status);
    assert Updatable(db.runs, run, p, PatchRefsOk(db.tasks, p));
    FinalIsRecorded(WithStatus(db, run, p), run, status, reason, now);
  }

  lemma LaunchKeepsLive(db: Db, run: int, task: int)
    requires OwnRunLive(db.runs, run)
    ensures OwnRunLive(Launched(db, run, task).runs, run)
  {
    var claiming := WithStatus(db, run, StatusPatch(Claiming));
    StatusKeepsLive(db, run, StatusPatch(Claiming));
    StatusKeepsLive(claiming, run, StatusPatch(Executing).(currentTask := Some(task)));
  }

  lemma FinishKeepsLive(runs: seq<Run>, run: int, status: TaskStatus, now: int)
    requires OwnRunLive(runs, run)
    ensures OwnRunLive(FinishRun(runs, run, status, now), run)
  {
  }

  /** A worker changes the counters of its run and the current task, never a status or a project. */
  lemma WorkKeepsLive(cfg: Config, s: LoopState, t: Turn, task: int)
    requires OwnRunLive(s.db.runs, cfg.run) && t.during(s.db).runs == s.db.runs
    ensures OwnRunLive(AfterWork(cfg, s, t, task).0.db.runs, cfg.run)
  {
    FinishKeepsLive(s.db.runs, cfg.run, TaskStatusOf(ExitOf(t.outcome)), t.now);
    FinishKeepsLive(s.db.runs, cfg.run, TaskStatusOf(WorkerLost), t.now);
  }

  lemma SettleConsistent(cfg: Config, s: LoopState, task: int, r: TaskResult, now: int)
    requires s.phase.Looping? && OwnRunLive(s.db.runs, cfg.run)
    ensures Consistent(cfg, Settle(cfg, s, task, r, now)) && Dated(cfg, Settle(cfg, s, task, r, now), now)
  {
    if r.ConsumptionRefused? {
      TwiceIsRecorded(s.db, cfg.run, RunBlocked, "approval_consumption_failed", now);
    }
  }

  lemma ExecuteConsistent(cfg: Config, s: LoopState, t: Turn, task: int)
    requires s.phase.Looping? && OwnRunLive(s.db.runs, cfg.run) && LoopSafety.RunsUntouched(t)
    ensures Consistent(cfg, Execute(cfg, s, t, task)) && Dated(cfg, Execute(cfg, s, t, task), t.now)
  {
    var v := s.(db := Launched(s.db, cfg.run, task));
    LaunchKeepsLive(s.db, cfg.run, task);
    if t.fault.PreparationFails? {
      TwiceIsRecorded(v.db, cfg.run, RunFailed, "", t.now);
    } else {
      WorkKeepsLive(cfg, v, t, task);
      var (w, r) := AfterWork(cfg, v, t, task);
      SettleConsistent(cfg, w, task, r, t.now);
    }
  }

  lemma ScanConsistent(cfg: Config, s: LoopState, t: Turn)
    requires s.phase.Looping? && OwnRunLive(s.db.runs, cfg.run) && LoopSafety.RunsUntouched(t)
    ensures Consistent(cfg, ScanPass(cfg, s, t)) && Dated(cfg, ScanPass(cfg, s, t), t.now)
  {
    var choices := Choices(cfg, s, t.now);
    if t.fault.ScanFails? {
      TwiceIsRecorded(s.db, cfg.run, RunFailed, "", t.now);
    } else if choices == [] {
      var (status, reason) := QueueVerdict(s.db.tasks, cfg.project);
      FinalIsRecorded(s.db, cfg.run, status, reason, t.now);
    } else {
      ExecuteConsistent(cfg, s, t, choices[0]);
    }
  }

  /** A pass keeps the run's row in step with the loop, and the end of the loop is dated with its time. */
  lemma PassConsistent(cfg: Config, s: LoopState, t: Turn)
    requires Consistent(cfg, s) && LoopSafety.RunsUntouched(t)
    ensures Consistent(cfg, Pass(cfg, s, t)) && (s.phase.Looping? ==> Dated(cfg, Pass(cfg, s, t), t.now))
  {
    if s.phase.Looping? {
      var db := t.before(s.db);
      WaitKeepsLive(cfg, db, t);
      var resumed := AfterPause(cfg, db, t);
      var beaten := resumed.(runs := Beaten(resumed.runs, cfg.run, t.now));
      assert OwnRunLive(beaten.runs, cfg.run);
      if t.stop {
        TwiceIsRecorded(db, cfg.run, RunCompleted, "stopped_by_user", t.now);
      } else if t.pause.PausedFor? && t.pause.stopped {
        TwiceIsRecorded(Waited(cfg, db, t), cfg.run, RunCompleted, "stopped_by_user", t.now);
      } else if CheckRunBudget(cfg.budget, s.seen, t.elapsed) != WithinBudget {
        TwiceIsRecorded(beaten, cfg.run, Paused, "budget_exceeded", t.now);
      } else {
        StatusKeepsLive(beaten, cfg.run, StatusPatch(Scanning));
        ScanConsistent(cfg, AtScan(cfg, s, t), t);
      }
    }
  }

  lemma WaitKeepsLive(cfg: Config, db: Db, t: Turn)
    requires OwnRunLive(db.runs, cfg.run) && LoopSafety.RunsUntouched(t)
    ensures OwnRunLive(Waited(cfg, db, t).runs, cfg.run) && OwnRunLive(AfterPause(cfg, db, t).runs, cfg.run)
  {
    if t.pause.PausedFor? {
      StatusKeepsLive(db, cfg.run, StatusPatch(Paused));
      StatusKeepsLive(Waited(cfg, db, t), cfg.run, StatusPatch(Scanning));
    }
  }

  /** Over every run from its start, whatever happens to the other tables: as long as the loop goes
      on its run is live, and once it has ended the run's row bears the status and the reason it ended
      with; at no time does a project have two live runs. */
  lemma OutcomeRecorded(cfg: Config, s: LoopState, turns: seq<Turn>)
    requires s.phase.Looping? && OwnRunLive(s.db.runs, cfg.run)
    requires forall i :: 0 <= i < |turns| ==> LoopSafety.RunsUntouched(turns[i])
    ensures Consistent(cfg, Loop(cfg, Begun(cfg, s), turns))
  {
    StatusKeepsLive(s.db, cfg.run, StatusPatch(Scanning));
    OutcomeKept(cfg, Begun(cfg, s), turns);
  }

  lemma {:induction false} OutcomeKept(cfg: Config, s: LoopState, turns: seq<Turn>)
    requires Consistent(cfg, s) && forall i :: 0 <= i < |turns| ==> LoopSafety.RunsUntouched(turns[i])
    ensures Consistent(cfg, Loop(cfg, s, turns))
    decreases |turns|
  {
    if turns != [] {
      PassConsistent(cfg, s, turns[0]);
      OutcomeKept(cfg, Pass(cfg, s, turns[0]), turns[1..]);
    }
  }
}
