/** The failure budget: what the loop counts as failures, and what "consecutive" would mean. */
module LoopFailures {
  import opened Schema
  import opened Leases
  import opened Cleanup
  import opened Runs
  import opened TaskScheduler
  import opened TaskWorker
  import opened LoopController
  import LoopSafety
  import LoopProgress

  predicate Failing(r: Report)
  {
    r.ReportFailed? || r.ReportTestFailed?
  }

  /** The executions that the finalizer left as failed. */
  function Stored(trace: seq<Event>): nat
  {
    Count(trace, (e: Event) => e.Executed? && e.status == Failed)
  }

  function TasksIn(done: seq<Note>): set<int>
  {
    set i | 0 <= i < |done| :: done[i].task
  }

  /** The tasks whose first note in this controller is a failure. */
  function FirstFailures(done: seq<Note>, counted: set<int>): nat
  {
    if done == [] then 0
    else
      var front, last := done[..|done| - 1], done[|done| - 1];
      FirstFailures(front, counted)
      + OneIf(Failing(last.report) && last.task !in counted + TasksIn(front))
  }

  /** The failures since the last success; a blocked task neither counts nor interrupts. */
  function Streak(done: seq<Note>, before: nat): nat
  {
    if done == [] then before
    else
      var rest := Streak(done[..|done| - 1], before);
      match done[|done| - 1].report
      case ReportCompleted => 0
      case ReportBlocked => rest
      case _ => rest + 1
  }

  function FailedOf(runs: seq<Run>, run: int): nat
    requires Exists(runs, run)
  {
    runs[run - 1].failed
  }

  // ---- The failure counter over a whole run ----

  /** The counters, from what they were at the start and what has been announced since. */
  predicate Tallied(cfg: Config, s: LoopState, failed: nat, c: Control)
  {
    && Exists(s.db.runs, cfg.run)
    && FailedOf(s.db.runs, cfg.run) == failed + Stored(s.trace) + FirstFailures(s.done, c.counted)
    && s.control.counted == c.counted + TasksIn(s.done)
    && s.control.consecutiveFailures == Streak(s.done, c.consecutiveFailures)
  }

  lemma StatusKeepsFailed(db: Db, run: int, p: Patch)
    requires Exists(db.runs, run)
    ensures Exists(WithStatus(db, run, p).runs, run)
    ensures FailedOf(WithStatus(db, run, p).runs, run) == FailedOf(db.runs, run)
  {
  }

  lemma EndTallied(cfg: Config, s: LoopState, db: Db, status: RunStatus, reason: string, now: int, failed: nat,
                   c: Control)
    requires Tallied(cfg, s.(db := db), failed, c)
    ensures Tallied(cfg, End(s, db, cfg.run, status, reason, now), failed, c)
    ensures Tallied(cfg, End(s, WithStatus(db, cfg.run, StatusPatch(status)), cfg.run, status, reason, now), failed, c)
  {
    StatusKeepsFailed(db, cfg.run, FinalPatch(status, reason, now));
    StatusKeepsFailed(db, cfg.run, StatusPatch(status));
    StatusKeepsFailed(WithStatus(db, cfg.run, StatusPatch(status)), cfg.run, FinalPatch(status, reason, now));
  }

  lemma StoredSnoc(trace: seq<Event>, e: Event)
    ensures Stored(trace + [e]) == Stored(trace) + OneIf(e.Executed? && e.status == Failed)
  {
    assert (trace + [e])[..|trace|] == trace;
  }

  lemma StoredAnnouncement(trace: seq<Event>, more: seq<Event>)
    requires |more| <= 2 && (|more| == 2 ==> more[0].ConsumedApproval?)
    ensures Stored(trace + more)
         == Stored(trace)
              + OneIf(more != [] && more[|more| - 1].Executed? && more[|more| - 1].status == Failed)
  {
    if more == [] {
      assert trace + more == trace;
    } else if |more| == 1 {
      assert trace + more == trace + [more[0]];
      StoredSnoc(trace, more[0]);
    } else {
      assert trace + more == trace + [more[0]] + [more[1]];
      StoredSnoc(trace, more[0]);
      StoredSnoc(trace + [more[0]], more[1]);
    }
  }

  /** The work on a task raises the failure counter as far as it announces a failed execution. */
  lemma WorkTally(cfg: Config, s: LoopState, t: Turn, task: int)
    requires Exists(s.db.runs, cfg.run) && t.during(s.db).runs == s.db.runs
    ensures var (w, r) := AfterWork(cfg, s, t, task);
            && w.done == s.done && w.control.counted == s.control.counted
            && w.control.consecutiveFailures == s.control.consecutiveFailures
            && Exists(w.db.runs, cfg.run)
            && FailedOf(w.db.runs, cfg.run) + Stored(s.trace) == FailedOf(s.db.runs, cfg.run) + Stored(w.trace)
  {
    if AfterWork(cfg, s, t, task).1.Ran? {
      SomethingRan(cfg, s, t, task);
    } else {
      NothingRan(cfg, s, t, task);
    }
  }

  lemma SomethingRan(cfg: Config, s: LoopState, t: Turn, task: int)
    requires Exists(s.db.runs, cfg.run) && t.during(s.db).runs == s.db.runs && AfterWork(cfg, s, t, task).1.Ran?
    ensures var w := AfterWork(cfg, s, t, task).0;
            var failed := OneIf(TaskStatusOf(ExitOf(t.outcome)) == Failed);
            && Stored(w.trace) == Stored(s.trace) + failed && Exists(w.db.runs, cfg.run)
            && FailedOf(w.db.runs, cfg.run) == FailedOf(s.db.runs, cfg.run) + failed
  {
    LoopSafety.WorkCounts(cfg, s, t, task);
    StoredAnnouncement(s.trace, Announcement(t.during(s.db), s.control.consumed, cfg, t, task));
  }

  lemma NothingRan(cfg: Config, s: LoopState, t: Turn, task: int)
    requires Exists(s.db.runs, cfg.run) && t.during(s.db).runs == s.db.runs && !AfterWork(cfg, s, t, task).1.Ran?
    ensures var w := AfterWork(cfg, s, t, task).0;
            && w.trace == s.trace && Exists(w.db.runs, cfg.run)
            && FailedOf(w.db.runs, cfg.run) == FailedOf(s.db.runs, cfg.run)
  {
    assert s.trace + [] == s.trace;
  }

  lemma NoteTally(done: seq<Note>, n: Note, c: Control)
    ensures TasksIn(done + [n]) == TasksIn(done) + {n.task}
    ensures FirstFailures(done + [n], c.counted) == FirstFailures(done, c.counted)
              + OneIf(Failing(n.report) && n.task !in c.counted + TasksIn(done))
    ensures Streak(done + [n], c.consecutiveFailures) == match n.report
              case ReportCompleted => 0
              case ReportBlocked => Streak(done, c.consecutiveFailures)
              case _ => Streak(done, c.consecutiveFailures) + 1
  {
    var all := done + [n];
    assert all[..|all| - 1] == done;
    assert forall i :: 0 <= i < |done| ==> all[i] == done[i];
    assert all[|done|] == n;
  }

  lemma SettleTally(cfg: Config, s: LoopState, task: int, r: TaskResult, now: int, failed: nat, c: Control)
    requires Tallied(cfg, s, failed, c)
    ensures Tallied(cfg, Settle(cfg, s, task, r, now), failed, c)
  {
    if r.ConsumptionRefused? {
      EndTallied(cfg, s, s.db, RunBlocked, "approval_consumption_failed", now, failed, c);
    } else {
      NoteTally(s.done, Note(task, Accounted(r)), c);
    }
  }

  lemma ExecuteTally(cfg: Config, s: LoopState, t: Turn, task: int, failed: nat, c: Control)
    requires Tallied(cfg, s, failed, c) && LoopSafety.RunsUntouched(t)
    ensures Tallied(cfg, Execute(cfg, s, t, task), failed, c)
  {
    var v := s.(db := Launched(s.db, cfg.run, task));
    LoopSafety.LaunchKeepsCounters(s.db, cfg.run, task);
    if t.fault.PreparationFails? {
      EndTallied(cfg, v, v.db, RunFailed, "", t.now, failed, c);
    } else {
      WorkTally(cfg, v, t, task);
      var (w, r) := AfterWork(cfg, v, t, task);
      SettleTally(cfg, w, task, r, t.now, failed, c);
    }
  }

  lemma ScanTally(cfg: Config, s: LoopState, t: Turn, failed: nat, c: Control)
    requires Tallied(cfg, s, failed, c) && LoopSafety.RunsUntouched(t)
    ensures Tallied(cfg, ScanPass(cfg, s, t), failed, c)
  {
    var choices := Choices(cfg, s, t.now);
    if t.fault.ScanFails? {
      EndTallied(cfg, s, s.db, RunFailed, "", t.now, failed, c);
    } else if choices == [] {
      var (status, reason) := QueueVerdict(s.db.tasks, cfg.project);
      EndTallied(cfg, s, s.db, status, reason, t.now, failed, c);
    } else {
      ExecuteTally(cfg, s, t, choices[0], failed, c);
    }
  }

  lemma WaitTally(cfg: Config, db: Db, t: Turn)
    requires Exists(db.runs, cfg.run) && LoopSafety.RunsUntouched(t)
    ensures Exists(Waited(cfg, db, t).runs, cfg.run)
    ensures FailedOf(Waited(cfg, db, t).runs, cfg.run) == FailedOf(db.runs, cfg.run)
    ensures Exists(AfterPause(cfg, db, t).runs, cfg.run)
    ensures FailedOf(AfterPause(cfg, db, t).runs, cfg.run) == FailedOf(db.runs, cfg.run)
  {
    if t.pause.PausedFor? {
      StatusKeepsFailed(db, cfg.run, StatusPatch(Paused));
      StatusKeepsFailed(Waited(cfg, db, t), cfg.run, StatusPatch(Scanning));
    }
  }

  lemma PassTally(cfg: Config, s: LoopState, t: Turn, failed: nat, c: Control)
    requires Tallied(cfg, s, failed, c) && LoopSafety.RunsUntouched(t)
    ensures Tallied(cfg, Pass(cfg, s, t), failed, c)
  {
    if s.phase.Looping? {
      var db := t.before(s.db);
      WaitTally(cfg, db, t);
      var resumed := AfterPause(cfg, db, t);
      var beaten := resumed.(runs := Beaten(resumed.runs, cfg.run, t.now));
      assert Tallied(cfg, s.(db := db), failed, c) && Tallied(cfg, s.(db := beaten), failed, c);
      if t.stop {
        EndTallied(cfg, s, db, RunCompleted, "stopped_by_user", t.now, failed, c);
      } else if t.pause.PausedFor? && t.pause.stopped {
        EndTallied(cfg, s, Waited(cfg, db, t), RunCompleted, "stopped_by_user", t.now, failed, c);
      } else if CheckRunBudget(cfg.budget, s.seen, t.elapsed) != WithinBudget {
        EndTallied(cfg, s, beaten, Paused, "budget_exceeded", t.now, failed, c);
      } else {
        StatusKeepsFailed(beaten, cfg.run, StatusPatch(Scanning));
        ScanTally(cfg, AtScan(cfg, s, t), t, failed, c);
      }
    }
  }

  lemma {:induction false} TallyKept(cfg: Config, s: LoopState, turns: seq<Turn>, failed: nat, c: Control)
    requires Tallied(cfg, s, failed, c) && forall i :: 0 <= i < |turns| ==> LoopSafety.RunsUntouched(turns[i])
    ensures Tallied(cfg, Loop(cfg, s, turns), failed, c)
    decreases |turns|
  {
    if turns != [] {
      PassTally(cfg, s, turns[0], failed, c);
      TallyKept(cfg, Pass(cfg, s, turns[0]), turns[1..], failed, c);
    }
  }

  /** Over every run: the counter the budget looks at has gone up by the executions left failed plus
      the tasks first accounted for as failing; the controller's own count is the present streak. */
  lemma FailuresTallied(cfg: Config, s: LoopState, turns: seq<Turn>, u: LoopState)
    requires Exists(s.db.runs, cfg.run) && s.trace == [] && s.done == []
    requires forall i :: 0 <= i < |turns| ==> LoopSafety.RunsUntouched(turns[i])
    requires u == Loop(cfg, s, turns)
    ensures Exists(u.db.runs, cfg.run)
    ensures FailedOf(u.db.runs, cfg.run)
         == FailedOf(s.db.runs, cfg.run) + Stored(u.trace) + FirstFailures(u.done, s.control.counted)
    ensures u.control.consecutiveFailures == Streak(u.done, s.control.consecutiveFailures)
  {
    StartTallied(cfg, s);
    TallyKept(cfg, s, turns, FailedOf(s.db.runs, cfg.run), s.control);
    assert Tallied(cfg, u, FailedOf(s.db.runs, cfg.run), s.control);
  }

  lemma StartTallied(cfg: Config, s: LoopState)
    requires Exists(s.db.runs, cfg.run) && s.trace == [] && s.done == []
    ensures Tallied(cfg, s, FailedOf(s.db.runs, cfg.run), s.control)
  {
    assert TasksIn([]) == {};
  }

  // ---- When the budget counts consecutive failures ----

  function Failures(done: seq<Note>): nat
  {
    Count(done, (n: Note) => Failing(n.report))
  }

  /** The failures before the last success. */
  function Earlier(done: seq<Note>): nat
  {
    if done == [] then 0
    else if done[|done| - 1].report.ReportCompleted? then Failures(done[..|done| - 1])
    else Earlier(done[..|done| - 1])
  }

  predicate NoRepeats(done: seq<Note>)
  {
    forall i, j :: 0 <= i < j < |done| ==> done[i].task != done[j].task
  }

  lemma {:induction false} StreakAndEarlier(done: seq<Note>)
    ensures Failures(done) == Earlier(done) + Streak(done, 0)
  {
    if done != [] {
      StreakAndEarlier(done[..|done| - 1]);
    }
  }

  /** With room for tasks and time, the verdict on this run's row depends on its failures alone. */
  predicate TooMany(row: Run, limit: int)
  {
    CheckRunBudget(Budget(row.total + 1, 1, limit), row, 0).TooManyFailures?
  }

  /** Whatever the limit, it is reached exactly when there were that many failures in a row. */
  ghost predicate CountsConsecutive(row: Run, streak: nat)
  {
    forall limit :: TooMany(row, limit) <==> streak >= limit
  }

  /** The failures of tasks that had been accounted for before; they do not reach the counter. */
  function Repeated(done: seq<Note>, counted: set<int>): nat
  {
    if done == [] then 0
    else
      var front, last := done[..|done| - 1], done[|done| - 1];
      Repeated(front, counted) + OneIf(Failing(last.report) && last.task in counted + TasksIn(front))
  }

  lemma {:induction false} FirstAndRepeated(done: seq<Note>, counted: set<int>)
    ensures Failures(done) == FirstFailures(done, counted) + Repeated(done, counted)
  {
    if done != [] {
      FirstAndRepeated(done[..|done| - 1], counted);
    }
  }

  /** From a start, whatever the controller has counted before: the limit on "consecutive" failures,
      whatever it is, is reached exactly when there were that many failures in a row, if and only if the
      executions left failed and the failures before the last success are together as many as the
      failures of tasks that had been accounted for before. */
  lemma BudgetAgreesExactly(cfg: Config, s: LoopState, turns: seq<Turn>, u: LoopState)
    requires Exists(s.db.runs, cfg.run) && s.trace == [] && s.done == []
    requires s.db.runs[cfg.run - 1].failed == 0 && s.control.consecutiveFailures == 0
    requires forall i :: 0 <= i < |turns| ==> LoopSafety.RunsUntouched(turns[i])
    requires u == Loop(cfg, s, turns)
    ensures Exists(u.db.runs, cfg.run)
    ensures CountsConsecutive(u.db.runs[cfg.run - 1], u.control.consecutiveFailures)
       <==> Stored(u.trace) + Earlier(u.done) == Repeated(u.done, s.control.counted)
  {
    StartTallied(cfg, s);
    TallyKept(cfg, s, turns, 0, s.control);
    StateAgrees(cfg, u, s.control);
  }

  lemma StateAgrees(cfg: Config, u: LoopState, c: Control)
    requires Tallied(cfg, u, 0, c) && c.consecutiveFailures == 0
    ensures CountsConsecutive(u.db.runs[cfg.run - 1], u.control.consecutiveFailures)
       <==> Stored(u.trace) + Earlier(u.done) == Repeated(u.done, c.counted)
  {
    FirstAndRepeated(u.done, c.counted);
    StreakAndEarlier(u.done);
    LimitsAgree(u.db.runs[cfg.run - 1], Streak(u.done, 0));
  }

  lemma LimitsAgree(row: Run, streak: nat)
    ensures CountsConsecutive(row, streak) <==> row.failed == streak
  {
    assert TooMany(row, row.failed) && !TooMany(row, row.failed + 1);
  }

  // ---- Runs nobody disturbs account for no task twice ----

  /** Nobody else writes; the outside still decides about stops, pauses, faults and outcomes. */
  ghost predicate Undisturbed(t: Turn)
  {
    && (forall d :: t.before(d) == d && t.during(d) == d)
    && (t.pause.PausedFor? ==> forall d :: t.pause.meanwhile(d) == d)
  }

  /** What has been accounted for is not pending any more, and was accounted for once. */
  predicate OnceOnly(s: LoopState)
  {
    && NoRepeats(s.done)
    && (forall id :: id in TasksIn(s.done) ==> id in s.db.tasks && s.db.tasks[id].status != Pending)
  }

  lemma NewNote(done: seq<Note>, n: Note)
    requires NoRepeats(done) && n.task !in TasksIn(done)
    ensures NoRepeats(done + [n]) && TasksIn(done + [n]) == TasksIn(done) + {n.task}
  {
    NoteTally(done, n, Control(false, None, 0, {}));
    forall i, j | 0 <= i < j < |done + [n]| ensures (done + [n])[i].task != (done + [n])[j].task {
      assert done[i].task in TasksIn(done);
    }
  }

  /** The work on a claimable task leaves it not pending, or was refused; other tasks stay. */
  lemma WorkMovesOn(cfg: Config, s: LoopState, t: Turn, task: int)
    requires t.during(s.db) == s.db && Claimable(s.db, task, t.now)
    ensures var (w, r) := AfterWork(cfg, s, t, task);
            && w.done == s.done && !r.NotClaimed? && task in w.db.tasks
            && (!r.ConsumptionRefused? ==> w.db.tasks[task].status != Pending)
            && (forall id :: id in s.db.tasks && id != task ==> id in w.db.tasks && w.db.tasks[id] == s.db.tasks[id])
            && (r.ConsumptionRefused? ==> w.db.tasks == s.db.tasks)
  {
    LeaseDischarged(s.db, task, cfg.project, cfg.worker, cfg.run, !s.control.consumed, t.outcome, t.now);
  }

  lemma ExecuteOnce(cfg: Config, s: LoopState, t: Turn, task: int)
    requires OnceOnly(s) && (forall d :: t.during(d) == d) && Claimable(s.db, task, t.now)
    ensures OnceOnly(Execute(cfg, s, t, task))
  {
    var v := s.(db := Launched(s.db, cfg.run, task));
    assert v.db.tasks == s.db.tasks && Claimable(v.db, task, t.now);
    if !t.fault.PreparationFails? {
      WorkMovesOn(cfg, v, t, task);
      var (w, r) := AfterWork(cfg, v, t, task);
      SettleOnce(cfg, s, w, task, r, t.now);
    }
  }

  lemma SettleOnce(cfg: Config, s: LoopState, w: LoopState, task: int, r: TaskResult, now: int)
    requires OnceOnly(s) && w.done == s.done && task in s.db.tasks && s.db.tasks[task].status == Pending
    requires task in w.db.tasks
    requires !r.ConsumptionRefused? ==> w.db.tasks[task].status != Pending
    requires forall id :: id in s.db.tasks && id != task ==> id in w.db.tasks && w.db.tasks[id] == s.db.tasks[id]
    ensures OnceOnly(Settle(cfg, w, task, r, now))
  {
    LoopSafety.SettleKeepsTasks(cfg, w, task, r, now);
    if !r.ConsumptionRefused? {
      NewNote(s.done, Note(task, Accounted(r)));
    }
  }

  lemma PassOnce(cfg: Config, s: LoopState, t: Turn)
    requires OnceOnly(s) && Undisturbed(t)
    ensures OnceOnly(Pass(cfg, s, t))
  {
    var a := AtScan(cfg, s, t);
    assert a.db.tasks == s.db.tasks && a.db.leases == s.db.leases;
    if Choices(cfg, a, t.now) != [] {
      LoopSafety.ChosenIsRunnable(cfg, a, t.now);
      ExecuteOnce(cfg, a, t, Choices(cfg, a, t.now)[0]);
    }
    LoopSafety.PassIsScanOrEnd(cfg, s, t);
  }

  lemma {:induction false} UndisturbedOnce(cfg: Config, s: LoopState, turns: seq<Turn>)
    requires OnceOnly(s) && forall i :: 0 <= i < |turns| ==> Undisturbed(turns[i])
    ensures OnceOnly(Loop(cfg, s, turns))
    decreases |turns|
  {
    if turns != [] {
      PassOnce(cfg, s, turns[0]);
      UndisturbedOnce(cfg, Pass(cfg, s, turns[0]), turns[1..]);
    }
  }

  /** Without a task accounted for twice, by a controller that has counted none before, nothing is
      repeated. */
  lemma {:induction false} NoneRepeated(done: seq<Note>)
    requires NoRepeats(done)
    ensures Repeated(done, {}) == 0
  {
    if done != [] {
      var front := done[..|done| - 1];
      assert forall i :: 0 <= i < |front| ==> front[i] == done[i];
      NoneRepeated(front);
    }
  }

  /** So in a run nobody disturbs, on a fresh controller, the limit counts failures in a row if and only
      if no execution was left failed and no failure came before the last success. */
  lemma UndisturbedAgreesExactly(cfg: Config, s: LoopState, turns: seq<Turn>, u: LoopState)
    requires Exists(s.db.runs, cfg.run) && s.trace == [] && s.done == []
    requires s.db.runs[cfg.run - 1].failed == 0 && s.control.consecutiveFailures == 0 && s.control.counted == {}
    requires forall i :: 0 <= i < |turns| ==> Undisturbed(turns[i])
    requires u == Loop(cfg, s, turns)
    ensures Exists(u.db.runs, cfg.run)
    ensures CountsConsecutive(u.db.runs[cfg.run - 1], u.control.consecutiveFailures)
       <==> Stored(u.trace) == 0 && Earlier(u.done) == 0
  {
    UndisturbedOnce(cfg, s, turns);
    NoneRepeated(u.done);
    BudgetAgreesExactly(cfg, s, turns, u);
  }

  // ---- A budget of failures lasts for half as many ----

  /** Left failed by the finalizer and reported as failing: any error that speaks of nothing else. */
  predicate FailsPlainly(o: Outcome)
  {
    TaskStatusOf(ExitOf(o)) == Failed && Failing(ReportOf(o))
  }

  ghost predicate PlainFailure(cfg: Config, t: Turn)
  {
    && (forall d :: t.before(d) == d && t.during(d) == d)
    && !t.stop && t.pause.NotPaused? && t.fault.NoFault? && t.elapsed < cfg.budget.maxRuntime && FailsPlainly(t.outcome)
  }

  /** The task can run now, within the cached scope. */
  predicate ReadyIn(cfg: Config, s: LoopState, id: int)
  {
    && id in s.db.tasks && s.db.tasks[id].project == cfg.project && LoopProgress.Startable(s.db, id)
    && AllSatisfied(s.db.tasks, cfg.project, Dependencies(s.db.tasks[id]))
    && s.control.scope.Some? && id in s.control.scope.value
  }

  /** The loop has a cached scope, tasks to run, and none of the pending tasks was counted before. */
  predicate Supplied(cfg: Config, s: LoopState, ready: set<int>)
  {
    && s.phase.Looping? && LoopSafety.Synced(cfg, s) && ProjectOpen(s.db, cfg.project)
    && s.control.consumed && s.control.scope.Some?
    && (forall id :: id in ready ==> ReadyIn(cfg, s, id))
    && (forall id :: id in s.db.tasks && s.db.tasks[id].status == Pending ==>
          id !in s.control.counted && s.db.tasks[id].prompt != NoPrompt)
  }

  lemma ReadyIsEligible(cfg: Config, s: LoopState, id: int, now: int)
    requires ReadyIn(cfg, s, id) && ProjectOpen(s.db, cfg.project)
    ensures id in LoopSafety.Eligible(cfg, s, now)
  {
  }

  /** The tables after a plain failure: the task is failed, its lease released, nothing else changed
      but executions and the run. */
  lemma FailureOnTables(db: Db, task: int, cfg: Config, o: Outcome, now: int)
    requires Claimable(db, task, now) && FailsPlainly(o) && Exists(db.runs, cfg.run)
    ensures var (d, r) := AfterTask(db, task, cfg.project, cfg.worker, cfg.run, false, o, now);
            && r.Ran? && Failing(r.report) && r.consumed == None
            && d.tasks == db.tasks[task := db.tasks[task].(status := Failed)] && d.projects == db.projects
            && d.leases.Keys == db.leases.Keys + {task} && d.leases[task].status == LeaseReleased
            && (forall id :: id in db.leases && id != task ==> d.leases[id] == db.leases[id])
            && |d.runs| == |db.runs| && FailedOf(d.runs, cfg.run) == FailedOf(db.runs, cfg.run) + 1
            && d.runs[cfg.run - 1].total == db.runs[cfg.run - 1].total
  {
    RanLeaves(db, task, cfg.project, cfg.worker, cfg.run, false, o, now);
  }

  /** What the failure of one task leaves ready. */
  lemma OthersStayReady(cfg: Config, s: LoopState, u: LoopState, task: int, ready: set<int>)
    requires forall id :: id in ready ==> ReadyIn(cfg, s, id)
    requires task in s.db.tasks && s.db.tasks[task].status == Pending && u.control.scope == s.control.scope
    requires u.db.tasks == s.db.tasks[task := s.db.tasks[task].(status := Failed)]
    requires forall id :: id in u.db.leases && id != task ==> id in s.db.leases && u.db.leases[id] == s.db.leases[id]
    ensures forall id :: id in ready - {task} ==> ReadyIn(cfg, u, id)
  {
    forall id | id in ready - {task} ensures ReadyIn(cfg, u, id) {
      var refs := Dependencies(s.db.tasks[id]);
      forall i | 0 <= i < |refs| ensures Satisfied(u.db.tasks, cfg.project, refs[i]) {
        assert Satisfied(s.db.tasks, cfg.project, refs[i]);
        if refs[i].TitleRef? {
          LoopSafety.SameTitles(s.db.tasks, u.db.tasks, cfg.project, refs[i].title);
        }
      }
    }
  }

  lemma FailingWork(cfg: Config, s: LoopState, t: Turn, task: int)
    requires Claimable(s.db, task, t.now) && FailsPlainly(t.outcome) && Exists(s.db.runs, cfg.run)
    requires t.during(s.db) == s.db && s.control.consumed && !Promptless(s.db.tasks, task)
    ensures var (w, r) := AfterWork(cfg, s, t, task);
            && r.Ran? && Failing(r.report) && w.control == s.control && w.phase == s.phase && w.done == s.done
            && w.db.tasks == s.db.tasks[task := s.db.tasks[task].(status := Failed)] && w.db.projects == s.db.projects
            && (forall id :: id in w.db.leases && id != task ==>
                 id in s.db.leases && w.db.leases[id] == s.db.leases[id])
            && |w.db.runs| == |s.db.runs| && FailedOf(w.db.runs, cfg.run) == FailedOf(s.db.runs, cfg.run) + 1
            && w.db.runs[cfg.run - 1].total == s.db.runs[cfg.run - 1].total
            && LoopProgress.Executions(w.trace) == LoopProgress.Executions(s.trace) + 1
  {
    FailureOnTables(s.db, task, cfg, t.outcome, t.now);
    LoopProgress.ChosenIsCounted(cfg, s, t, task);
  }

  lemma FailingSettle(cfg: Config, s: LoopState, task: int, r: TaskResult, now: int)
    requires Exists(s.db.runs, cfg.run) && r.Ran? && Failing(r.report) && task !in s.control.counted
    ensures var u := Settle(cfg, s, task, r, now);
            && u.phase == s.phase && LoopSafety.Synced(cfg, u) && u.trace == s.trace
            && u.db == s.db.(runs := u.db.runs)
            && u.seen.total == s.db.runs[cfg.run - 1].total && u.seen.failed == s.db.runs[cfg.run - 1].failed + 1
            && u.control == s.control.(counted := s.control.counted + {task},
                                       consecutiveFailures := s.control.consecutiveFailures + 1)
  {
  }

  lemma FailingExecution(cfg: Config, s: LoopState, t: Turn, task: int, ready: set<int>)
    requires Supplied(cfg, s, ready) && PlainFailure(cfg, t) && task in RunnableSet(s.db, cfg.project, t.now)
    ensures var u := Execute(cfg, s, t, task);
            && Supplied(cfg, u, ready - {task}) && u.seen.total == s.db.runs[cfg.run - 1].total + 1
            && u.seen.failed == s.db.runs[cfg.run - 1].failed + 2
            && u.control.consecutiveFailures == s.control.consecutiveFailures + 1
            && LoopProgress.Executions(u.trace) == LoopProgress.Executions(s.trace) + 1
  {
    var v := s.(db := Launched(s.db, cfg.run, task));
    LaunchedReady(cfg, s, task, ready, t.now);
    assert t.during(v.db) == v.db;
    FailingWork(cfg, v, t, task);
    var (w, r) := AfterWork(cfg, v, t, task);
    FailingSettle(cfg, w, task, r, t.now);
    StaysSupplied(cfg, s, Settle(cfg, w, task, r, t.now), task, ready);
  }

  lemma LaunchedReady(cfg: Config, s: LoopState, task: int, ready: set<int>, now: int)
    requires Supplied(cfg, s, ready) && task in RunnableSet(s.db, cfg.project, now)
    ensures var d := Launched(s.db, cfg.run, task);
            && d == s.db.(runs := d.runs) && Exists(d.runs, cfg.run)
            && Claimable(d, task, now) && !Promptless(d.tasks, task)
            && task !in s.control.counted && FailedOf(d.runs, cfg.run) == FailedOf(s.db.runs, cfg.run)
            && d.runs[cfg.run - 1].total == s.db.runs[cfg.run - 1].total + 1
  {
    LoopSafety.LaunchKeepsCounters(s.db, cfg.run, task);
    LoopSafety.LaunchCounts(s.db, cfg.run, task);
  }

  lemma StaysSupplied(cfg: Config, s: LoopState, u: LoopState, task: int, ready: set<int>)
    requires Supplied(cfg, s, ready) && u.phase.Looping? && LoopSafety.Synced(cfg, u)
    requires task in s.db.tasks && s.db.tasks[task].status == Pending && u.db.projects == s.db.projects
    requires u.control.consumed && u.control.scope == s.control.scope && u.control.counted == s.control.counted + {task}
    requires u.db.tasks == s.db.tasks[task := s.db.tasks[task].(status := Failed)]
    requires forall id :: id in u.db.leases && id != task ==> id in s.db.leases && u.db.leases[id] == s.db.leases[id]
    ensures Supplied(cfg, u, ready - {task})
  {
    OthersStayReady(cfg, s, u, task, ready);
  }

  lemma FailingPass(cfg: Config, s: LoopState, t: Turn, ready: set<int>) returns (task: int)
    requires Supplied(cfg, s, ready) && PlainFailure(cfg, t) && ready != {}
    requires s.seen.total < cfg.budget.maxTasks && s.seen.failed < cfg.budget.maxFailures
    ensures var u := Pass(cfg, s, t);
            && Supplied(cfg, u, ready - {task}) && u.seen.total == s.seen.total + 1
            && u.seen.failed == s.seen.failed + 2
            && u.control.consecutiveFailures == s.control.consecutiveFailures + 1
            && LoopProgress.Executions(u.trace) == LoopProgress.Executions(s.trace) + 1
  {
    var a := AtScan(cfg, s, t);
    SomeReadyChoice(cfg, s, ready, t.now);
    LoopSafety.QuietPass(cfg, s, t);
    LoopSafety.ScanSyncs(cfg, s, t);
    LoopSafety.ChosenIsRunnable(cfg, a, t.now);
    task := Choices(cfg, a, t.now)[0];
    ReadyStays(cfg, s, a, ready);
    FailingExecution(cfg, a, t, task, ready);
  }

  lemma SomeReadyChoice(cfg: Config, s: LoopState, ready: set<int>, now: int)
    requires ready != {} && ProjectOpen(s.db, cfg.project) && forall id :: id in ready ==> ReadyIn(cfg, s, id)
    ensures Choices(cfg, s, now) != []
  {
    EmptyOrNot(ready);
    var id :| id in ready;
    ReadyIsEligible(cfg, s, id, now);
    LoopSafety.ChoicesExact(cfg, s, now);
  }

  lemma ReadyStays(cfg: Config, s: LoopState, a: LoopState, ready: set<int>)
    requires Supplied(cfg, s, ready) && a == s.(db := s.db.(runs := a.db.runs)) && LoopSafety.Synced(cfg, a)
    ensures Supplied(cfg, a, ready)
  {
  }

  lemma TooManyPauses(cfg: Config, s: LoopState, t: Turn)
    requires PlainFailure(cfg, t) && s.phase.Looping?
    requires s.seen.total < cfg.budget.maxTasks && s.seen.failed >= cfg.budget.maxFailures
    ensures var u := Pass(cfg, s, t);
            u.phase == Ended(Paused, "budget_exceeded") && u.trace == s.trace && u.control == s.control
  {
  }

  /** The executions until the failure budget is used up, two at a time. */
  function Needed(cfg: Config, s: LoopState): nat
  {
    if s.seen.failed >= cfg.budget.maxFailures then 0 else (cfg.budget.maxFailures - s.seen.failed + 1) / 2
  }

  /** With enough tasks ready, a run whose executions all fail plainly is paused for its failures after
      half as many as max_consecutive_failures allows. */
  lemma {:induction false} HalfTheFailures(cfg: Config, s: LoopState, turns: seq<Turn>, ready: set<int>)
    requires Supplied(cfg, s, ready) && forall i :: 0 <= i < |turns| ==> PlainFailure(cfg, turns[i])
    requires Needed(cfg, s) <= |ready| && Needed(cfg, s) < |turns|
    requires s.seen.total + Needed(cfg, s) < cfg.budget.maxTasks
    ensures var u := Loop(cfg, s, turns);
            && u.phase == Ended(Paused, "budget_exceeded")
            && LoopProgress.Executions(u.trace) == LoopProgress.Executions(s.trace) + Needed(cfg, s)
            && u.control.consecutiveFailures == s.control.consecutiveFailures + Needed(cfg, s)
    decreases |turns|
  {
    var u := Pass(cfg, s, turns[0]);
    if s.seen.failed >= cfg.budget.maxFailures {
      TooManyPauses(cfg, s, turns[0]);
      LoopOver(cfg, u, turns[1..]);
    } else {
      var task := FailingPass(cfg, s, turns[0], ready);
      assert |ready - {task}| >= |ready| - 1;
      HalfTheFailures(cfg, u, turns[1..], ready - {task});
    }
  }

  // ---- The default budget at one input ----

  function PlainTask(id: int): Task
  {
    Task(1, "", 0, id, Pending, Ready, [], FilesText(["f"]), PromptText, false, 0)
  }

  /** A run that has consumed an approval of three tasks and has them still before it. */
  function ThreeTasks(): LoopState
  {
    var run := NewRun(1, 0, 0);
    var tasks := map[1 := PlainTask(1), 2 := PlainTask(2), 3 := PlainTask(3)];
    LoopState(Db([], map[], [], [run], [], tasks, map[1 := Project(false)], 1),
              Control(true, Some({1, 2, 3}), 0, {}), run, Looping, [], [])
  }

  /** The default allows five failures in a row; three are enough to end this run. */
  lemma FiveAllowedThreeEnd(cfg: Config, turns: seq<Turn>)
    requires cfg == Config(1, 1, 0, Budget(20, 7200, 5)) && |turns| == 4
    requires forall i :: 0 <= i < |turns| ==> PlainFailure(cfg, turns[i])
    ensures var u := Loop(cfg, ThreeTasks(), turns);
            && u.phase == Ended(Paused, "budget_exceeded") && u.control.consecutiveFailures == 3
            && LoopProgress.Executions(u.trace) == 3
  {
    ThreeAreReady(cfg);
    var ready := {1, 2, 3};
    assert |ready| == 3;
    HalfTheFailures(cfg, ThreeTasks(), turns, ready);
  }

  lemma ThreeAreReady(cfg: Config)
    requires cfg.project == 1 && cfg.run == 1
    ensures Supplied(cfg, ThreeTasks(), {1, 2, 3})
  {
    var s := ThreeTasks();
    forall id | id in {1, 2, 3} ensures ReadyIn(cfg, s, id) {
      assert Dependencies(s.db.tasks[id]) == [];
    }
  }
}
