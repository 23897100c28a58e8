/** The main loop: scan, pick the first runnable task in scope, run it, account for it. */
module LoopController {
  import opened Schema
  import opened Approvals
  import opened Cleanup
  import opened Runs
  import opened TaskScheduler
  import opened TaskWorker

  // ---- Configuration and what the environment contributes ----

  datatype Budget = Budget(maxTasks: int, maxRuntime: int, maxFailures: int)

  datatype Config = Config(project: int, run: int, worker: nat, budget: Budget)

  /** A pause request found at the top of a pass: what others do to the tables until it is over, and
      whether it ends in a stop. */
  datatype Pause = NotPaused | PausedFor(meanwhile: Db -> Db, stopped: bool)

  /** An exception in the loop body, caught by the handler around the whole loop: in the scan, or when
      the commands of the chosen task are prepared. */
  datatype Fault = NoFault | ScanFails | PreparationFails

  /** One pass of the loop as the outside world shapes it: the time, the running time so far, stop and
      pause requests, an exception, how the execution turns out, and what other processes do to the
      tables before the pass and between the scan and the claim. */
  datatype Turn = Turn(now: int, elapsed: int, stop: bool, pause: Pause, fault: Fault,
                       before: Db -> Db, during: Db -> Db, outcome: Outcome)

  datatype Verdict = WithinBudget | TooManyTasks | TooLong | TooManyFailures

  /** check_run_budget; "consecutive" failures are all failures counted in the run. */
  function CheckRunBudget(b: Budget, run: Run, elapsed: int): (v: Verdict)
    ensures v.WithinBudget? <==> run.total < b.maxTasks && elapsed < b.maxRuntime && run.failed < b.maxFailures
    ensures v.TooManyTasks? <==> run.total >= b.maxTasks
    ensures v.TooManyFailures? ==> run.failed >= b.maxFailures && elapsed < b.maxRuntime
  {
    if run.total >= b.maxTasks then TooManyTasks
    else if elapsed >= b.maxRuntime then TooLong
    else if run.failed >= b.maxFailures then TooManyFailures
    else WithinBudget
  }

  // ---- State of a loop ----

  /** What the loop announces through its callbacks: a consumption and the execution of a task, with
      the status the task was left in. */
  datatype Event =
    | ConsumedApproval(task: int, allowed: seq<int>)
    | Executed(task: int, execution: int, status: TaskStatus)

  /** What on_task_done is told: the task and the status it is accounted under. */
  datatype Note = Note(task: int, report: Report)

  datatype Phase = Looping | Ended(status: RunStatus, reason: string) | RunVanished

  /** The controller's fields: has an approval been consumed in this run, and the scope cached then. */
  datatype Control = Control(consumed: bool, scope: Option<set<int>>, consecutiveFailures: nat, counted: set<int>)

  datatype LoopState = LoopState(db: Db, control: Control, seen: Run, phase: Phase, trace: seq<Event>, done: seq<Note>)

  // ---- Scope ----

  function Keep(list: seq<int>, scope: set<int>): (r: seq<int>)
    ensures forall x :: x in r <==> x in list && x in scope
  {
    if list == [] then []
    else if list[0] in scope then [list[0]] + Keep(list[1..], scope) else Keep(list[1..], scope)
  }

  function SetOf(ids: seq<int>): (s: set<int>)
    ensures forall x :: x in s <==> x in ids
  {
    set x | x in ids
  }

  /** _filter_by_approval_scope: the cached scope if there is one, else the live approval's; with no
      live approval everything passes. */
  function FilterByScope(scope: Option<set<int>>, approvals: seq<Approval>, project: int, list: seq<int>,
                         now: int): (r: seq<int>)
    ensures forall x :: x in r ==> x in list && (scope.Some? ==> x in scope.value)
  {
    if list == [] then []
    else if scope.Some? then Keep(list, scope.value)
    else
      match LatestValid(approvals, project, now)
      case None => list
      case Some(i) => Keep(list, SetOf(approvals[i].allowed))
  }

  /** The scope cached after a consumption for this task. */
  function CachedScope(task: int, allowed: seq<int>): set<int>
  {
    if allowed == [] then {task} else SetOf(allowed)
  }

  // ---- Pieces of one pass, on the tables ----

  function StatusPatch(status: RunStatus): Patch { Patch(Some(status), None, None, None, true) }

  function FinalPatch(status: RunStatus, reason: string, now: int): Patch
  {
    Patch(Some(status), None, if reason == "" then None else Some(reason), Some(now), false)
  }

  function WithStatus(db: Db, run: int, p: Patch): Db
  {
    db.(runs := UpdatedRuns(db.runs, run, p, PatchRefsOk(db.tasks, p)))
  }

  function CountTask(runs: seq<Run>, run: int): (r: seq<Run>)
    ensures |r| == |runs|
  {
    if Exists(runs, run) then runs[run - 1 := runs[run - 1].(total := runs[run - 1].total + 1)] else runs
  }

  /** The status updates and the count before a task is executed. */
  function Launched(db: Db, run: int, task: int): Db
  {
    var claiming := WithStatus(db, run, StatusPatch(Claiming));
    var executing := WithStatus(claiming, run, StatusPatch(Executing).(currentTask := Some(task)));
    executing.(runs := CountTask(executing.runs, run))
  }

  /** The status under which a result is accounted for; a task that was not started or not claimed
      counts as failed. */
  function Accounted(r: TaskResult): Report
    requires !r.ConsumptionRefused?
  {
    if r.NotClaimed? || r.NeverStarted? then ReportFailed else r.report
  }

  function AccountRun(row: Run, r: Report, counted: bool): Run
  {
    if counted then row
    else match r
      case ReportCompleted => row.(completed := row.completed + 1)
      case ReportBlocked => row.(blocked := row.blocked + 1)
      case _ => row.(failed := row.failed + 1)
  }

  /** _handle_task_result on the run's row: each task counts once, then a heartbeat. */
  function AccountRuns(runs: seq<Run>, run: int, r: Report, counted: bool, now: int): (s: seq<Run>)
    ensures |s| == |runs|
  {
    if Exists(runs, run) then
      runs[run - 1 := AccountRun(runs[run - 1], r, counted).(heartbeat := Some(now))]
    else runs
  }

  /** A consumption is remembered, with its scope, only when the worker reports it. */
  function Remember(c: Control, task: int, r: TaskResult): Control
  {
    if r.Ran? && r.consumed.Some? then c.(consumed := true, scope := Some(CachedScope(task, r.consumed.value))) else c
  }

  function AccountControl(c: Control, task: int, report: Report): Control
  {
    c.(counted := c.counted + {task},
       consecutiveFailures := match report
         case ReportCompleted => 0
         case ReportBlocked => c.consecutiveFailures
         case _ => c.consecutiveFailures + 1)
  }

  /** _handle_no_runnable */
  function QueueVerdict(tasks: map<int, Task>, project: int): (RunStatus, string)
  {
    if forall id :: id in tasks ==> tasks[id].project != project then (RunCompleted, "no_tasks")
    else if forall id :: id in tasks && tasks[id].project == project ==> tasks[id].status == Completed
    then (RunCompleted, "all_completed")
    else (RunBlocked, "blocked_no_runnable_tasks")
  }

  // ---- One pass ----

  function End(s: LoopState, db: Db, run: int, status: RunStatus, reason: string, now: int): LoopState
  {
    s.(db := WithStatus(db, run, FinalPatch(status, reason, now)), phase := Ended(status, reason))
  }

  /** The exception handler around the loop; it stores no reason. */
  function Crashed(cfg: Config, s: LoopState, now: int): LoopState
  {
    End(s, WithStatus(s.db, cfg.run, StatusPatch(RunFailed)), cfg.run, RunFailed, "", now)
  }

  /** What the pass announces: the consumption, if it made one, and the execution. */
  function Announcement(offered: Db, consumed: bool, cfg: Config, t: Turn, task: int): seq<Event>
  {
    var r := AfterTask(offered, task, cfg.project, cfg.worker, cfg.run, !consumed, t.outcome, t.now).1;
    if !r.Ran? then []
    else
      var executed := [Executed(task, r.execution, TaskStatusOf(ExitOf(t.outcome)))];
      if consumed then executed
      else
        var v := ConsumeVerdict(offered.approvals, cfg.project, Some(task), t.now);
        [ConsumedApproval(task, if v.Taken? then v.allowed else [])] + executed
  }

  /** A task as scanned that carries no prompt: composing its prompt raises, because a scanned task
      has no description to fall back on. */
  predicate Promptless(tasks: map<int, Task>, task: int)
  {
    task in tasks && tasks[task].prompt == NoPrompt
  }

  /** What the exception handler of _execute_task leaves: the task is finalized under no execution, as
      if its worker had been lost. */
  function GivenUp(offered: Db, cfg: Config, task: int, now: int): Db
  {
    Finalized(offered, 0, task, WorkerLost, [], [], cfg.worker, Some(cfg.run), now)
  }

  /** The tables and the controller's fields after the launched task was run. */
  function AfterWork(cfg: Config, s: LoopState, t: Turn, task: int): (LoopState, TaskResult)
  {
    var offered := t.during(s.db);
    if Promptless(s.db.tasks, task) then (s.(db := GivenUp(offered, cfg, task, t.now)), NeverStarted)
    else
      var consume := !s.control.consumed;
      var (worked, r) := AfterTask(offered, task, cfg.project, cfg.worker, cfg.run, consume, t.outcome, t.now);
      (s.(db := worked, control := Remember(s.control, task, r),
          trace := s.trace + Announcement(offered, s.control.consumed, cfg, t, task)), r)
  }

  /** A refused consumption ends the run; any other result is accounted for and the run read again. */
  function Settle(cfg: Config, s: LoopState, task: int, r: TaskResult, now: int): LoopState
  {
    if r.ConsumptionRefused? then
      var blocked := WithStatus(s.db, cfg.run, StatusPatch(RunBlocked));
      End(s, blocked, cfg.run, RunBlocked, "approval_consumption_failed", now)
    else
      var runs := AccountRuns(s.db.runs, cfg.run, Accounted(r), task in s.control.counted, now);
      var next := s.(db := s.db.(runs := runs), control := AccountControl(s.control, task, Accounted(r)),
                     done := s.done + [Note(task, Accounted(r))]);
      if Exists(runs, cfg.run) then next.(seen := runs[cfg.run - 1]) else next.(phase := RunVanished)
  }

  function Execute(cfg: Config, s: LoopState, t: Turn, task: int): LoopState
  {
    var launched := s.(db := Launched(s.db, cfg.run, task));
    if t.fault.PreparationFails? then Crashed(cfg, launched, t.now)
    else
      var (worked, r) := AfterWork(cfg, launched, t, task);
      Settle(cfg, worked, task, r, t.now)
  }

  function Choices(cfg: Config, s: LoopState, now: int): seq<int>
  {
    FilterByScope(s.control.scope, s.db.approvals, cfg.project, RunnableList(s.db, cfg.project, now), now)
  }

  /** The part of a pass from the scan on. */
  function ScanPass(cfg: Config, s: LoopState, t: Turn): LoopState
  {
    if t.fault.ScanFails? then Crashed(cfg, s, t.now)
    else
      var choices := Choices(cfg, s, t.now);
      if choices == [] then
        var (status, reason) := QueueVerdict(s.db.tasks, cfg.project);
        End(s, s.db, cfg.run, status, reason, t.now)
      else Execute(cfg, s, t, choices[0])
  }

  /** The end of a pause: the run was shown as paused, others acted, the heartbeat went on. */
  function Waited(cfg: Config, db: Db, t: Turn): Db
  {
    if t.pause.NotPaused? then db
    else
      var d := t.pause.meanwhile(WithStatus(db, cfg.run, StatusPatch(Paused)));
      d.(runs := Beaten(d.runs, cfg.run, t.now))
  }

  /** After a pause the run scans again. */
  function AfterPause(cfg: Config, db: Db, t: Turn): Db
  {
    if t.pause.NotPaused? then db else WithStatus(Waited(cfg, db, t), cfg.run, StatusPatch(Scanning))
  }

  /** The state in which a pass scans: others have acted, a pause is over, heartbeat and status are set. */
  function AtScan(cfg: Config, s: LoopState, t: Turn): LoopState
  {
    var db := AfterPause(cfg, t.before(s.db), t);
    s.(db := WithStatus(db.(runs := Beaten(db.runs, cfg.run, t.now)), cfg.run, StatusPatch(Scanning)))
  }

  function Pass(cfg: Config, s: LoopState, t: Turn): LoopState
  {
    if !s.phase.Looping? then s
    else
      var db := t.before(s.db);
      if t.stop then
        End(s, WithStatus(db, cfg.run, StatusPatch(RunCompleted)), cfg.run, RunCompleted, "stopped_by_user", t.now)
      else if t.pause.PausedFor? && t.pause.stopped then
        End(s, WithStatus(Waited(cfg, db, t), cfg.run, StatusPatch(RunCompleted)), cfg.run, RunCompleted,
            "stopped_by_user", t.now)
      else
        var resumed := AfterPause(cfg, db, t);
        var beaten := resumed.(runs := Beaten(resumed.runs, cfg.run, t.now));
        if CheckRunBudget(cfg.budget, s.seen, t.elapsed) != WithinBudget then
          End(s, WithStatus(beaten, cfg.run, StatusPatch(Paused)), cfg.run, Paused, "budget_exceeded", t.now)
        else ScanPass(cfg, AtScan(cfg, s, t), t)
  }

  /** The loop observed for a number of turns; a loop that has ended stays as it is. */
  function Loop(cfg: Config, s: LoopState, turns: seq<Turn>): LoopState
    decreases |turns|
  {
    if turns == [] then s else Loop(cfg, Pass(cfg, s, turns[0]), turns[1..])
  }

  /** The run enters its scanning phase before the first pass. */
  function Begun(cfg: Config, s: LoopState): LoopState
  {
    s.(db := WithStatus(s.db, cfg.run, StatusPatch(Scanning)))
  }

  datatype StartResult = AlreadyRunning(run: int) | Started(run: int) | NotStarted

  // ---- The controller ----

  class Controller {
    const db: Database
    var approvalConsumed: bool
    var approvalTaskScope: Option<set<int>>
    var consecutiveFailures: nat
    var countedTaskIds: set<int>
    var trace: seq<Event>
    var done: seq<Note>

    constructor (db: Database)
      ensures this.db == db
      ensures Fields() == Control(false, None, 0, {}) && trace == [] && done == []
    {
      this.db := db;
      approvalConsumed, approvalTaskScope, consecutiveFailures, countedTaskIds := false, None, 0, {};
      trace, done := [], [];
    }

    /** start: a live run of the project is reported as it is; otherwise a run is created. The approval
        tracking and the failure count start afresh, the set of counted tasks does not. */
    method Start(project: int, now: int) returns (r: StartResult)
      modifies this`approvalConsumed, this`approvalTaskScope, this`consecutiveFailures, this`trace, this`done
      modifies db`runs, db`supply
      ensures r.AlreadyRunning? <==> HasLive(old(db.runs), project)
      ensures r.AlreadyRunning? ==> Exists(db.runs, r.run) && LiveFor(db.runs[r.run - 1], project)
      ensures r.Started? <==> !HasLive(old(db.runs), project) && project in db.projects
      ensures r.Started? ==>
                && r.run == |old(db.runs)| + 1 && db.runs == old(db.runs) + [NewRun(project, old(db.supply), now)]
                && Fields() == Control(false, None, 0, old(countedTaskIds)) && trace == [] && done == []
      ensures !r.Started? ==> db.State() == old(db.State()) && Fields() == old(Fields())
      ensures !r.Started? ==> trace == old(trace) && done == old(done)
    {
      var active := GetActiveRun(db, project);
      if active.Some? {
        return AlreadyRunning(active.value);
      }
      var created := CreateStartingRun(db, project, now);
      if created.None? {
        return NotStarted;
      }
      approvalConsumed, approvalTaskScope, consecutiveFailures, trace, done := false, None, 0, [], [];
      return Started(created.value);
    }

    function Fields(): Control
      reads this
    {
      Control(approvalConsumed, approvalTaskScope, consecutiveFailures, countedTaskIds)
    }

    function View(seen: Run, phase: Phase): LoopState
      reads this, db
    {
      LoopState(db.State(), Fields(), seen, phase, trace, done)
    }

    /** _filter_by_approval_scope */
    method FilterByApprovalScope(cfg: Config, list: seq<int>, now: int) returns (kept: seq<int>)
      ensures kept == FilterByScope(approvalTaskScope, db.approvals, cfg.project, list, now)
    {
      if list == [] {
        return [];
      }
      var allowed: set<int>;
      if approvalTaskScope.Some? {
        allowed := approvalTaskScope.value;
      } else {
        var i := LatestValid(db.approvals, cfg.project, now);
        if i == None {
          return list;
        }
        allowed := SetOf(db.approvals[i.value].allowed);
      }
      kept := KeepInScope(list, allowed);
    }

    method KeepInScope(list: seq<int>, allowed: set<int>) returns (kept: seq<int>)
      ensures kept == Keep(list, allowed)
    {
      kept := [];
      for i := 0 to |list|
        invariant kept + Keep(list[i..], allowed) == Keep(list, allowed)
      {
        if list[i] in allowed {
          kept := kept + [list[i]];
        }
        assert list[i..][1..] == list[i + 1..];
      }
      assert list[|list|..] == [];
    }

    /** update_status with a terminal status, then finalize_run */
    method Finish(cfg: Config, status: RunStatus, reason: string, now: int)
      modifies db`runs
      ensures db.State() == WithStatus(old(db.State()), cfg.run, FinalPatch(status, reason, now))
    {
      var _ := UpdateStatus(db, cfg.run, FinalPatch(status, reason, now));
    }

    /** _handle_no_runnable: the counts it takes, and the verdict they lead to. */
    method JudgeQueue(project: int) returns (status: RunStatus, reason: string)
      ensures (status, reason) == QueueVerdict(db.tasks, project)
    {
      var total := set id | id in db.tasks && db.tasks[id].project == project;
      EmptyOrNot(total);
      if total == {} {
        assert forall id :: id in db.tasks && db.tasks[id].project == project ==> id in total;
        return RunCompleted, "no_tasks";
      }
      var pending := set id | id in total && db.tasks[id].status == Pending;
      var open := set id | id in total && db.tasks[id].status != Completed;
      EmptyOrNot(open);
      if pending == {} {
        if open == {} {
          assert forall id :: id in total && db.tasks[id].status != Completed ==> id in open;
          return RunCompleted, "all_completed";
        }
        return RunBlocked, "blocked_no_runnable_tasks";
      }
      EmptyOrNot(pending);
      return RunBlocked, "blocked_no_runnable_tasks";
    }

    method HandleNoRunnable(cfg: Config, now: int) returns (phase: Phase)
      modifies db`runs
      ensures var (status, reason) := QueueVerdict(db.tasks, cfg.project);
              phase == Ended(status, reason)
              && db.State() == WithStatus(old(db.State()), cfg.run, FinalPatch(status, reason, now))
    {
      var status, reason := JudgeQueue(cfg.project);
      Finish(cfg, status, reason, now);
      return Ended(status, reason);
    }

    /** The notifications before a task is executed and the count of started tasks. */
    method Launch(cfg: Config, task: int)
      modifies db`runs
      ensures db.State() == Launched(old(db.State()), cfg.run, task)
    {
      var _ := UpdateStatus(db, cfg.run, StatusPatch(Claiming));
      var _ := UpdateStatus(db, cfg.run, StatusPatch(Executing).(currentTask := Some(task)));
      db.runs := CountTask(db.runs, cfg.run);
    }

    /** _handle_task_result */
    method HandleTaskResult(cfg: Config, task: int, report: Report, now: int)
      modifies this`consecutiveFailures, this`countedTaskIds, this`done, db`runs
      ensures done == old(done) + [Note(task, report)]
      ensures db.runs == AccountRuns(old(db.runs), cfg.run, report, task in old(countedTaskIds), now)
      ensures Fields() == AccountControl(old(Fields()), task, report)
    {
      var counted := task in countedTaskIds;
      if Exists(db.runs, cfg.run) {
        db.runs := db.runs[cfg.run - 1 := AccountRun(db.runs[cfg.run - 1], report, counted)];
      }
      countedTaskIds := countedTaskIds + {task};
      done := done + [Note(task, report)];
      match report {
        case ReportCompleted => consecutiveFailures := 0;
        case ReportBlocked =>
        case ReportTestFailed => consecutiveFailures := consecutiveFailures + 1;
        case ReportFailed => consecutiveFailures := consecutiveFailures + 1;
      }
      var _ := UpdateHeartbeat(db, cfg.run, now);
    }

    /** _execute_task: the worker, the bookkeeping of a consumed approval, and the handler for the
        exception a task without a prompt raises; other processes act first. */
    method ExecuteTask(cfg: Config, task: int, t: Turn, ghost seen: Run) returns (r: TaskResult)
      modifies this`approvalConsumed, this`approvalTaskScope, this`trace, db
      ensures (View(seen, Looping), r) == AfterWork(cfg, old(View(seen, Looping)), t, task)
    {
      var promptless := Promptless(db.tasks, task);
      Interfere(db, t.during);
      if promptless {
        FinalizeExecution(db, 0, task, WorkerLost, [], [], cfg.worker, Some(cfg.run), t.now);
        return NeverStarted;
      }
      r := RunWorker(cfg, task, t);
    }

    /** The worker's part, on tables as they are, and what is remembered of its consumption. */
    method RunWorker(cfg: Config, task: int, t: Turn) returns (r: TaskResult)
      modifies this`approvalConsumed, this`approvalTaskScope, this`trace, db
      ensures (db.State(), r) == AfterTask(old(db.State()), task, cfg.project, cfg.worker, cfg.run,
                                           !old(approvalConsumed), t.outcome, t.now)
      ensures Fields() == Remember(old(Fields()), task, r)
      ensures trace == old(trace) + Announcement(old(db.State()), old(approvalConsumed), cfg, t, task)
    {
      trace := trace + Announcement(db.State(), approvalConsumed, cfg, t, task);
      r := RunTask(db, task, cfg.project, cfg.worker, cfg.run, !approvalConsumed, t.outcome, t.now);
      if r.Ran? && r.consumed.Some? {
        approvalConsumed := true;
        approvalTaskScope := Some(if r.consumed.value != [] then SetOf(r.consumed.value) else {task});
      }
    }

    method SettleResult(cfg: Config, task: int, r: TaskResult, seen: Run, now: int) returns (newSeen: Run, phase: Phase)
      modifies this`consecutiveFailures, this`countedTaskIds, this`done, db`runs
      ensures View(newSeen, phase) == Settle(cfg, old(View(seen, Looping)), task, r, now)
    {
      if r.ConsumptionRefused? {
        phase := EndWith(cfg, RunBlocked, "approval_consumption_failed", now);
        return seen, phase;
      }
      HandleTaskResult(cfg, task, Accounted(r), now);
      if !Exists(db.runs, cfg.run) {
        return seen, RunVanished;
      }
      return db.runs[cfg.run - 1], Looping;
    }

    method RunFirst(cfg: Config, t: Turn, seen: Run, task: int) returns (newSeen: Run, phase: Phase)
      modifies this, db
      ensures View(newSeen, phase) == Execute(cfg, old(View(seen, Looping)), t, task)
    {
      Launch(cfg, task);
      if t.fault.PreparationFails? {
        phase := EndWith(cfg, RunFailed, "", t.now);
        return seen, phase;
      }
      var r := ExecuteTask(cfg, task, t, seen);
      newSeen, phase := SettleResult(cfg, task, r, seen, t.now);
    }

    /** The part of a pass from the scan on. */
    method ScanAndRun(cfg: Config, t: Turn, seen: Run) returns (newSeen: Run, phase: Phase)
      modifies this, db
      ensures View(newSeen, phase) == ScanPass(cfg, old(View(seen, Looping)), t)
    {
      if t.fault.ScanFails? {
        phase := EndWith(cfg, RunFailed, "", t.now);
        return seen, phase;
      }
      var runnable := FindRunnableTasks(db, cfg.project, t.now);
      var kept := FilterByApprovalScope(cfg, runnable, t.now);
      if kept == [] {
        phase := HandleNoRunnable(cfg, t.now);
        return seen, phase;
      }
      newSeen, phase := RunFirst(cfg, t, seen, kept[0]);
    }

    /** The run is given a last status and finalized with it. */
    method EndWith(cfg: Config, status: RunStatus, reason: string, now: int) returns (phase: Phase)
      modifies db`runs
      ensures phase == Ended(status, reason)
      ensures db.State() == WithStatus(WithStatus(old(db.State()), cfg.run, StatusPatch(status)), cfg.run,
                                       FinalPatch(status, reason, now))
    {
      var _ := UpdateStatus(db, cfg.run, StatusPatch(status));
      Finish(cfg, status, reason, now);
      return Ended(status, reason);
    }

    /** The inner waiting loop of a pause. */
    method WaitPaused(cfg: Config, t: Turn)
      requires t.pause.PausedFor?
      modifies db
      ensures db.State() == Waited(cfg, old(db.State()), t)
    {
      var _ := UpdateStatus(db, cfg.run, StatusPatch(Paused));
      Interfere(db, t.pause.meanwhile);
      var _ := UpdateHeartbeat(db, cfg.run, t.now);
    }

    /** One pass of the while loop. */
    method OnePass(cfg: Config, t: Turn, seen: Run) returns (newSeen: Run, phase: Phase)
      modifies this, db
      ensures View(newSeen, phase) == Pass(cfg, old(View(seen, Looping)), t)
    {
      Interfere(db, t.before);
      if t.stop {
        phase := EndWith(cfg, RunCompleted, "stopped_by_user", t.now);
        return seen, phase;
      }
      if t.pause.PausedFor? {
        WaitPaused(cfg, t);
        if t.pause.stopped {
          phase := EndWith(cfg, RunCompleted, "stopped_by_user", t.now);
          return seen, phase;
        }
        var _ := UpdateStatus(db, cfg.run, StatusPatch(Scanning));
      }
      var _ := UpdateHeartbeat(db, cfg.run, t.now);
      if CheckRunBudget(cfg.budget, seen, t.elapsed) != WithinBudget {
        phase := EndWith(cfg, Paused, "budget_exceeded", t.now);
        return seen, phase;
      }
      var _ := UpdateStatus(db, cfg.run, StatusPatch(Scanning));
      assert View(seen, Looping) == AtScan(cfg, old(View(seen, Looping)), t);
      newSeen, phase := ScanAndRun(cfg, t, seen);
    }

    /** _run_loop */
    method RunLoop(cfg: Config, start: Run, turns: seq<Turn>) returns (seen: Run, phase: Phase)
      modifies this, db
      ensures View(seen, phase) == Loop(cfg, Begun(cfg, old(View(start, Looping))), turns)
    {
      var _ := UpdateStatus(db, cfg.run, StatusPatch(Scanning));
      seen, phase := start, Looping;
      ghost var begun := View(seen, phase);
      var i := 0;
      while i < |turns| && phase.Looping?
        invariant i <= |turns|
        invariant Loop(cfg, begun, turns) == Loop(cfg, View(seen, phase), turns[i..])
      {
        seen, phase := OnePass(cfg, turns[i], seen);
        assert turns[i..][1..] == turns[i + 1..];
        i := i + 1;
      }
      LoopOver(cfg, View(seen, phase), turns[i..]);
    }
  }

  /** A loop that has ended stays as it is. */
  lemma {:induction false} LoopOver(cfg: Config, s: LoopState, turns: seq<Turn>)
    requires turns == [] || !s.phase.Looping?
    ensures Loop(cfg, s, turns) == s
    decreases |turns|
  {
    if turns != [] {
      LoopOver(cfg, s, turns[1..]);
    }
  }
}
