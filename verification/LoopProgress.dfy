/** An undisturbed run of an acyclic, approved project drains it completely, budget permitting. */
module LoopProgress {
  import opened Schema
  import opened Approvals
  import opened Runs
  import opened TaskScheduler
  import opened TaskWorker
  import opened LoopController
  import LoopSafety

  function Unfinished(tasks: map<int, Task>, project: int): set<int>
  {
    set id | id in tasks && tasks[id].project == project && tasks[id].status != Completed
  }

  /** Ready to run as soon as its dependencies are completed. */
  predicate Startable(db: Db, id: int)
    requires id in db.tasks
  {
    var t := db.tasks[id];
    && t.status == Pending && t.readiness == Ready && !t.manual && FilesOf(t) != [] && t.prompt != NoPrompt
    && (id in db.leases ==> db.leases[id].status != LeaseActive)
  }

  /** What a reference points to. */
  function Targets(tasks: map<int, Task>, project: int, ref: DependencyRef): set<int>
  {
    match ref
    case InvalidRef => {}
    case IdRef(id) => {id}
    case TitleRef(title) => TitleMatches(tasks, project, title)
  }

  /** The reference is unambiguous and points to a completed or an unfinished task of the project. */
  predicate Resolved(tasks: map<int, Task>, project: int, ref: DependencyRef)
  {
    && |Targets(tasks, project, ref)| == 1
    && forall id :: id in Targets(tasks, project, ref) ==> IsCompleted(tasks, id) || id in Unfinished(tasks, project)
  }

  /** `rank` witnesses that the unfinished tasks depend on each other without a cycle. */
  ghost predicate Acyclic(tasks: map<int, Task>, project: int, rank: int -> nat)
  {
    forall id, ref, target ::
      (&& id in Unfinished(tasks, project) && ref in Dependencies(tasks[id])
       && target in Targets(tasks, project, ref) && target in Unfinished(tasks, project)) ==> rank(target) < rank(id)
  }

  /** The approval covers the set: the cached scope, or else the live approval. */
  predicate Covered(cfg: Config, s: LoopState, ids: set<int>, now: int)
  {
    if s.control.consumed then s.control.scope.Some? && ids <= s.control.scope.value
    else s.control.scope.None? &&
         var i := LatestValid(s.db.approvals, cfg.project, now);
         i.Some? && ids <= SetOf(s.db.approvals[i.value].allowed)
  }

  /** The open tasks of the project can all be worked off in dependency order. */
  ghost predicate QueueOk(db: Db, project: int, rank: int -> nat)
  {
    && ProjectOpen(db, project)
    && (forall id :: id in Unfinished(db.tasks, project) ==> Startable(db, id))
    && (forall id, ref :: id in Unfinished(db.tasks, project) && ref in Dependencies(db.tasks[id]) ==>
          Resolved(db.tasks, project, ref))
    && Acyclic(db.tasks, project, rank)
  }

  ghost predicate Drainable(cfg: Config, s: LoopState, rank: int -> nat)
  {
    && s.phase.Looping? && LoopSafety.Synced(cfg, s) && s.seen.failed < cfg.budget.maxFailures
    && QueueOk(s.db, cfg.project, rank)
  }

  /** Nobody interferes, nothing stops the loop, and the execution succeeds. */
  ghost predicate Smooth(cfg: Config, t: Turn)
  {
    && (forall d :: t.before(d) == d && t.during(d) == d)
    && !t.stop && t.pause.NotPaused? && t.fault.NoFault? && t.elapsed < cfg.budget.maxRuntime && t.outcome == Succeeds
  }

  // ---- Some task can run ----

  lemma {:induction false} LowestRank(ids: set<int>, rank: int -> nat) returns (low: int)
    requires ids != {}
    ensures low in ids && forall id :: id in ids ==> rank(low) <= rank(id)
    decreases |ids|
  {
    EmptyOrNot(ids);
    low :| low in ids;
    var rest := ids - {low};
    if rest != {} {
      var other := LowestRank(rest, rank);
      assert forall id :: id in ids ==> id == low || id in rest;
      low := if rank(other) < rank(low) then other else low;
    }
  }

  /** An unfinished task of lowest rank has all its dependencies completed. */
  lemma LowestIsRunnable(cfg: Config, s: LoopState, rank: int -> nat, now: int) returns (low: int)
    requires QueueOk(s.db, cfg.project, rank) && Unfinished(s.db.tasks, cfg.project) != {}
    ensures low in RunnableSet(s.db, cfg.project, now)
  {
    var open := Unfinished(s.db.tasks, cfg.project);
    low := LowestRank(open, rank);
    var refs := Dependencies(s.db.tasks[low]);
    forall i | 0 <= i < |refs| ensures Satisfied(s.db.tasks, cfg.project, refs[i]) {
      var ref := refs[i];
      assert ref in refs;
      assert Resolved(s.db.tasks, cfg.project, ref);
      forall target | target in Targets(s.db.tasks, cfg.project, ref) ensures IsCompleted(s.db.tasks, target) {
        assert target in open ==> rank(target) < rank(low);
      }
    }
    assert Startable(s.db, low);
  }

  lemma RunnableIsUnfinished(db: Db, project: int, now: int)
    ensures RunnableSet(db, project, now) <= Unfinished(db.tasks, project)
  {
  }

  lemma SomeChoice(cfg: Config, s: LoopState, rank: int -> nat, now: int)
    requires QueueOk(s.db, cfg.project, rank) && Unfinished(s.db.tasks, cfg.project) != {}
    requires Covered(cfg, s, Unfinished(s.db.tasks, cfg.project), now)
    ensures Choices(cfg, s, now) != []
    ensures Choices(cfg, s, now)[0] in RunnableSet(s.db, cfg.project, now)
  {
    var low := LowestIsRunnable(cfg, s, rank, now);
    RunnableIsUnfinished(s.db, cfg.project, now);
    assert low in RunnableList(s.db, cfg.project, now);
    if s.control.consumed {
      assert low in Keep(RunnableList(s.db, cfg.project, now), s.control.scope.value);
    } else {
      var i := LatestValid(s.db.approvals, cfg.project, now).value;
      assert low in Keep(RunnableList(s.db, cfg.project, now), SetOf(s.db.approvals[i].allowed));
    }
    assert low in Choices(cfg, s, now);
    LoopSafety.ChosenIsRunnable(cfg, s, now);
  }

  lemma NoChoice(cfg: Config, s: LoopState, now: int)
    requires Unfinished(s.db.tasks, cfg.project) == {}
    ensures Choices(cfg, s, now) == []
  {
  }

  // ---- What completing one task does ----

  function Finished(tasks: map<int, Task>, task: int): map<int, Task>
    requires task in tasks
  {
    tasks[task := tasks[task].(status := Completed)]
  }

  lemma FinishingShrinks(tasks: map<int, Task>, project: int, task: int)
    requires task in Unfinished(tasks, project)
    ensures Unfinished(Finished(tasks, task), project) == Unfinished(tasks, project) - {task}
    ensures |Unfinished(Finished(tasks, task), project)| == |Unfinished(tasks, project)| - 1
    ensures forall p, title :: TitleMatches(Finished(tasks, task), p, title) == TitleMatches(tasks, p, title)
  {
  }

  /** The dependencies of the rest stay resolved and acyclic. */
  lemma FinishingKeepsOrder(tasks: map<int, Task>, project: int, task: int, rank: int -> nat)
    requires task in Unfinished(tasks, project) && Acyclic(tasks, project, rank)
    requires forall id, ref :: id in Unfinished(tasks, project) && ref in Dependencies(tasks[id]) ==>
        Resolved(tasks, project, ref)
    ensures var after := Finished(tasks, task);
            && Acyclic(after, project, rank)
            && forall id, ref :: id in Unfinished(after, project) && ref in Dependencies(after[id]) ==>
                 Resolved(after, project, ref)
  {
    var after := Finished(tasks, task);
    FinishingShrinks(tasks, project, task);
    forall ref ensures Targets(after, project, ref) == Targets(tasks, project, ref) {
    }
    forall id, ref | id in Unfinished(after, project) && ref in Dependencies(after[id])
      ensures Resolved(after, project, ref)
    {
      assert id in Unfinished(tasks, project) && Dependencies(after[id]) == Dependencies(tasks[id]);
      assert Resolved(tasks, project, ref);
    }
  }

  /** The tables before and after the execution of one task, apart from runs and approvals. */
  predicate TaskDone(a: Db, b: Db, task: int)
  {
    && task in a.tasks && b.tasks == Finished(a.tasks, task) && b.projects == a.projects
    && b.leases.Keys == a.leases.Keys + {task} && b.leases[task].status == LeaseReleased
    && (forall id :: id in a.leases && id != task ==> b.leases[id] == a.leases[id])
  }

  lemma QueueStaysOk(a: Db, b: Db, project: int, task: int, rank: int -> nat)
    requires QueueOk(a, project, rank) && TaskDone(a, b, task) && task in Unfinished(a.tasks, project)
    ensures QueueOk(b, project, rank)
  {
    FinishingShrinks(a.tasks, project, task);
    FinishingKeepsOrder(a.tasks, project, task, rank);
    forall id | id in Unfinished(b.tasks, project) ensures Startable(b, id) {
      assert id in Unfinished(a.tasks, project) && Startable(a, id);
    }
  }

  function Executions(trace: seq<Event>): nat
  {
    Count(trace, (e: Event) => e.Executed?)
  }

  lemma ExecutionsSnoc(trace: seq<Event>, e: Event)
    ensures Executions(trace + [e]) == Executions(trace) + (if e.Executed? then 1 else 0)
  {
  }

  lemma CountAnnouncement(trace: seq<Event>, more: seq<Event>)
    requires (|more| == 1 && more[0].Executed?) || (|more| == 2 && more[0].ConsumedApproval? && more[1].Executed?)
    ensures Executions(trace + more) == Executions(trace) + 1
  {
    ExecutionsSnoc(trace, more[0]);
    if |more| == 1 {
      assert trace + more == trace + [more[0]];
    } else {
      ExecutionsSnoc(trace + [more[0]], more[1]);
      assert trace + more == trace + [more[0]] + [more[1]];
    }
  }

  /** A consumption asked for now is granted. */
  predicate Grantable(cfg: Config, s: LoopState, task: int, now: int)
  {
    s.control.consumed || ConsumeVerdict(s.db.approvals, cfg.project, Some(task), now).Taken?
  }

  lemma CoveredIsGrantable(cfg: Config, s: LoopState, ids: set<int>, task: int, now: int)
    requires Covered(cfg, s, ids, now) && task in ids
    ensures Grantable(cfg, s, task, now)
    ensures !s.control.consumed ==>
              var v := ConsumeVerdict(s.db.approvals, cfg.project, Some(task), now);
              v.allowed != [] && ids <= SetOf(v.allowed)
  {
  }

  lemma SuccessCompletes(db: Db, task: int, project: int, worker: nat, run: int, consume: bool, now: int)
    requires task in db.tasks && Startable(db, task)
    requires consume ==> ConsumeVerdict(db.approvals, project, Some(task), now).Taken?
    ensures var (d, r) := AfterTask(db, task, project, worker, run, consume, Succeeds, now);
            && TaskDone(db, d, task) && r.Ran? && r.report == ReportCompleted
            && r.consumed
                 == if consume then Some(ConsumeVerdict(db.approvals, project, Some(task), now).allowed) else None
  {
  }

  /** The chosen task is claimed, its approval consumed if need be, and it completes. */
  lemma ChosenCompletes(cfg: Config, s: LoopState, t: Turn, task: int)
    requires Smooth(cfg, t) && task in Unfinished(s.db.tasks, cfg.project) && Startable(s.db, task)
    requires Grantable(cfg, s, task, t.now)
    ensures var (w, r) := AfterWork(cfg, s, t, task);
            && r.Ran? && r.report == ReportCompleted && w.phase == s.phase && TaskDone(s.db, w.db, task)
            && r.consumed == if s.control.consumed then None
                             else Some(ConsumeVerdict(s.db.approvals, cfg.project, Some(task), t.now).allowed)
  {
    assert t.during(s.db) == s.db;
    SuccessCompletes(s.db, task, cfg.project, cfg.worker, cfg.run, !s.control.consumed, t.now);
  }

  lemma ChosenIsCounted(cfg: Config, s: LoopState, t: Turn, task: int)
    requires t.during(s.db) == s.db && AfterWork(cfg, s, t, task).1.Ran?
    ensures Executions(AfterWork(cfg, s, t, task).0.trace) == Executions(s.trace) + 1
  {
    var more := Announcement(s.db, s.control.consumed, cfg, t, task);
    CountAnnouncement(s.trace, more);
  }

  /** Afterwards the scope is cached and still covers the set. */
  lemma ChosenCovers(cfg: Config, s: LoopState, t: Turn, ids: set<int>, task: int)
    requires Covered(cfg, s, ids, t.now) && task in ids
    requires AfterWork(cfg, s, t, task).1.Ran?
    requires AfterWork(cfg, s, t, task).1.consumed
               == if s.control.consumed then None
                  else Some(ConsumeVerdict(s.db.approvals, cfg.project, Some(task), t.now).allowed)
    ensures HasScope(AfterWork(cfg, s, t, task).0.control, ids)
  {
  }

  predicate HasScope(c: Control, ids: set<int>)
  {
    c.consumed && c.scope.Some? && ids <= c.scope.value
  }

  // ---- One smooth pass ----

  /** The execution of a task that can start and is covered, seen from the loop. */
  predicate Advanced(cfg: Config, s: LoopState, u: LoopState, task: int, ids: set<int>)
  {
    && Exists(s.db.runs, cfg.run) && u.phase.Looping? && LoopSafety.Synced(cfg, u) && TaskDone(s.db, u.db, task)
    && u.seen.total == s.db.runs[cfg.run - 1].total + 1 && u.seen.failed == s.db.runs[cfg.run - 1].failed
    && HasScope(u.control, ids) && Executions(u.trace) == Executions(s.trace) + 1
  }

  lemma SmoothWork(cfg: Config, s: LoopState, t: Turn, task: int, ids: set<int>)
    requires Smooth(cfg, t) && task in Unfinished(s.db.tasks, cfg.project) && Startable(s.db, task)
    requires Covered(cfg, s, ids, t.now) && task in ids && Exists(s.db.runs, cfg.run)
    ensures var (w, r) := AfterWork(cfg, s, t, task);
            && r.Ran? && r.report == ReportCompleted && w.phase == s.phase && TaskDone(s.db, w.db, task)
            && HasScope(w.control, ids) && Executions(w.trace) == Executions(s.trace) + 1
            && Exists(w.db.runs, cfg.run) && w.db.runs[cfg.run - 1].total == s.db.runs[cfg.run - 1].total
            && w.db.runs[cfg.run - 1].failed == s.db.runs[cfg.run - 1].failed
  {
    assert t.during(s.db) == s.db;
    CoveredIsGrantable(cfg, s, ids, task, t.now);
    ChosenCompletes(cfg, s, t, task);
    ChosenIsCounted(cfg, s, t, task);
    ChosenCovers(cfg, s, t, ids, task);
    LoopSafety.WorkKeepsTotal(cfg, s, t, task);
    LoopSafety.WorkCounts(cfg, s, t, task);
  }

  lemma SmoothSettle(cfg: Config, s: LoopState, task: int, r: TaskResult, now: int)
    requires Exists(s.db.runs, cfg.run) && r.Ran? && r.report == ReportCompleted
    ensures var u := Settle(cfg, s, task, r, now);
            && u.phase == s.phase && LoopSafety.Synced(cfg, u) && u.db == s.db.(runs := u.db.runs) && u.trace == s.trace
            && u.seen.total == s.db.runs[cfg.run - 1].total && u.seen.failed == s.db.runs[cfg.run - 1].failed
            && u.control.consumed == s.control.consumed && u.control.scope == s.control.scope
  {
  }

  lemma ExecuteCompletes(cfg: Config, s: LoopState, t: Turn, task: int, ids: set<int>)
    requires Smooth(cfg, t) && task in Unfinished(s.db.tasks, cfg.project) && Startable(s.db, task)
    requires Covered(cfg, s, ids, t.now) && task in ids
    requires Exists(s.db.runs, cfg.run) && s.phase.Looping?
    ensures Advanced(cfg, s, Execute(cfg, s, t, task), task, ids)
  {
    var v := s.(db := Launched(s.db, cfg.run, task));
    LaunchIsQuiet(cfg, s, task, ids, t.now);
    SmoothWork(cfg, v, t, task, ids);
    var (w, r) := AfterWork(cfg, v, t, task);
    SmoothSettle(cfg, w, task, r, t.now);
    DoneThrough(s.db, v.db, w.db, Settle(cfg, w, task, r, t.now).db, task);
  }

  lemma LaunchIsQuiet(cfg: Config, s: LoopState, task: int, ids: set<int>, now: int)
    requires task in Unfinished(s.db.tasks, cfg.project) && Startable(s.db, task) && Exists(s.db.runs, cfg.run)
    requires Covered(cfg, s, ids, now)
    ensures var v := s.(db := Launched(s.db, cfg.run, task));
            && v.db == s.db.(runs := v.db.runs) && Exists(v.db.runs, cfg.run) && Startable(v.db, task)
            && Covered(cfg, v, ids, now) && v.db.runs[cfg.run - 1].total == s.db.runs[cfg.run - 1].total + 1
            && v.db.runs[cfg.run - 1].failed == s.db.runs[cfg.run - 1].failed
  {
    LoopSafety.LaunchCounts(s.db, cfg.run, task);
    LaunchKeepsFailures(s.db, cfg.run, task);
  }

  /** Changes to runs before and after a task is done do not matter to it. */
  lemma DoneThrough(a: Db, b: Db, c: Db, d: Db, task: int)
    requires b == a.(runs := b.runs) && d == c.(runs := d.runs) && TaskDone(b, c, task)
    ensures TaskDone(a, d, task)
  {
  }

  /** A smooth pass over a drainable queue executes an unfinished task. */
  lemma PassChooses(cfg: Config, s: LoopState, t: Turn, rank: int -> nat) returns (task: int)
    requires Drainable(cfg, s, rank) && Smooth(cfg, t) && s.seen.total < cfg.budget.maxTasks
    requires Unfinished(s.db.tasks, cfg.project) != {} && Covered(cfg, s, Unfinished(s.db.tasks, cfg.project), t.now)
    ensures task in Unfinished(s.db.tasks, cfg.project) && Startable(s.db, task)
    ensures Pass(cfg, s, t) == Execute(cfg, AtScan(cfg, s, t), t, task)
  {
    var a := AtScan(cfg, s, t);
    ScanKeeps(cfg, s, t);
    SomeChoice(cfg, a, rank, t.now);
    RunnableIsUnfinished(a.db, cfg.project, t.now);
    task := Choices(cfg, a, t.now)[0];
  }

  /** One smooth pass completes one task and leaves the rest drainable. */
  lemma PassCompletesOne(cfg: Config, s: LoopState, t: Turn, rank: int -> nat) returns (task: int)
    requires Drainable(cfg, s, rank) && Smooth(cfg, t) && s.seen.total < cfg.budget.maxTasks
    requires Unfinished(s.db.tasks, cfg.project) != {} && Covered(cfg, s, Unfinished(s.db.tasks, cfg.project), t.now)
    ensures var u := Pass(cfg, s, t);
            && Drainable(cfg, u, rank) && u.seen.total == s.seen.total + 1
            && task in Unfinished(s.db.tasks, cfg.project) && u.db.tasks == Finished(s.db.tasks, task)
            && HasScope(u.control, Unfinished(s.db.tasks, cfg.project))
            && Executions(u.trace) == Executions(s.trace) + 1
  {
    task := PassChooses(cfg, s, t, rank);
    var a := AtScan(cfg, s, t);
    ScanKeeps(cfg, s, t);
    ExecuteCompletes(cfg, a, t, task, Unfinished(s.db.tasks, cfg.project));
    QueueStaysOk(a.db, Pass(cfg, s, t).db, cfg.project, task, rank);
  }

  lemma ScanKeeps(cfg: Config, s: LoopState, t: Turn)
    requires s.phase.Looping? && LoopSafety.Synced(cfg, s) && Smooth(cfg, t)
    requires s.seen.failed < cfg.budget.maxFailures && s.seen.total < cfg.budget.maxTasks
    ensures var a := AtScan(cfg, s, t);
            && a == s.(db := s.db.(runs := a.db.runs)) && |a.db.runs| == |s.db.runs|
            && a.db.runs[cfg.run - 1].total == s.seen.total && a.db.runs[cfg.run - 1].failed == s.seen.failed
            && Pass(cfg, s, t) == ScanPass(cfg, a, t)
  {
  }

  lemma LaunchKeepsFailures(db: Db, run: int, task: int)
    requires Exists(db.runs, run)
    ensures var d := Launched(db, run, task);
            d == db.(runs := d.runs) && |d.runs| == |db.runs| && d.runs[run - 1].failed == db.runs[run - 1].failed
  {
  }

  // ---- The whole run ----

  /** The part of the budget that is left. */
  function Room(cfg: Config, s: LoopState): nat
  {
    if s.seen.total < cfg.budget.maxTasks then cfg.budget.maxTasks - s.seen.total else 0
  }

  ghost predicate Inhabited(tasks: map<int, Task>, project: int)
  {
    exists id :: id in tasks && tasks[id].project == project
  }

  lemma UnfinishedIsNotCompleted(tasks: map<int, Task>, project: int)
    ensures forall id :: (id in tasks && tasks[id].project == project && tasks[id].status != Completed)
                         ==> id in Unfinished(tasks, project)
  {
  }

  lemma EmptyQueueCompletes(cfg: Config, s: LoopState, t: Turn)
    requires s.phase.Looping? && LoopSafety.Synced(cfg, s) && Smooth(cfg, t)
    requires s.seen.failed < cfg.budget.maxFailures && s.seen.total < cfg.budget.maxTasks
    requires Unfinished(s.db.tasks, cfg.project) == {} && Inhabited(s.db.tasks, cfg.project)
    ensures Pass(cfg, s, t).phase == Ended(RunCompleted, "all_completed")
    ensures Pass(cfg, s, t).trace == s.trace && Pass(cfg, s, t).db.tasks == s.db.tasks
  {
    ScanKeeps(cfg, s, t);
    NoChoice(cfg, AtScan(cfg, s, t), t.now);
    UnfinishedIsNotCompleted(s.db.tasks, cfg.project);
  }

  /** A scan that finds nothing eligible ends the run: completed exactly when no task of the project is
      unfinished, else blocked. */
  lemma NothingEligibleEnds(cfg: Config, s: LoopState, t: Turn)
    requires LoopSafety.Eligible(cfg, s, t.now) == {} && !t.fault.ScanFails?
    ensures var u, open := ScanPass(cfg, s, t), Unfinished(s.db.tasks, cfg.project);
            && u.trace == s.trace && u.db.tasks == s.db.tasks
            && (open != {} ==> u.phase == Ended(RunBlocked, "blocked_no_runnable_tasks"))
            && (open == {} ==> u.phase == Ended(RunCompleted, if Inhabited(s.db.tasks, cfg.project)
                                                              then "all_completed" else "no_tasks"))
  {
    LoopSafety.ChoicesExact(cfg, s, t.now);
    var open := Unfinished(s.db.tasks, cfg.project);
    EmptyOrNot(open);
    UnfinishedIsNotCompleted(s.db.tasks, cfg.project);
  }

  lemma NoRoomPauses(cfg: Config, s: LoopState, t: Turn)
    requires s.phase.Looping? && Smooth(cfg, t) && s.seen.total >= cfg.budget.maxTasks
    ensures Pass(cfg, s, t).phase == Ended(Paused, "budget_exceeded")
    ensures Pass(cfg, s, t).trace == s.trace && Pass(cfg, s, t).db.tasks == s.db.tasks
  {
  }

  lemma FinishingInhabits(tasks: map<int, Task>, project: int, task: int)
    requires task in tasks && tasks[task].project == project
    ensures Inhabited(Finished(tasks, task), project)
  {
    assert Finished(tasks, task)[task].project == project;
  }

  /** A smooth pass makes queue and budget smaller by one. */
  lemma PassDrains(cfg: Config, s: LoopState, t: Turn, rank: int -> nat)
    requires Drainable(cfg, s, rank) && Smooth(cfg, t) && s.seen.total < cfg.budget.maxTasks
    requires Unfinished(s.db.tasks, cfg.project) != {} && Covered(cfg, s, Unfinished(s.db.tasks, cfg.project), t.now)
    ensures var u := Pass(cfg, s, t);
            && Drainable(cfg, u, rank) && Inhabited(u.db.tasks, cfg.project) && Room(cfg, u) == Room(cfg, s) - 1
            && |Unfinished(u.db.tasks, cfg.project)| == |Unfinished(s.db.tasks, cfg.project)| - 1
            && HasScope(u.control, Unfinished(u.db.tasks, cfg.project))
            && Executions(u.trace) == Executions(s.trace) + 1
  {
    var task := PassCompletesOne(cfg, s, t, rank);
    QueueShrinks(cfg, s, Pass(cfg, s, t), task);
  }

  lemma QueueShrinks(cfg: Config, s: LoopState, u: LoopState, task: int)
    requires task in Unfinished(s.db.tasks, cfg.project) && u.db.tasks == Finished(s.db.tasks, task)
    requires s.seen.total < cfg.budget.maxTasks && u.seen.total == s.seen.total + 1
    ensures Inhabited(u.db.tasks, cfg.project) && Room(cfg, u) == Room(cfg, s) - 1
    ensures Unfinished(u.db.tasks, cfg.project) <= Unfinished(s.db.tasks, cfg.project)
    ensures |Unfinished(u.db.tasks, cfg.project)| == |Unfinished(s.db.tasks, cfg.project)| - 1
  {
    FinishingShrinks(s.db.tasks, cfg.project, task);
    FinishingInhabits(s.db.tasks, cfg.project, task);
  }

  /** Progress and termination. With n unfinished tasks and room for m more in the budget, an
      undisturbed run of successes ends after min(n, m) executions and one more pass: completed,
      with every task completed, exactly when n < m; paused for its budget otherwise. */
  lemma {:induction false} Drains(cfg: Config, s: LoopState, turns: seq<Turn>, rank: int -> nat)
    requires Drainable(cfg, s, rank) && Inhabited(s.db.tasks, cfg.project)
    requires forall i :: 0 <= i < |turns| ==> Smooth(cfg, turns[i])
    requires |turns| > |Unfinished(s.db.tasks, cfg.project)| || |turns| > Room(cfg, s)
    requires Unfinished(s.db.tasks, cfg.project) != {} ==>
        Covered(cfg, s, Unfinished(s.db.tasks, cfg.project), turns[0].now)
    ensures var u, n, m := Loop(cfg, s, turns), |Unfinished(s.db.tasks, cfg.project)|, Room(cfg, s);
            if n < m then
              && u.phase == Ended(RunCompleted, "all_completed") && Executions(u.trace) == Executions(s.trace) + n
              && Unfinished(u.db.tasks, cfg.project) == {}
            else
              && u.phase == Ended(Paused, "budget_exceeded") && Executions(u.trace) == Executions(s.trace) + m
              && |Unfinished(u.db.tasks, cfg.project)| == n - m
    decreases |turns|
  {
    var u := Pass(cfg, s, turns[0]);
    if s.seen.total >= cfg.budget.maxTasks {
      NoRoomPauses(cfg, s, turns[0]);
      LoopOver(cfg, u, turns[1..]);
    } else if Unfinished(s.db.tasks, cfg.project) == {} {
      EmptyQueueCompletes(cfg, s, turns[0]);
      LoopOver(cfg, u, turns[1..]);
    } else {
      PassDrains(cfg, s, turns[0], rank);
      Drains(cfg, u, turns[1..], rank);
    }
  }

  lemma BegunKeeps(cfg: Config, s: LoopState)
    ensures var b := Begun(cfg, s);
            && b == s.(db := s.db.(runs := b.db.runs)) && (LoopSafety.Synced(cfg, s) ==> LoopSafety.Synced(cfg, b))
  {
  }

  /** A run just started on an open, acyclic project, one live approval of which covers the n
      unfinished tasks, n within the budget: after n successes and one more pass it is completed with
      "all_completed"; it made exactly n executions, one of each unfinished task, in an order that
      respects the dependencies. */
  lemma FreshRunDrains(cfg: Config, s: LoopState, turns: seq<Turn>, rank: int -> nat)
    requires LoopSafety.JustStarted(s) && Drainable(cfg, s, rank) && s.seen.total == 0
    requires Inhabited(s.db.tasks, cfg.project)
    requires forall i :: 0 <= i < |turns| ==> Smooth(cfg, turns[i])
    requires |Unfinished(s.db.tasks, cfg.project)| < |turns|
    requires |Unfinished(s.db.tasks, cfg.project)| < cfg.budget.maxTasks
    requires Covered(cfg, s, Unfinished(s.db.tasks, cfg.project), turns[0].now)
    ensures var u, open := Loop(cfg, Begun(cfg, s), turns), Unfinished(s.db.tasks, cfg.project);
            && u.phase == Ended(RunCompleted, "all_completed") && Unfinished(u.db.tasks, cfg.project) == {}
            && Executions(u.trace) == |open|
            && (forall id :: id in open ==> LoopSafety.DoneBefore(u.trace, |u.trace|, id))
            && (forall i :: 0 <= i < |u.trace| && u.trace[i].Executed? ==>
                  LoopSafety.DependenciesDischarged(s.db.tasks, u.trace, i))
  {
    var b := Begun(cfg, s);
    BegunKeeps(cfg, s);
    Drains(cfg, b, turns, rank);
    LoopSafety.DependencyOrder(cfg, b, turns);
    AllDone(s.db.tasks, Loop(cfg, b, turns), cfg.project);
  }

  /** With nothing left unfinished, what was unfinished has been executed. */
  lemma AllDone(tasks: map<int, Task>, u: LoopState, project: int)
    requires u.db.tasks.Keys == tasks.Keys && Unfinished(u.db.tasks, project) == {}
    requires forall id :: id in tasks ==> u.db.tasks[id].project == tasks[id].project
    requires forall id :: IsCompleted(u.db.tasks, id) ==> LoopSafety.Done(tasks, u.trace, |u.trace|, id)
    ensures forall id :: id in Unfinished(tasks, project) ==> LoopSafety.DoneBefore(u.trace, |u.trace|, id)
  {
    forall id | id in Unfinished(tasks, project) ensures LoopSafety.DoneBefore(u.trace, |u.trace|, id) {
      assert id !in Unfinished(u.db.tasks, project);
      assert IsCompleted(u.db.tasks, id);
    }
  }
}
