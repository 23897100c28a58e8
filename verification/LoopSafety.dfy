/** What holds over every run of the loop: approval scope, dependency order, an end. */
module LoopSafety {
  import opened Schema
  import opened Leases
  import opened Approvals
  import opened Cleanup
  import opened Runs
  import opened TaskScheduler
  import opened TaskWorker
  import opened LoopController

  // ---- What a pass may choose ----

  /** The cached scope decides; without one the latest valid approval; without that, everything is in. */
  predicate InScope(cfg: Config, s: LoopState, id: int, now: int)
  {
    if s.control.scope.Some? then id in s.control.scope.value
    else
      match LatestValid(s.db.approvals, cfg.project, now)
      case None => true
      case Some(i) => id in s.db.approvals[i].allowed
  }

  function Eligible(cfg: Config, s: LoopState, now: int): set<int>
  {
    set id | id in RunnableSet(s.db, cfg.project, now) && InScope(cfg, s, id, now)
  }

  lemma {:induction false} KeepLists(tasks: map<int, Task>, list: seq<int>, ids: set<int>, scope: set<int>)
    requires Lists(tasks, list, ids)
    ensures Lists(tasks, Keep(list, scope), ids * scope)
    decreases |list|
  {
    ListEmpty(tasks, list, ids);
    if list != [] {
      ListTail(tasks, list, ids);
      KeepLists(tasks, list[1..], ids - {list[0]}, scope);
      var rest := Keep(list[1..], scope);
      assert list == [list[0]] + list[1..];
      forall j | 0 <= j < |rest| ensures Before(tasks, list[0], rest[j]) {
        assert rest[j] in rest && rest[j] in list[1..];
        var i :| 0 <= i < |list| - 1 && list[1..][i] == rest[j];
        assert list[i + 1] == rest[j];
      }
    }
  }

  /** The filter neither drops nor adds nor reorders: the choices are the eligible tasks in queue
      order, so the task a pass executes is the first of them. */
  lemma ChoicesExact(cfg: Config, s: LoopState, now: int)
    ensures Lists(s.db.tasks, Choices(cfg, s, now), Eligible(cfg, s, now))
    ensures Choices(cfg, s, now) == [] <==> Eligible(cfg, s, now) == {}
  {
    var list, ids := RunnableList(s.db, cfg.project, now), RunnableSet(s.db, cfg.project, now);
    ListEmpty(s.db.tasks, list, ids);
    if s.control.scope.Some? {
      KeepLists(s.db.tasks, list, ids, s.control.scope.value);
      assert Eligible(cfg, s, now) == ids * s.control.scope.value;
    } else if LatestValid(s.db.approvals, cfg.project, now) == None {
      assert Eligible(cfg, s, now) == ids;
    } else {
      var allowed := SetOf(s.db.approvals[LatestValid(s.db.approvals, cfg.project, now).value].allowed);
      KeepLists(s.db.tasks, list, ids, allowed);
      assert Eligible(cfg, s, now) == ids * allowed;
    }
    ListEmpty(s.db.tasks, Choices(cfg, s, now), Eligible(cfg, s, now));
  }

  // ---- Approval scope, whatever other processes do ----

  /** The execution directly follows a consumption for the same task, which the approval admits. */
  predicate JustConsumed(trace: seq<Event>, i: nat)
    requires i < |trace| && trace[i].Executed?
  {
    && i > 0 && trace[i - 1].ConsumedApproval? && trace[i - 1].task == trace[i].task
    && (trace[i - 1].allowed == [] || trace[i].task in trace[i - 1].allowed)
  }

  /** What a consumption entitles its run to: the listed tasks, or with no list the task itself. */
  predicate Entitles(e: Event, task: int)
  {
    e.ConsumedApproval? && (task in e.allowed || (e.allowed == [] && task == e.task))
  }

  predicate CachedBy(e: Event, scope: set<int>)
  {
    e.ConsumedApproval? && forall task :: task in scope ==> Entitles(e, task)
  }

  /** The task lies in the scope cached from an approval consumed earlier in the run. */
  predicate InCachedScope(trace: seq<Event>, i: nat)
    requires i < |trace| && trace[i].Executed?
  {
    exists j :: 0 <= j < i && Entitles(trace[j], trace[i].task)
  }

  predicate AllApproved(trace: seq<Event>)
  {
    forall i :: 0 <= i < |trace| && trace[i].Executed? ==> JustConsumed(trace, i) || InCachedScope(trace, i)
  }

  /** A cached scope always stems from a consumption of this run. */
  predicate ScopeInv(c: Control, trace: seq<Event>)
  {
    && AllApproved(trace)
    && (c.consumed <==> c.scope.Some?)
    && (c.scope.Some? ==> exists j :: 0 <= j < |trace| && CachedBy(trace[j], c.scope.value))
  }

  lemma ApprovedExtends(trace: seq<Event>, more: seq<Event>)
    requires AllApproved(trace)
    requires forall i :: |trace| <= i < |trace + more| && (trace + more)[i].Executed? ==>
               JustConsumed(trace + more, i) || InCachedScope(trace + more, i)
    ensures AllApproved(trace + more)
  {
    var all := trace + more;
    forall i | 0 <= i < |trace| && all[i].Executed? ensures JustConsumed(all, i) || InCachedScope(all, i) {
      assert all[i] == trace[i];
      if InCachedScope(trace, i) {
        var j :| 0 <= j < i && Entitles(trace[j], trace[i].task);
        assert all[j] == trace[j];
      }
    }
  }

  /** What a worker may announce, and what the controller then remembers. */
  lemma AnnouncedInScope(cfg: Config, c: Control, offered: Db, t: Turn, task: int)
    ensures var more := Announcement(offered, c.consumed, cfg, t, task);
            var r := AfterTask(offered, task, cfg.project, cfg.worker, cfg.run, !c.consumed, t.outcome, t.now).1;
            && (more == [] || (c.consumed && |more| == 1 && more[0].Executed? && more[0].task == task)
                || (!c.consumed && |more| == 2 && more[0].ConsumedApproval? && more[1].Executed?
                    && JustConsumed(more, 1) && more[1].task == task))
            && (r.Ran? && r.consumed.Some? ==>
                  !c.consumed && more != [] && CachedBy(more[0], CachedScope(task, r.consumed.value)))
  {
  }

  /** What is announced for a task in scope leaves all executions approved. */
  lemma AnnouncedApproved(c: Control, trace: seq<Event>, more: seq<Event>, task: int)
    requires ScopeInv(c, trace) && (c.scope.Some? ==> task in c.scope.value)
    requires || more == []
             || (c.consumed && |more| == 1 && more[0].Executed? && more[0].task == task)
             || (!c.consumed && |more| == 2 && more[0].ConsumedApproval? && more[1].Executed? && JustConsumed(more, 1))
    ensures AllApproved(trace + more)
  {
    if c.consumed && more != [] {
      CachedNext(trace, more, c.scope.value);
    }
    assert !c.consumed && more != [] ==> JustConsumed(trace + more, |trace| + 1);
    ApprovedExtends(trace, more);
  }

  lemma CachedNext(trace: seq<Event>, more: seq<Event>, scope: set<int>)
    requires exists j :: 0 <= j < |trace| && CachedBy(trace[j], scope)
    requires |more| == 1 && more[0].Executed? && more[0].task in scope
    ensures InCachedScope(trace + more, |trace|)
  {
    var j :| 0 <= j < |trace| && CachedBy(trace[j], scope);
    assert (trace + more)[j] == trace[j];
  }

  lemma RememberInScope(c: Control, d: Control, trace: seq<Event>, more: seq<Event>)
    requires ScopeInv(c, trace) && AllApproved(trace + more)
    requires d == c || (d.consumed && d.scope.Some? && more != [] && CachedBy(more[0], d.scope.value))
    ensures ScopeInv(d, trace + more)
  {
    if d != c {
      assert (trace + more)[|trace|] == more[0];
    } else if c.scope.Some? {
      var j :| 0 <= j < |trace| && CachedBy(trace[j], c.scope.value);
      assert (trace + more)[j] == trace[j];
    }
  }

  lemma WorkInScope(cfg: Config, s: LoopState, t: Turn, task: int)
    requires ScopeInv(s.control, s.trace) && (s.control.scope.Some? ==> task in s.control.scope.value)
    ensures var u := AfterWork(cfg, s, t, task).0; ScopeInv(u.control, u.trace)
  {
    if !Promptless(s.db.tasks, task) {
      var more := Announcement(t.during(s.db), s.control.consumed, cfg, t, task);
      AnnouncedInScope(cfg, s.control, t.during(s.db), t, task);
      AnnouncedApproved(s.control, s.trace, more, task);
      RememberInScope(s.control, AfterWork(cfg, s, t, task).0.control, s.trace, more);
    }
  }

  /** Accounting touches neither the trace nor what is remembered of a consumption. */
  lemma SettleKeepsScope(cfg: Config, s: LoopState, task: int, r: TaskResult, now: int)
    ensures var u := Settle(cfg, s, task, r, now);
            u.trace == s.trace && u.control.consumed == s.control.consumed && u.control.scope == s.control.scope
  {
  }

  lemma PassInScope(cfg: Config, s: LoopState, t: Turn)
    requires ScopeInv(s.control, s.trace)
    ensures var u := Pass(cfg, s, t); ScopeInv(u.control, u.trace)
  {
    var u := AtScan(cfg, s, t);
    if Choices(cfg, u, t.now) != [] {
      ChosenIsRunnable(cfg, u, t.now);
      ExecuteInScope(cfg, u, t, Choices(cfg, u, t.now)[0]);
    }
  }

  lemma ExecuteInScope(cfg: Config, s: LoopState, t: Turn, task: int)
    requires ScopeInv(s.control, s.trace) && (s.control.scope.Some? ==> task in s.control.scope.value)
    ensures var u := Execute(cfg, s, t, task); ScopeInv(u.control, u.trace)
  {
    var v := s.(db := Launched(s.db, cfg.run, task));
    WorkInScope(cfg, v, t, task);
    var (w, r) := AfterWork(cfg, v, t, task);
    SettleKeepsScope(cfg, w, task, r, t.now);
  }

  lemma {:induction false} ScopeKept(cfg: Config, s: LoopState, turns: seq<Turn>)
    requires ScopeInv(s.control, s.trace)
    ensures var u := Loop(cfg, s, turns); ScopeInv(u.control, u.trace)
    decreases |turns|
  {
    if turns != [] {
      PassInScope(cfg, s, turns[0]);
      ScopeKept(cfg, Pass(cfg, s, turns[0]), turns[1..]);
    }
  }

  /** A controller right after start. */
  predicate JustStarted(s: LoopState)
  {
    !s.control.consumed && s.control.scope.None? && s.trace == []
  }

  /** Over every run from its start, whatever other processes do to the tables in between: each
      executed task is one for which this run just consumed an approval that admits it, or lies in the
      scope cached from an approval this run consumed before. */
  lemma ScopeSafety(cfg: Config, s: LoopState, turns: seq<Turn>)
    requires JustStarted(s)
    ensures var trace := Loop(cfg, Begun(cfg, s), turns).trace;
            forall i :: 0 <= i < |trace| && trace[i].Executed? ==> JustConsumed(trace, i) || InCachedScope(trace, i)
  {
    ScopeKept(cfg, Begun(cfg, s), turns);
  }

  /** A pass ends its run for a refused consumption exactly when no approval has been consumed yet,
      the chosen task has a prompt and can still be claimed, and no live approval admits it; then
      nothing is executed. */
  lemma RefusalEndsRun(cfg: Config, s: LoopState, t: Turn, task: int)
    requires s.phase.Looping?
    ensures var u, offered := Execute(cfg, s, t, task), t.during(Launched(s.db, cfg.run, task));
            && (u.phase == Ended(RunBlocked, "approval_consumption_failed") <==>
                  && !t.fault.PreparationFails? && !Promptless(s.db.tasks, task)
                  && !s.control.consumed && Claimable(offered, task, t.now)
                  && !ConsumeVerdict(offered.approvals, cfg.project, Some(task), t.now).Taken?)
            && (u.phase == Ended(RunBlocked, "approval_consumption_failed") ==>
                  u.trace == s.trace && u.db.executions == offered.executions && u.db.tasks == offered.tasks)
  {
  }

  /** A chosen task without a prompt is blocked without being executed: no approval is consumed, the
      run goes on and counts it as blocked and, unless it was counted before, as failed. An active
      lease of the task is released, although this worker never claimed it. */
  lemma PromptlessIsBlocked(cfg: Config, s: LoopState, t: Turn, task: int)
    requires s.phase.Looping? && Promptless(s.db.tasks, task) && !t.fault.PreparationFails?
    requires forall d :: t.during(d) == d
    ensures var u := Execute(cfg, s, t, task);
            && u.db.tasks == s.db.tasks[task := s.db.tasks[task].(status := Blocked)]
            && u.trace == s.trace && u.db.executions == s.db.executions && u.db.approvals == s.db.approvals
            && u.control.consumed == s.control.consumed && u.control.scope == s.control.scope
            && (task in s.db.leases ==> u.db.leases[task].status != LeaseActive)
            && (Exists(s.db.runs, cfg.run) ==>
                  && u.phase.Looping? && u.seen.blocked == s.db.runs[cfg.run - 1].blocked + 1
                  && u.seen.failed == s.db.runs[cfg.run - 1].failed + OneIf(task !in s.control.counted))
  {
    var v := s.(db := Launched(s.db, cfg.run, task));
    assert t.during(v.db) == v.db;
    GivenUpExact(v.db, cfg, task, t.now);
    var (w, r) := AfterWork(cfg, v, t, task);
    SettleKeepsRest(cfg, w, task, r, t.now);
    if Exists(s.db.runs, cfg.run) {
      LaunchKeepsCounters(s.db, cfg.run, task);
    }
  }

  lemma GivenUpExact(db: Db, cfg: Config, task: int, now: int)
    requires task in db.tasks
    ensures var d := GivenUp(db, cfg, task, now);
            && d == db.(tasks := db.tasks[task := db.tasks[task].(status := Blocked)], locks := d.locks,
                        leases := d.leases, runs := d.runs)
            && (task in db.leases ==> task in d.leases && d.leases[task].status != LeaseActive)
            && |d.runs| == |db.runs|
            && (Exists(db.runs, cfg.run) ==> CountedOnce(db.runs[cfg.run - 1], d.runs[cfg.run - 1], Blocked, now))
  {
  }

  lemma SettleKeepsRest(cfg: Config, s: LoopState, task: int, r: TaskResult, now: int)
    requires !r.ConsumptionRefused?
    ensures var u := Settle(cfg, s, task, r, now);
            && u.db == s.db.(runs := u.db.runs) && u.trace == s.trace
            && u.control.consumed == s.control.consumed && u.control.scope == s.control.scope
  {
  }

  lemma LaunchKeepsCounters(db: Db, run: int, task: int)
    requires Exists(db.runs, run)
    ensures var d := Launched(db, run, task);
            && d == db.(runs := d.runs) && |d.runs| == |db.runs|
            && d.runs[run - 1].failed == db.runs[run - 1].failed && d.runs[run - 1].blocked == db.runs[run - 1].blocked
            && d.runs[run - 1].completed == db.runs[run - 1].completed
  {
  }

  /** Without any live approval the scope filter lets every runnable task through, but none is
      executed: if the first has a prompt its attempt is refused and ends the run, otherwise it is
      blocked and the run goes on. */
  lemma NoApprovalNoExecution(cfg: Config, s: LoopState, t: Turn)
    requires s.phase.Looping? && !t.stop && t.pause.NotPaused? && t.fault.NoFault?
    requires !s.control.consumed && s.control.scope.None? && Exists(s.db.runs, cfg.run)
    requires CheckRunBudget(cfg.budget, s.seen, t.elapsed) == WithinBudget
    requires forall d :: t.before(d) == d && t.during(d) == d
    requires LatestValid(s.db.approvals, cfg.project, t.now) == None
    requires RunnableSet(s.db, cfg.project, t.now) != {}
    ensures RunnableList(s.db, cfg.project, t.now) != []
    ensures var u, first := Pass(cfg, s, t), RunnableList(s.db, cfg.project, t.now)[0];
            && u.trace == s.trace && u.db.executions == s.db.executions
            && (u.phase == Ended(RunBlocked, "approval_consumption_failed") <==> !Promptless(s.db.tasks, first))
            && (u.phase.Looping? <==> Promptless(s.db.tasks, first))
  {
    var a := AtScan(cfg, s, t);
    QuietPass(cfg, s, t);
    ChoicesExact(cfg, s, t.now);
    assert Choices(cfg, s, t.now) == RunnableList(s.db, cfg.project, t.now);
    ListEmpty(s.db.tasks, RunnableList(s.db, cfg.project, t.now), RunnableSet(s.db, cfg.project, t.now));
    ChosenIsRunnable(cfg, s, t.now);
    UnapprovedExecution(cfg, a, t, RunnableList(s.db, cfg.project, t.now)[0]);
  }

  /** A scan nobody disturbs sees the tables as they are, apart from its own run's row. */
  lemma QuietScan(cfg: Config, s: LoopState, t: Turn)
    requires t.pause.NotPaused? && forall d :: t.before(d) == d
    ensures var a := AtScan(cfg, s, t);
            && a == s.(db := s.db.(runs := a.db.runs)) && |a.db.runs| == |s.db.runs|
            && Choices(cfg, a, t.now) == Choices(cfg, s, t.now)
  {
    assert t.before(s.db) == s.db;
    var a := AtScan(cfg, s, t);
    assert RunnableSet(a.db, cfg.project, t.now) == RunnableSet(s.db, cfg.project, t.now);
    ListingUnique(s.db.tasks, RunnableList(a.db, cfg.project, t.now), RunnableList(s.db, cfg.project, t.now),
                  RunnableSet(s.db, cfg.project, t.now));
  }

  lemma QuietPass(cfg: Config, s: LoopState, t: Turn)
    requires s.phase.Looping? && !t.stop && t.pause.NotPaused? && t.fault.NoFault?
    requires CheckRunBudget(cfg.budget, s.seen, t.elapsed) == WithinBudget && forall d :: t.before(d) == d
    ensures var a := AtScan(cfg, s, t);
            && a == s.(db := s.db.(runs := a.db.runs)) && |a.db.runs| == |s.db.runs|
            && Choices(cfg, a, t.now) == Choices(cfg, s, t.now)
            && (Choices(cfg, s, t.now) != [] ==> Pass(cfg, s, t) == Execute(cfg, a, t, Choices(cfg, s, t.now)[0]))
  {
    QuietScan(cfg, s, t);
  }

  /** An attempt without any live approval, undisturbed. */
  lemma UnapprovedExecution(cfg: Config, s: LoopState, t: Turn, task: int)
    requires s.phase.Looping? && !s.control.consumed && !t.fault.PreparationFails? && Exists(s.db.runs, cfg.run)
    requires LatestValid(s.db.approvals, cfg.project, t.now) == None && Claimable(s.db, task, t.now)
    requires forall d :: t.during(d) == d
    ensures var u := Execute(cfg, s, t, task);
            && u.trace == s.trace && u.db.executions == s.db.executions
            && (u.phase == Ended(RunBlocked, "approval_consumption_failed") <==> !Promptless(s.db.tasks, task))
            && (u.phase.Looping? <==> Promptless(s.db.tasks, task))
  {
    var v := Launched(s.db, cfg.run, task);
    assert t.during(v) == v;
    LaunchKeepsCounters(s.db, cfg.run, task);
    RefusalEndsRun(cfg, s, t, task);
    if Promptless(s.db.tasks, task) {
      PromptlessIsBlocked(cfg, s, t, task);
    }
  }

  // ---- The loop ends ----

  /** Other processes leave the run table alone. */
  ghost predicate RunsUntouched(t: Turn)
  {
    && (forall d :: t.before(d).runs == d.runs && t.during(d).runs == d.runs)
    && (t.pause.PausedFor? ==> forall d :: t.pause.meanwhile(d).runs == d.runs)
  }

  /** In the controller's copy of its run the counters the budget looks at are up to date. */
  predicate Synced(cfg: Config, s: LoopState)
  {
    && Exists(s.db.runs, cfg.run) && s.seen.total == s.db.runs[cfg.run - 1].total
    && s.seen.failed == s.db.runs[cfg.run - 1].failed
  }

  function TotalOf(runs: seq<Run>, run: int): nat
    requires Exists(runs, run)
  {
    runs[run - 1].total
  }

  lemma WorkKeepsTotal(cfg: Config, s: LoopState, t: Turn, task: int)
    requires Exists(s.db.runs, cfg.run) && t.during(s.db).runs == s.db.runs
    ensures var u := AfterWork(cfg, s, t, task).0;
            Exists(u.db.runs, cfg.run) && TotalOf(u.db.runs, cfg.run) == TotalOf(s.db.runs, cfg.run)
  {
  }

  lemma LaunchCounts(db: Db, run: int, task: int)
    requires Exists(db.runs, run)
    ensures |Launched(db, run, task).runs| == |db.runs|
    ensures TotalOf(Launched(db, run, task).runs, run) == TotalOf(db.runs, run) + 1
  {
  }

  lemma SettleSyncs(cfg: Config, s: LoopState, task: int, r: TaskResult, now: int)
    requires Exists(s.db.runs, cfg.run) && !r.ConsumptionRefused?
    ensures var u := Settle(cfg, s, task, r, now);
            u.phase == s.phase && Synced(cfg, u) && u.seen.total == TotalOf(s.db.runs, cfg.run)
  {
  }

  /** A pass that does not end the loop executes the first choice and accounts for it. */
  lemma PassExecutes(cfg: Config, s: LoopState, t: Turn)
    requires s.phase.Looping? && Pass(cfg, s, t).phase.Looping?
    ensures s.seen.total < cfg.budget.maxTasks && Choices(cfg, AtScan(cfg, s, t), t.now) != []
    ensures Pass(cfg, s, t) == Execute(cfg, AtScan(cfg, s, t), t, Choices(cfg, AtScan(cfg, s, t), t.now)[0])
  {
  }

  lemma ExecuteCounts(cfg: Config, s: LoopState, t: Turn, task: int)
    requires Exists(s.db.runs, cfg.run) && RunsUntouched(t)
    ensures var u := Execute(cfg, s, t, task);
            u.phase.Looping? ==> Synced(cfg, u) && u.seen.total == TotalOf(s.db.runs, cfg.run) + 1
  {
    var v := s.(db := Launched(s.db, cfg.run, task));
    LaunchCounts(s.db, cfg.run, task);
    WorkKeepsTotal(cfg, v, t, task);
    var (w, r) := AfterWork(cfg, v, t, task);
    if !r.ConsumptionRefused? {
      SettleSyncs(cfg, w, task, r, t.now);
    }
  }

  /** A pass that does not end the loop has counted one more task, within the budget. */
  lemma PassCounts(cfg: Config, s: LoopState, t: Turn)
    requires s.phase.Looping? && Synced(cfg, s) && RunsUntouched(t)
    ensures var u := Pass(cfg, s, t);
            u.phase.Looping? ==> Synced(cfg, u) && u.seen.total == s.seen.total + 1 <= cfg.budget.maxTasks
  {
    if Pass(cfg, s, t).phase.Looping? {
      ScanSyncs(cfg, s, t);
      PassExecutes(cfg, s, t);
      ExecuteCounts(cfg, AtScan(cfg, s, t), t, Choices(cfg, AtScan(cfg, s, t), t.now)[0]);
    }
  }

  lemma ScanSyncs(cfg: Config, s: LoopState, t: Turn)
    requires Synced(cfg, s) && RunsUntouched(t)
    ensures Synced(cfg, AtScan(cfg, s, t))
  {
  }

  /** Every run ends: after as many passes as the budget has tasks left, and one more, the loop is
      over, whatever happens to the tasks, leases and approvals meanwhile. */
  lemma {:induction false} LoopEnds(cfg: Config, s: LoopState, turns: seq<Turn>)
    requires Synced(cfg, s) && forall i :: 0 <= i < |turns| ==> RunsUntouched(turns[i])
    requires |turns| > 0 && |turns| > cfg.budget.maxTasks - s.seen.total
    ensures !Loop(cfg, s, turns).phase.Looping?
    decreases |turns|
  {
    var u := Pass(cfg, s, turns[0]);
    if u.phase.Looping? {
      PassCounts(cfg, s, turns[0]);
      LoopEnds(cfg, u, turns[1..]);
    } else {
      LoopOver(cfg, u, turns[1..]);
    }
  }

  // ---- Dependency order, when tasks are completed by the loop only ----

  ghost predicate TasksUntouched(t: Turn)
  {
    && (forall d :: t.before(d).tasks == d.tasks && t.during(d).tasks == d.tasks)
    && (t.pause.PausedFor? ==> forall d :: t.pause.meanwhile(d).tasks == d.tasks)
  }

  /** The same tasks up to their status. */
  predicate SameButStatus(a: map<int, Task>, b: map<int, Task>)
  {
    a.Keys == b.Keys && forall id :: id in a ==> b[id] == a[id].(status := b[id].status)
  }

  /** The task was completed by an execution before position i. */
  predicate DoneBefore(trace: seq<Event>, i: nat, id: int)
  {
    exists j :: 0 <= j < i && j < |trace| && trace[j].Executed? && trace[j].task == id && trace[j].status == Completed
  }

  predicate Done(tasks: map<int, Task>, trace: seq<Event>, i: nat, id: int)
  {
    IsCompleted(tasks, id) || DoneBefore(trace, i, id)
  }

  /** A dependency is discharged by position i: what it names was completed at the start or has been
      completed since. */
  predicate Discharged(tasks: map<int, Task>, trace: seq<Event>, i: nat, project: int, ref: DependencyRef)
  {
    match ref
    case InvalidRef => false
    case IdRef(id) => Done(tasks, trace, i, id)
    case TitleRef(title) =>
      var m := TitleMatches(tasks, project, title);
      |m| == 1 && forall id :: id in m ==> Done(tasks, trace, i, id)
  }

  predicate DependenciesDischarged(tasks: map<int, Task>, trace: seq<Event>, i: nat)
    requires i < |trace| && trace[i].Executed?
  {
    && trace[i].task in tasks
    && forall ref :: ref in Dependencies(tasks[trace[i].task]) ==>
         Discharged(tasks, trace, i, tasks[trace[i].task].project, ref)
  }

  /** Only tasks with a prompt are executed. */
  predicate Prompted(tasks: map<int, Task>, e: Event)
  {
    e.Executed? ==> e.task in tasks && tasks[e.task].prompt != NoPrompt
  }

  /** `tasks` is the table at the start of the run. */
  predicate OrderInv(tasks: map<int, Task>, s: LoopState)
  {
    && SameButStatus(tasks, s.db.tasks)
    && (forall id :: IsCompleted(s.db.tasks, id) && id in tasks ==> Done(tasks, s.trace, |s.trace|, id))
    && (forall i :: 0 <= i < |s.trace| && s.trace[i].Executed? ==> DependenciesDischarged(tasks, s.trace, i))
    && (forall i :: 0 <= i < |s.trace| ==> Prompted(tasks, s.trace[i]))
  }

  lemma DoneExtends(tasks: map<int, Task>, trace: seq<Event>, more: seq<Event>, i: nat, id: int)
    requires i <= |trace|
    ensures Done(tasks, trace + more, i, id) <==> Done(tasks, trace, i, id)
    ensures Done(tasks, trace, i, id) ==> Done(tasks, trace + more, |trace + more|, id)
  {
    var all := trace + more;
    assert forall j :: 0 <= j < |trace| ==> all[j] == trace[j];
    if DoneBefore(trace, i, id) {
      var j :| 0 <= j < i && trace[j].Executed? && trace[j].task == id && trace[j].status == Completed;
      assert all[j] == trace[j];
    }
    if DoneBefore(all, i, id) {
      var j :| 0 <= j < i && all[j].Executed? && all[j].task == id && all[j].status == Completed;
      assert trace[j] == all[j];
    }
  }

  lemma DischargedExtends(tasks: map<int, Task>, trace: seq<Event>, more: seq<Event>, i: nat)
    requires i < |trace| && trace[i].Executed? && DependenciesDischarged(tasks, trace, i)
    ensures (trace + more)[i] == trace[i] && DependenciesDischarged(tasks, trace + more, i)
  {
    forall id ensures Done(tasks, trace + more, i, id) <==> Done(tasks, trace, i, id) {
      DoneExtends(tasks, trace, more, i, id);
    }
  }

  lemma SameTitles(a: map<int, Task>, b: map<int, Task>, project: int, title: string)
    requires SameButStatus(a, b)
    ensures TitleMatches(a, project, title) == TitleMatches(b, project, title)
  {
    assert forall id :: id in a ==> id in b && b[id].project == a[id].project && b[id].title == a[id].title;
  }

  /** What a satisfied dependency means for the trace. */
  lemma SatisfiedIsDischarged(tasks: map<int, Task>, s: LoopState, more: seq<Event>, project: int, ref: DependencyRef)
    requires OrderInv(tasks, s) && Satisfied(s.db.tasks, project, ref)
    ensures Discharged(tasks, s.trace + more, |s.trace|, project, ref)
  {
    forall id | IsCompleted(s.db.tasks, id) ensures Done(tasks, s.trace + more, |s.trace|, id) {
      DoneExtends(tasks, s.trace, more, |s.trace|, id);
    }
    if ref.TitleRef? {
      SameTitles(tasks, s.db.tasks, project, ref.title);
    }
  }

  /** The task status after the work, and what was announced. */
  lemma WorkOnTasks(cfg: Config, s: LoopState, t: Turn, task: int)
    requires TasksUntouched(t)
    ensures AfterWork(cfg, s, t, task).1.NeverStarted? <==> Promptless(s.db.tasks, task)
    ensures var (u, r) := AfterWork(cfg, s, t, task);
            if r.Ran? then
              && task in s.db.tasks
              && u.db.tasks == s.db.tasks[task := s.db.tasks[task].(status := TaskStatusOf(ExitOf(t.outcome)))]
              && var more := Announcement(t.during(s.db), s.control.consumed, cfg, t, task);
                 u.trace == s.trace + more && Ends(more, Executed(task, r.execution, TaskStatusOf(ExitOf(t.outcome))))
            else
              && u.trace == s.trace
              && u.db.tasks == if r.NeverStarted? then s.db.tasks[task := s.db.tasks[task].(status := Blocked)]
                               else s.db.tasks
  {
  }

  /** The execution comes last and is the only one. */
  predicate Ends(more: seq<Event>, e: Event)
  {
    more != [] && more[|more| - 1] == e && forall f :: f in more && f.Executed? ==> f == e
  }

  lemma WorkInOrder(cfg: Config, tasks: map<int, Task>, s: LoopState, t: Turn, task: int)
    requires OrderInv(tasks, s) && TasksUntouched(t)
    requires task in s.db.tasks && AllSatisfied(s.db.tasks, s.db.tasks[task].project, Dependencies(s.db.tasks[task]))
    ensures OrderInv(tasks, AfterWork(cfg, s, t, task).0)
  {
    WorkOnTasks(cfg, s, t, task);
    var (u, r) := AfterWork(cfg, s, t, task);
    if r.Ran? {
      ExecutionInOrder(tasks, s, u, Announcement(t.during(s.db), s.control.consumed, cfg, t, task), task);
    } else {
      NothingExecuted(tasks, s, u);
    }
  }

  /** Without an execution the order is kept as long as nothing becomes completed. */
  lemma NothingExecuted(tasks: map<int, Task>, s: LoopState, u: LoopState)
    requires OrderInv(tasks, s) && u.trace == s.trace && SameButStatus(s.db.tasks, u.db.tasks)
    requires forall id :: IsCompleted(u.db.tasks, id) ==> IsCompleted(s.db.tasks, id)
    ensures OrderInv(tasks, u)
  {
  }

  /** The order is kept by any state that differs by one execution of a task whose dependencies are
      satisfied. */
  lemma ExecutionInOrder(tasks: map<int, Task>, s: LoopState, u: LoopState, more: seq<Event>, task: int)
    requires OrderInv(tasks, s) && u.trace == s.trace + more
    requires task in s.db.tasks && AllSatisfied(s.db.tasks, s.db.tasks[task].project, Dependencies(s.db.tasks[task]))
    requires s.db.tasks[task].prompt != NoPrompt && more != [] && more[|more| - 1].Executed?
    requires forall e :: e in more && e.Executed? ==> e.task == task
    requires u.db.tasks == s.db.tasks[task := s.db.tasks[task].(status := more[|more| - 1].status)]
    ensures OrderInv(tasks, u)
  {
    assert more[|more| - 1] in more;
    DoneInOrder(tasks, s, more, task);
    forall i | 0 <= i < |u.trace| && u.trace[i].Executed? ensures DependenciesDischarged(tasks, u.trace, i) {
      if i < |s.trace| {
        DischargedExtends(tasks, s.trace, more, i);
      } else {
        assert u.trace[i] == more[i - |s.trace|];
        LastInOrder(tasks, s, more, i, task);
      }
    }
    forall i | 0 <= i < |u.trace| ensures Prompted(tasks, u.trace[i]) {
      if i < |s.trace| {
        assert u.trace[i] == s.trace[i] && Prompted(tasks, s.trace[i]);
      } else {
        assert u.trace[i] == more[i - |s.trace|] && more[i - |s.trace|] in more;
      }
    }
  }

  /** Whatever was completed stays done, and so does the task just announced if it completed. */
  lemma DoneInOrder(tasks: map<int, Task>, s: LoopState, more: seq<Event>, task: int)
    requires OrderInv(tasks, s) && more != [] && more[|more| - 1].Executed? && more[|more| - 1].task == task
    ensures forall id :: IsCompleted(s.db.tasks, id) && id in tasks ==>
        Done(tasks, s.trace + more, |s.trace + more|, id)
    ensures more[|more| - 1].status == Completed ==> Done(tasks, s.trace + more, |s.trace + more|, task)
  {
    forall id | IsCompleted(s.db.tasks, id) && id in tasks ensures Done(tasks, s.trace + more, |s.trace + more|, id) {
      DoneExtends(tasks, s.trace, more, |s.trace|, id);
    }
    assert (s.trace + more)[|s.trace + more| - 1] == more[|more| - 1];
  }

  lemma LastInOrder(tasks: map<int, Task>, s: LoopState, more: seq<Event>, i: nat, task: int)
    requires OrderInv(tasks, s) && |s.trace| <= i < |s.trace + more|
    requires (s.trace + more)[i].Executed? && (s.trace + more)[i].task == task
    requires task in s.db.tasks && AllSatisfied(s.db.tasks, s.db.tasks[task].project, Dependencies(s.db.tasks[task]))
    ensures DependenciesDischarged(tasks, s.trace + more, i)
  {
    var n, project := |s.trace|, tasks[task].project;
    var refs := Dependencies(tasks[task]);
    assert refs == Dependencies(s.db.tasks[task]);
    forall ref | ref in refs ensures Discharged(tasks, s.trace + more, i, project, ref) {
      var k :| 0 <= k < |refs| && refs[k] == ref;
      assert Satisfied(s.db.tasks, project, refs[k]);
      SatisfiedIsDischarged(tasks, s, more, project, ref);
      DischargedLater(tasks, s.trace + more, n, i, project, ref);
    }
  }

  lemma DischargedLater(tasks: map<int, Task>, trace: seq<Event>, i: nat, j: nat, project: int, ref: DependencyRef)
    requires i <= j && Discharged(tasks, trace, i, project, ref)
    ensures Discharged(tasks, trace, j, project, ref)
  {
  }

  lemma SettleKeepsTasks(cfg: Config, s: LoopState, task: int, r: TaskResult, now: int)
    ensures var u := Settle(cfg, s, task, r, now); u.db.tasks == s.db.tasks && u.trace == s.trace
  {
  }

  lemma ChosenIsRunnable(cfg: Config, s: LoopState, now: int)
    requires Choices(cfg, s, now) != []
    ensures var task := Choices(cfg, s, now)[0];
            && task in RunnableSet(s.db, cfg.project, now)
            && (s.control.scope.Some? ==> task in s.control.scope.value)
  {
  }

  lemma PassInOrder(cfg: Config, tasks: map<int, Task>, s: LoopState, t: Turn)
    requires OrderInv(tasks, s) && TasksUntouched(t)
    ensures OrderInv(tasks, Pass(cfg, s, t))
  {
    var u := AtScan(cfg, s, t);
    assert OrderInv(tasks, u);
    if s.phase.Looping? && Choices(cfg, u, t.now) != [] {
      ChosenIsRunnable(cfg, u, t.now);
      var task := Choices(cfg, u, t.now)[0];
      ExecuteInOrder(cfg, tasks, u, t, task);
    }
    PassIsScanOrEnd(cfg, s, t);
  }

  /** The state has ended without touching the trace, the notes or the controller's fields. */
  predicate JustEnded(s: LoopState, u: LoopState)
  {
    u.phase.Ended? && u.trace == s.trace && u.done == s.done && u.control == s.control
  }

  lemma ScanIsExecuteOrEnd(cfg: Config, s: LoopState, t: Turn)
    ensures var u := ScanPass(cfg, s, t);
            || (JustEnded(s, u) && u.db.tasks == s.db.tasks)
            || (Choices(cfg, s, t.now) != [] && u == Execute(cfg, s, t, Choices(cfg, s, t.now)[0]))
  {
  }

  /** A pass executes its first choice, or ends or has ended without touching tasks and trace. */
  lemma PassIsScanOrEnd(cfg: Config, s: LoopState, t: Turn)
    ensures var u, a, db := Pass(cfg, s, t), AtScan(cfg, s, t), t.before(s.db);
            || u == s
            || (JustEnded(s, u) && u.db.tasks in {db.tasks, Waited(cfg, db, t).tasks})
            || (Choices(cfg, a, t.now) != [] && u == Execute(cfg, a, t, Choices(cfg, a, t.now)[0]))
  {
    var a := AtScan(cfg, s, t);
    assert a.db.tasks in {t.before(s.db).tasks, Waited(cfg, t.before(s.db), t).tasks};
    if Pass(cfg, s, t) == ScanPass(cfg, a, t) {
      ScanIsExecuteOrEnd(cfg, a, t);
    }
  }

  lemma ExecuteInOrder(cfg: Config, tasks: map<int, Task>, s: LoopState, t: Turn, task: int)
    requires OrderInv(tasks, s) && TasksUntouched(t)
    requires task in s.db.tasks && AllSatisfied(s.db.tasks, s.db.tasks[task].project, Dependencies(s.db.tasks[task]))
    ensures OrderInv(tasks, Execute(cfg, s, t, task))
  {
    var v := s.(db := Launched(s.db, cfg.run, task));
    WorkInOrder(cfg, tasks, v, t, task);
    var (w, r) := AfterWork(cfg, v, t, task);
    SettleKeepsTasks(cfg, w, task, r, t.now);
  }

  lemma {:induction false} OrderKept(cfg: Config, tasks: map<int, Task>, s: LoopState, turns: seq<Turn>)
    requires OrderInv(tasks, s) && forall i :: 0 <= i < |turns| ==> TasksUntouched(turns[i])
    ensures OrderInv(tasks, Loop(cfg, s, turns))
    decreases |turns|
  {
    if turns != [] {
      PassInOrder(cfg, tasks, s, turns[0]);
      OrderKept(cfg, tasks, Pass(cfg, s, turns[0]), turns[1..]);
    }
  }

  /** Dependency order over all runs: whenever a task is executed, everything it depends on, by id or
      by title, was completed at the start or has been completed by an earlier execution; and what is
      completed at the end was completed at the start or by an execution. */
  lemma DependencyOrder(cfg: Config, s: LoopState, turns: seq<Turn>)
    requires s.trace == [] && forall i :: 0 <= i < |turns| ==> TasksUntouched(turns[i])
    ensures var u := Loop(cfg, s, turns);
            && SameButStatus(s.db.tasks, u.db.tasks)
            && (forall i :: 0 <= i < |u.trace| && u.trace[i].Executed? ==>
                 DependenciesDischarged(s.db.tasks, u.trace, i))
            && (forall id :: IsCompleted(u.db.tasks, id) ==> Done(s.db.tasks, u.trace, |u.trace|, id))
  {
    OrderKept(cfg, s.db.tasks, s, turns);
  }

  /** No task without a prompt is ever executed, nor completed unless it was at the start. */
  lemma PromptlessNeverRuns(cfg: Config, s: LoopState, turns: seq<Turn>)
    requires s.trace == [] && forall i :: 0 <= i < |turns| ==> TasksUntouched(turns[i])
    ensures var u := Loop(cfg, s, turns);
            && (forall i :: 0 <= i < |u.trace| && u.trace[i].Executed? ==> !Promptless(s.db.tasks, u.trace[i].task))
            && (forall id :: Promptless(s.db.tasks, id) && IsCompleted(u.db.tasks, id) ==> IsCompleted(s.db.tasks, id))
  {
    OrderKept(cfg, s.db.tasks, s, turns);
    var u := Loop(cfg, s, turns);
    forall i | 0 <= i < |u.trace| && u.trace[i].Executed? ensures !Promptless(s.db.tasks, u.trace[i].task) {
      assert Prompted(s.db.tasks, u.trace[i]);
    }
    forall id | Promptless(s.db.tasks, id) && IsCompleted(u.db.tasks, id) ensures IsCompleted(s.db.tasks, id) {
      assert Done(s.db.tasks, u.trace, |u.trace|, id);
    }
  }

  /** A set of unfinished tasks each of which depends on a member: in particular every cycle. */
  predicate Knot(tasks: map<int, Task>, knot: set<int>)
  {
    forall id :: id in knot ==>
      && id in tasks && tasks[id].status != Completed
      && exists ref :: ref in Dependencies(tasks[id]) && Names(tasks, tasks[id].project, ref, knot)
  }

  /** The reference names a member of the set. */
  predicate Names(tasks: map<int, Task>, project: int, ref: DependencyRef, ids: set<int>)
  {
    match ref
    case InvalidRef => false
    case IdRef(id) => id in ids
    case TitleRef(title) => exists id :: id in TitleMatches(tasks, project, title) && id in ids
  }

  lemma {:induction false} KnotUntouched(tasks: map<int, Task>, trace: seq<Event>, knot: set<int>, n: nat)
    requires Knot(tasks, knot) && n <= |trace|
    requires forall i :: 0 <= i < |trace| && trace[i].Executed? ==> DependenciesDischarged(tasks, trace, i)
    ensures forall i :: 0 <= i < n && trace[i].Executed? ==> trace[i].task !in knot
  {
    if n > 0 {
      KnotUntouched(tasks, trace, knot, n - 1);
      KnotMemberBlocked(tasks, trace, knot, n - 1);
    }
  }

  /** As long as no member has been executed, a member's dependencies are not discharged. */
  lemma KnotMemberBlocked(tasks: map<int, Task>, trace: seq<Event>, knot: set<int>, i: nat)
    requires Knot(tasks, knot) && i < |trace|
    requires forall j :: 0 <= j < i && trace[j].Executed? ==> trace[j].task !in knot
    ensures trace[i].Executed? && trace[i].task in knot ==> !DependenciesDischarged(tasks, trace, i)
  {
  }

  /** No task of a knot is ever executed or completed. */
  lemma KnotNeverRuns(cfg: Config, s: LoopState, turns: seq<Turn>, knot: set<int>)
    requires s.trace == [] && Knot(s.db.tasks, knot)
    requires forall i :: 0 <= i < |turns| ==> TasksUntouched(turns[i])
    ensures var u := Loop(cfg, s, turns);
            && (forall i :: 0 <= i < |u.trace| && u.trace[i].Executed? ==> u.trace[i].task !in knot)
            && (forall id :: id in knot ==> id in u.db.tasks && u.db.tasks[id].status != Completed)
  {
    DependencyOrder(cfg, s, turns);
    var u := Loop(cfg, s, turns);
    KnotUntouched(s.db.tasks, u.trace, knot, |u.trace|);
    forall id | id in knot ensures id in u.db.tasks && u.db.tasks[id].status != Completed {
      KnotMemberStays(s.db.tasks, u.db.tasks, u.trace, knot, id);
    }
  }

  lemma KnotMemberStays(tasks: map<int, Task>, after: map<int, Task>, trace: seq<Event>, knot: set<int>, id: int)
    requires tasks.Keys == after.Keys && id in knot && id in tasks && tasks[id].status != Completed
    requires forall i :: 0 <= i < |trace| && trace[i].Executed? ==> trace[i].task !in knot
    requires IsCompleted(after, id) ==> Done(tasks, trace, |trace|, id)
    ensures id in after && after[id].status != Completed
  {
  }

  // ---- How failures are counted ----

  /** An execution can count twice in each counter, and so a failure twice against
      max_consecutive_failures: once when the finalizer stores the task's status, once when the loop
      accounts for the report, unless it did so before for the same task. */
  lemma OutcomesCounted(cfg: Config, s: LoopState, t: Turn, task: int)
    requires Exists(s.db.runs, cfg.run) && t.during(s.db).runs == s.db.runs
    requires AfterWork(cfg, s, t, task).1.Ran?
    ensures var (w, r) := AfterWork(cfg, s, t, task);
            var u := Settle(cfg, w, task, r, t.now);
            var before, exit, report := s.db.runs[cfg.run - 1], TaskStatusOf(ExitOf(t.outcome)), ReportOf(t.outcome);
            var again := task in s.control.counted;
            && Exists(u.db.runs, cfg.run)
            && var after := u.db.runs[cfg.run - 1];
               && after.failed == before.failed + OneIf(exit == Failed)
                                  + OneIf(report in {ReportFailed, ReportTestFailed} && !again)
               && after.completed == before.completed + OneIf(exit == Completed)
                                     + OneIf(report.ReportCompleted? && !again)
               && after.blocked == before.blocked + OneIf(exit == Blocked) + OneIf(report.ReportBlocked? && !again)
  {
    WorkCounts(cfg, s, t, task);
    var (w, r) := AfterWork(cfg, s, t, task);
    SettleCounts(cfg, w, task, r, t.now);
  }

  lemma WorkCounts(cfg: Config, s: LoopState, t: Turn, task: int)
    requires Exists(s.db.runs, cfg.run) && t.during(s.db).runs == s.db.runs && AfterWork(cfg, s, t, task).1.Ran?
    ensures var (w, r) := AfterWork(cfg, s, t, task);
            var before, exit := s.db.runs[cfg.run - 1], TaskStatusOf(ExitOf(t.outcome));
            && r.report == ReportOf(t.outcome) && w.control.counted == s.control.counted && Exists(w.db.runs, cfg.run)
            && var after := w.db.runs[cfg.run - 1];
               && after.failed == before.failed + OneIf(exit == Failed)
               && after.completed == before.completed + OneIf(exit == Completed)
               && after.blocked == before.blocked + OneIf(exit == Blocked)
  {
    var consume := !s.control.consumed;
    RanLeaves(t.during(s.db), task, cfg.project, cfg.worker, cfg.run, consume, t.outcome, t.now);
  }

  lemma SettleCounts(cfg: Config, s: LoopState, task: int, r: TaskResult, now: int)
    requires Exists(s.db.runs, cfg.run) && r.Ran?
    ensures var u, again := Settle(cfg, s, task, r, now), task in s.control.counted;
            && Exists(u.db.runs, cfg.run)
            && var before, after := s.db.runs[cfg.run - 1], u.db.runs[cfg.run - 1];
               && after.failed == before.failed + OneIf(r.report in {ReportFailed, ReportTestFailed} && !again)
               && after.completed == before.completed + OneIf(r.report.ReportCompleted? && !again)
               && after.blocked == before.blocked + OneIf(r.report.ReportBlocked? && !again)
  {
  }
}
