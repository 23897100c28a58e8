/** What an undisturbed run of successes executes of an arbitrary queue, with cycles, ambiguous or unknown
    dependencies, tasks outside the scope or not ready: exactly what can be reached. */
module LoopClosure {
  import opened Schema
  import opened Approvals
  import opened TaskScheduler
  import opened LoopController
  import opened LoopProgress
  import LoopSafety

  /** The scope in force: the cached one, or else the list of the live approval. */
  predicate ScopeIs(cfg: Config, s: LoopState, scope: set<int>, now: int)
  {
    if s.control.consumed then s.control.scope == Some(scope)
    else s.control.scope.None? &&
         var i := LatestValid(s.db.approvals, cfg.project, now);
         i.Some? && SetOf(s.db.approvals[i.value].allowed) == scope
  }

  /** No task that could run but for its dependencies lacks a prompt or is leased. */
  predicate Settled(cfg: Config, db: Db, scope: set<int>)
  {
    && ProjectOpen(db, cfg.project)
    && (forall id :: (&& id in scope && IsCandidate(db.tasks, cfg.project, id)
                      && FilesOf(db.tasks[id]) != [] && !db.tasks[id].manual) ==> Startable(db, id))
  }

  function WithDone(tasks: map<int, Task>, done: set<int>): map<int, Task>
  {
    map id | id in tasks :: if id in done then tasks[id].(status := Completed) else tasks[id]
  }

  /** Once the set is done, the task can run within the scope. */
  predicate Follows(cfg: Config, db: Db, scope: set<int>, done: set<int>, id: int)
  {
    && id in scope && id in db.tasks && db.tasks[id].project == cfg.project && Startable(db, id)
    && AllSatisfied(WithDone(db.tasks, done), cfg.project, Dependencies(db.tasks[id]))
  }

  ghost predicate ClosedUnder(cfg: Config, db: Db, scope: set<int>, done: set<int>)
  {
    forall id :: Follows(cfg, db, scope, done, id) ==> id in done
  }

  /** The least set closed under what can run: everything that can be reached, and nothing else. */
  ghost predicate IsReach(cfg: Config, db: Db, scope: set<int>, done: set<int>)
  {
    ClosedUnder(cfg, db, scope, done) && forall other :: ClosedUnder(cfg, db, scope, other) ==> done <= other
  }

  lemma DoneNothing(tasks: map<int, Task>)
    ensures WithDone(tasks, {}) == tasks
  {
  }

  lemma DoneMore(tasks: map<int, Task>, task: int, done: set<int>)
    requires task in tasks
    ensures WithDone(Finished(tasks, task), done) == WithDone(tasks, done + {task})
  {
  }

  /** What is satisfied stays satisfied when more is done. */
  lemma MoreIsSatisfied(tasks: map<int, Task>, done: set<int>, project: int, refs: seq<DependencyRef>)
    requires AllSatisfied(tasks, project, refs)
    ensures AllSatisfied(WithDone(tasks, done), project, refs)
  {
    forall i | 0 <= i < |refs| ensures Satisfied(WithDone(tasks, done), project, refs[i]) {
      assert Satisfied(tasks, project, refs[i]);
      if refs[i].TitleRef? {
        LoopSafety.SameTitles(tasks, WithDone(tasks, done), project, refs[i].title);
      }
    }
  }

  /** A scan finds exactly what can run with nothing more done. */
  lemma EligibleFollows(cfg: Config, s: LoopState, scope: set<int>, now: int)
    requires ScopeIs(cfg, s, scope, now) && Settled(cfg, s.db, scope)
    ensures forall id :: id in LoopSafety.Eligible(cfg, s, now) <==> Follows(cfg, s.db, scope, {}, id)
  {
    DoneNothing(s.db.tasks);
    forall id ensures id in LoopSafety.Eligible(cfg, s, now) <==> Follows(cfg, s.db, scope, {}, id) {
      assert LoopSafety.InScope(cfg, s, id, now) <==> id in scope;
    }
  }

  // ---- One pass ----

  /** The execution fixes the scope for the rest of the run. */
  lemma WorkFixesScope(cfg: Config, s: LoopState, t: Turn, task: int, scope: set<int>)
    requires ScopeIs(cfg, s, scope, t.now) && task in scope && AfterWork(cfg, s, t, task).1.Ran?
    requires AfterWork(cfg, s, t, task).1.consumed
               == if s.control.consumed then None
                  else Some(ConsumeVerdict(s.db.approvals, cfg.project, Some(task), t.now).allowed)
    ensures var c := AfterWork(cfg, s, t, task).0.control; c.consumed && c.scope == Some(scope)
  {
    if !s.control.consumed {
      var i := LatestValid(s.db.approvals, cfg.project, t.now).value;
      assert task in s.db.approvals[i].allowed;
      assert ConsumeVerdict(s.db.approvals, cfg.project, Some(task), t.now).allowed == s.db.approvals[i].allowed;
    }
  }

  lemma ExecuteFixesScope(cfg: Config, s: LoopState, t: Turn, task: int, scope: set<int>)
    requires Smooth(cfg, t) && task in Unfinished(s.db.tasks, cfg.project) && Startable(s.db, task)
    requires ScopeIs(cfg, s, scope, t.now) && task in scope
    ensures var c := Execute(cfg, s, t, task).control; c.consumed && c.scope == Some(scope)
  {
    var v := s.(db := Launched(s.db, cfg.run, task));
    assert v.db.approvals == s.db.approvals && v.db.tasks == s.db.tasks && v.db.leases == s.db.leases;
    CoveredIsGrantable(cfg, v, scope, task, t.now);
    ChosenCompletes(cfg, v, t, task);
    WorkFixesScope(cfg, v, t, task, scope);
    var (w, r) := AfterWork(cfg, v, t, task);
    LoopSafety.SettleKeepsRest(cfg, w, task, r, t.now);
  }

  /** A state of a run between two smooth passes. */
  predicate Going(cfg: Config, s: LoopState, scope: set<int>)
  {
    s.phase.Looping? && LoopSafety.Synced(cfg, s) && s.seen.failed < cfg.budget.maxFailures && Settled(cfg, s.db, scope)
  }

  /** A pass that finds something executes one task that can run, and goes on with the same scope. */
  lemma PassAdvances(cfg: Config, s: LoopState, t: Turn, scope: set<int>) returns (task: int)
    requires Going(cfg, s, scope) && Smooth(cfg, t) && ScopeIs(cfg, s, scope, t.now)
    requires s.seen.total < cfg.budget.maxTasks && LoopSafety.Eligible(cfg, s, t.now) != {}
    ensures var u := Pass(cfg, s, t);
            && Follows(cfg, s.db, scope, {}, task) && TaskDone(s.db, u.db, task)
            && u.phase.Looping? && LoopSafety.Synced(cfg, u) && u.seen.failed == s.seen.failed
            && u.seen.total == s.seen.total + 1 && Executions(u.trace) == Executions(s.trace) + 1
            && (forall now :: ScopeIs(cfg, u, scope, now))
  {
    var a := AtScan(cfg, s, t);
    EligibleFollows(cfg, s, scope, t.now);
    LoopSafety.ChoicesExact(cfg, s, t.now);
    LoopSafety.QuietPass(cfg, s, t);
    ScanKeeps(cfg, s, t);
    task := Choices(cfg, s, t.now)[0];
    assert task in Choices(cfg, s, t.now);
    assert Startable(a.db, task) && ScopeIs(cfg, a, scope, t.now);
    ExecuteCompletes(cfg, a, t, task, scope);
    ExecuteFixesScope(cfg, a, t, task, scope);
  }

  /** The same, as the next pass needs it. */
  lemma PassGoesOn(cfg: Config, s: LoopState, t: Turn, scope: set<int>) returns (task: int)
    requires Going(cfg, s, scope) && Smooth(cfg, t) && ScopeIs(cfg, s, scope, t.now)
    requires s.seen.total < cfg.budget.maxTasks && LoopSafety.Eligible(cfg, s, t.now) != {}
    ensures var u := Pass(cfg, s, t);
            && Going(cfg, u, scope) && (forall now :: ScopeIs(cfg, u, scope, now))
            && Follows(cfg, s.db, scope, {}, task) && TaskDone(s.db, u.db, task)
            && u.seen.total == s.seen.total + 1 && Executions(u.trace) == Executions(s.trace) + 1
            && |Unfinished(u.db.tasks, cfg.project) * scope| == |Unfinished(s.db.tasks, cfg.project) * scope| - 1
  {
    task := PassAdvances(cfg, s, t, scope);
    StaysSettled(cfg, s.db, Pass(cfg, s, t).db, scope, task);
    OneLess(s.db.tasks, cfg.project, task, scope);
  }

  lemma StaysSettled(cfg: Config, a: Db, b: Db, scope: set<int>, task: int)
    requires Settled(cfg, a, scope) && TaskDone(a, b, task)
    ensures Settled(cfg, b, scope)
  {
    forall id | && id in scope && IsCandidate(b.tasks, cfg.project, id)
                && FilesOf(b.tasks[id]) != [] && !b.tasks[id].manual
      ensures Startable(b, id)
    {
      assert id != task && Startable(a, id);
    }
  }

  // ---- Reach ----

  /** What can run after a task is done, with a set done in addition. */
  lemma FollowsAfter(cfg: Config, a: Db, b: Db, scope: set<int>, task: int, done: set<int>, id: int)
    requires TaskDone(a, b, task) && a.tasks[task].status == Pending
    ensures Follows(cfg, b, scope, done, id) <==> id != task && Follows(cfg, a, scope, done + {task}, id)
  {
    DoneMore(a.tasks, task, done);
  }

  /** The reach before a task is done is the reach afterwards and the task. */
  lemma ReachGrows(cfg: Config, a: Db, b: Db, scope: set<int>, task: int, done: set<int>)
    requires TaskDone(a, b, task) && a.tasks[task].status == Pending && Follows(cfg, a, scope, {}, task)
    requires IsReach(cfg, b, scope, done)
    ensures IsReach(cfg, a, scope, done + {task})
  {
    forall id | Follows(cfg, a, scope, done + {task}, id) ensures id in done + {task} {
      FollowsAfter(cfg, a, b, scope, task, done, id);
    }
    forall other | ClosedUnder(cfg, a, scope, other) ensures done + {task} <= other {
      DoneNothing(a.tasks);
      MoreIsSatisfied(a.tasks, other, cfg.project, Dependencies(a.tasks[task]));
      assert Follows(cfg, a, scope, other, task);
      assert other + {task} == other;
      forall id | Follows(cfg, b, scope, other, id) ensures id in other {
        FollowsAfter(cfg, a, b, scope, task, other, id);
      }
      assert ClosedUnder(cfg, b, scope, other);
    }
  }

  /** How a run ends that has left these tasks unfinished. */
  predicate EndsWith(u: LoopState, open: set<int>, inhabited: bool)
  {
    u.phase == if open != {} then Ended(RunBlocked, "blocked_no_runnable_tasks")
               else Ended(RunCompleted, if inhabited then "all_completed" else "no_tasks")
  }

  lemma NothingReachable(cfg: Config, s: LoopState, t: Turn, scope: set<int>)
    requires Going(cfg, s, scope) && Smooth(cfg, t) && ScopeIs(cfg, s, scope, t.now)
    requires s.seen.total < cfg.budget.maxTasks && LoopSafety.Eligible(cfg, s, t.now) == {}
    ensures var u := Pass(cfg, s, t);
            && u.trace == s.trace && u.db.tasks == s.db.tasks
            && EndsWith(u, Unfinished(s.db.tasks, cfg.project), Inhabited(s.db.tasks, cfg.project))
    ensures IsReach(cfg, s.db, scope, {})
  {
    var a := AtScan(cfg, s, t);
    EligibleFollows(cfg, s, scope, t.now);
    ScanKeeps(cfg, s, t);
    assert LoopSafety.Eligible(cfg, a, t.now) == LoopSafety.Eligible(cfg, s, t.now);
    NothingEligibleEnds(cfg, a, t);
  }

  /** A run from s to its end u has executed the set, once each, and nothing else; the set is what can
      be reached, and the run ended accordingly. */
  ghost predicate Exhausted(cfg: Config, s: LoopState, u: LoopState, scope: set<int>, done: set<int>)
  {
    && IsReach(cfg, s.db, scope, done) && done <= Unfinished(s.db.tasks, cfg.project) * scope
    && u.db.tasks == WithDone(s.db.tasks, done) && Executions(u.trace) == Executions(s.trace) + |done|
    && EndsWith(u, Unfinished(s.db.tasks, cfg.project) - done, Inhabited(s.db.tasks, cfg.project))
  }

  lemma ExhaustedAtOnce(cfg: Config, s: LoopState, t: Turn, scope: set<int>)
    requires Going(cfg, s, scope) && Smooth(cfg, t) && ScopeIs(cfg, s, scope, t.now)
    requires s.seen.total < cfg.budget.maxTasks && LoopSafety.Eligible(cfg, s, t.now) == {}
    ensures Exhausted(cfg, s, Pass(cfg, s, t), scope, {})
  {
    NothingReachable(cfg, s, t, scope);
    DoneNothing(s.db.tasks);
    assert Unfinished(s.db.tasks, cfg.project) - {} == Unfinished(s.db.tasks, cfg.project);
  }

  lemma ExhaustedNow(cfg: Config, s: LoopState, turns: seq<Turn>, scope: set<int>)
    requires turns != [] && Going(cfg, s, scope) && Smooth(cfg, turns[0]) && ScopeIs(cfg, s, scope, turns[0].now)
    requires s.seen.total < cfg.budget.maxTasks && LoopSafety.Eligible(cfg, s, turns[0].now) == {}
    ensures Exhausted(cfg, s, Loop(cfg, s, turns), scope, {})
  {
    ExhaustedAtOnce(cfg, s, turns[0], scope);
    LoopOver(cfg, Pass(cfg, s, turns[0]), turns[1..]);
  }

  lemma ExhaustedGrows(cfg: Config, s: LoopState, v: LoopState, u: LoopState, scope: set<int>, task: int,
                       rest: set<int>)
    requires TaskDone(s.db, v.db, task) && Follows(cfg, s.db, scope, {}, task)
    requires Executions(v.trace) == Executions(s.trace) + 1 && Exhausted(cfg, v, u, scope, rest)
    ensures Exhausted(cfg, s, u, scope, rest + {task})
  {
    OneLess(s.db.tasks, cfg.project, task, scope);
    ReachGrows(cfg, s.db, v.db, scope, task, rest);
    DoneMore(s.db.tasks, task, rest);
    LeftOver(Unfinished(s.db.tasks, cfg.project), task, rest);
  }

  lemma LeftOver(open: set<int>, task: int, rest: set<int>)
    requires rest <= open - {task}
    ensures open - {task} - rest == open - (rest + {task}) && |rest + {task}| == |rest| + 1
  {
  }

  /** Over an arbitrary queue, with room in the budget: an undisturbed run of successes executes, once
      each, exactly the tasks that can be reached within the scope, and ends completed if that leaves no
      task of the project unfinished, else blocked. */
  lemma {:induction false} ExecutesTheReach(cfg: Config, s: LoopState, turns: seq<Turn>, scope: set<int>)
    returns (done: set<int>)
    requires Going(cfg, s, scope) && forall i :: 0 <= i < |turns| ==> Smooth(cfg, turns[i])
    requires |Unfinished(s.db.tasks, cfg.project) * scope| < |turns|
    requires s.seen.total + |Unfinished(s.db.tasks, cfg.project) * scope| < cfg.budget.maxTasks
    requires ScopeIs(cfg, s, scope, turns[0].now)
    ensures Exhausted(cfg, s, Loop(cfg, s, turns), scope, done)
    decreases |turns|
  {
    var u := Pass(cfg, s, turns[0]);
    if LoopSafety.Eligible(cfg, s, turns[0].now) == {} {
      ExhaustedNow(cfg, s, turns, scope);
      done := {};
    } else {
      var task := PassGoesOn(cfg, s, turns[0], scope);
      var rest := ExecutesTheReach(cfg, u, turns[1..], scope);
      ExhaustedGrows(cfg, s, u, Loop(cfg, u, turns[1..]), scope, task, rest);
      done := rest + {task};
    }
  }

  lemma OneLess(tasks: map<int, Task>, project: int, task: int, scope: set<int>)
    requires task in Unfinished(tasks, project) && task in scope
    ensures var open := Unfinished(Finished(tasks, task), project);
            && open == Unfinished(tasks, project) - {task}
            && |open * scope| == |Unfinished(tasks, project) * scope| - 1
            && (Inhabited(Finished(tasks, task), project) <==> Inhabited(tasks, project))
  {
    FinishingShrinks(tasks, project, task);
    FinishingInhabits(tasks, project, task);
    assert (Unfinished(tasks, project) - {task}) * scope == Unfinished(tasks, project) * scope - {task};
  }
}
