/** The executor_runs table: creation, status updates, heartbeats, takeover and recovery of a run. */
module Runs {
  import opened Schema

  /** The statuses the partial unique index ranges over. */
  predicate IsLive(status: RunStatus)
  {
    status in {Starting, Scanning, Claiming, Executing, Testing, Repairing, Paused, Stopping}
  }

  predicate AtRest(status: RunStatus)
  {
    status in {Idle, RunCompleted, RunBlocked, RunFailed}
  }

  /** A run is live unless it is idle or at an end. */
  lemma NotLive(status: RunStatus)
    ensures IsLive(status) <==> !AtRest(status)
  {
    match status {
      case Idle | RunCompleted | RunBlocked | RunFailed =>
      case _ =>
    }
  }

  predicate LiveFor(r: Run, project: int)
  {
    IsLive(r.status) && r.project == Some(project)
  }

  /** No project has two live runs. */
  predicate OneLive(runs: seq<Run>)
  {
    forall i, j :: 0 <= i < j < |runs| && IsLive(runs[i].status) && IsLive(runs[j].status) && runs[i].project.Some? ==>
      runs[i].project != runs[j].project
  }

  predicate Exists(runs: seq<Run>, run: int) { 1 <= run <= |runs| }

  function NewRun(project: int, worker: nat, now: int): Run
  {
    Run(Some(project), worker, Starting, Some(now), None, 0, 0, 0, 0, 0, 0, "", None)
  }

  predicate HasLive(runs: seq<Run>, project: int)
  {
    exists i :: 0 <= i < |runs| && LiveFor(runs[i], project)
  }

  /** create_starting_run: the insert succeeds unless the project is unknown or has a run that is neither
      idle nor at an end. */
  method CreateStartingRun(db: Database, project: int, now: int) returns (run: Option<int>)
    modifies db`runs, db`supply
    ensures run.Some? <==>
              && project in db.projects
              && forall i :: 0 <= i < |old(db.runs)| && old(db.runs)[i].project == Some(project) ==>
                   AtRest(old(db.runs)[i].status)
    ensures run.Some? <==> project in db.projects && !HasLive(old(db.runs), project)
    ensures run.Some? ==> run.value == |old(db.runs)| + 1 && db.supply == old(db.supply) + 1
                          && db.runs == old(db.runs) + [NewRun(project, old(db.supply), now)]
    ensures run.None? ==> db.runs == old(db.runs) && db.supply == old(db.supply)
  {
    if project !in db.projects || HasLive(db.runs, project) {
      return None;    // sqlite3.IntegrityError
    }
    forall status: RunStatus ensures IsLive(status) || AtRest(status) {
      NotLive(status);
    }
    assert forall i :: 0 <= i < |db.runs| ==> !LiveFor(db.runs[i], project);
    db.runs := db.runs + [NewRun(project, db.supply, now)];
    db.supply := db.supply + 1;
    return Some(|db.runs|);
  }

  /** get_active_run: the live run of the project with the greatest id. */
  method GetActiveRun(db: Database, project: int) returns (run: Option<int>)
    ensures run.Some? <==> HasLive(db.runs, project)
    ensures run.Some? ==> Exists(db.runs, run.value) && LiveFor(db.runs[run.value - 1], project)
                          && forall i :: run.value <= i < |db.runs| ==> !LiveFor(db.runs[i], project)
  {
    for i := |db.runs| downto 0
      invariant forall j :: i <= j < |db.runs| ==> !LiveFor(db.runs[j], project)
    {
      if LiveFor(db.runs[i], project) {
        return Some(i + 1);
      }
    }
    return None;
  }

  /** The columns of an update_status call; those given as None are left alone. */
  datatype Patch = Patch(status: Option<RunStatus>, currentTask: Option<int>, reason: Option<string>,
                         finishedAt: Option<int>, otherColumns: bool)

  predicate IsEmpty(p: Patch)
  {
    p.status.None? && p.currentTask.None? && p.reason.None? && p.finishedAt.None? && !p.otherColumns
  }

  function Patched(r: Run, p: Patch): Run
  {
    r.(status := if p.status.Some? then p.status.value else r.status,
       currentTask := if p.currentTask.Some? then p.currentTask else r.currentTask,
       reason := if p.reason.Some? then p.reason.value else r.reason,
       finishedAt := if p.finishedAt.Some? then p.finishedAt else r.finishedAt)
  }

  /** The update goes through: there is something to set, the run exists, references resolve, and the
      unique index allows the new status. */
  predicate Updatable(runs: seq<Run>, run: int, p: Patch, refsOk: bool)
  {
    && !IsEmpty(p) && Exists(runs, run) && refsOk
    && (IsLive(Patched(runs[run - 1], p).status) ==>
          forall j :: 0 <= j < |runs| && j != run - 1 && IsLive(runs[j].status) && runs[j].project.Some? ==>
            runs[j].project != runs[run - 1].project)
  }

  function UpdatedRuns(runs: seq<Run>, run: int, p: Patch, refsOk: bool): (r: seq<Run>)
    ensures |r| == |runs|
  {
    if Updatable(runs, run, p, refsOk) then runs[run - 1 := Patched(runs[run - 1], p)] else runs
  }

  /** current_task_id references development_tasks. */
  predicate PatchRefsOk(tasks: map<int, Task>, p: Patch)
  {
    p.currentTask.Some? ==> p.currentTask.value in tasks
  }

  method UpdateStatus(db: Database, run: int, p: Patch) returns (ok: bool)
    modifies db`runs
    ensures ok <==> Updatable(old(db.runs), run, p, PatchRefsOk(db.tasks, p))
    ensures db.runs == UpdatedRuns(old(db.runs), run, p, PatchRefsOk(db.tasks, p))
  {
    ok := Updatable(db.runs, run, p, PatchRefsOk(db.tasks, p));
    if ok {
      db.runs := db.runs[run - 1 := Patched(db.runs[run - 1], p)];
    }
  }

  function Beaten(runs: seq<Run>, run: int, now: int): (r: seq<Run>)
    ensures |r| == |runs|
  {
    if Exists(runs, run) then runs[run - 1 := runs[run - 1].(heartbeat := Some(now))] else runs
  }

  method UpdateHeartbeat(db: Database, run: int, now: int) returns (ok: bool)
    modifies db`runs
    ensures ok <==> Exists(db.runs, run)
    ensures db.runs == Beaten(old(db.runs), run, now)
  {
    ok := Exists(db.runs, run);
    db.runs := Beaten(db.runs, run, now);
  }

  /** A missing heartbeat counts as expired. */
  predicate Expired(heartbeat: Option<int>, now: int, timeout: int)
  {
    heartbeat.Some? ==> heartbeat.value < now - timeout
  }

  predicate Stealable(r: Run, now: int, timeout: int)
  {
    IsLive(r.status) && Expired(r.heartbeat, now, timeout)
  }

  predicate StealableFor(r: Run, project: int, now: int, timeout: int)
  {
    r.project == Some(project) && Stealable(r, now, timeout)
  }

  function LastStealable(runs: seq<Run>, project: int, now: int, timeout: int): (r: Option<nat>)
    ensures r.Some? ==> r.value < |runs| && StealableFor(runs[r.value], project, now, timeout)
    ensures r.None? <==> forall i :: 0 <= i < |runs| ==> !StealableFor(runs[i], project, now, timeout)
    ensures r.Some? ==> forall i :: r.value < i < |runs| ==> !StealableFor(runs[i], project, now, timeout)
  {
    if runs == [] then None
    else
      var n := |runs| - 1;
      assert forall i :: 0 <= i < n ==> runs[..n][i] == runs[i];
      if StealableFor(runs[n], project, now, timeout) then Some(n)
      else LastStealable(runs[..n], project, now, timeout)
  }

  function Stolen(runs: seq<Run>, index: nat, worker: nat, now: int): (r: seq<Run>)
    requires index < |runs|
    ensures |r| == |runs|
  {
    runs[index := runs[index].(worker := worker, heartbeat := Some(now))]
  }

  /** takeover_expired_run */
  method TakeoverExpiredRun(db: Database, project: int, worker: nat, now: int, timeout: int) returns (run: Option<int>)
    modifies db`runs
    ensures var i := LastStealable(old(db.runs), project, now, timeout);
            if i.Some? then run == Some(i.value + 1) && db.runs == Stolen(old(db.runs), i.value, worker, now)
            else run == None && db.runs == old(db.runs)
  {
    var i := LastStealable(db.runs, project, now, timeout);
    if i == None {
      return None;
    }
    db.runs := Stolen(db.runs, i.value, worker, now);
    return Some(i.value + 1);
  }

  datatype RecoveryAction = Skipped | MarkedBlocked | Resumed

  /** get_recovery_state: a run whose current task is completed or blocked is not resumed. */
  predicate CanResume(tasks: map<int, Task>, currentTask: Option<int>)
  {
    currentTask.Some? && currentTask.value in tasks ==> tasks[currentTask.value].status !in {Completed, Blocked}
  }

  function RecoveredRuns(runs: seq<Run>, run: int, worker: nat, now: int, timeout: int): (r: seq<Run>)
    ensures |r| == |runs|
  {
    if Exists(runs, run) && Stealable(runs[run - 1], now, timeout) then
      runs[run - 1 := runs[run - 1].(status := Starting, worker := worker, heartbeat := Some(now), currentTask := None)]
    else runs
  }

  function MarkBlocked(runs: seq<Run>, run: int, now: int): (r: seq<Run>)
    ensures |r| == |runs|
  {
    if Exists(runs, run) then
      runs[run - 1 := runs[run - 1].(status := RunBlocked, reason := "recovery_blocked", finishedAt := Some(now))]
    else runs
  }

  function ExpireLease(leases: map<int, Lease>, task: int, now: int): map<int, Lease>
  {
    if task in leases && leases[task].status == LeaseActive
    then leases[task := leases[task].(status := LeaseExpired, releasedAt := Some(now))] else leases
  }

  predicate HoldsLease(leases: map<int, Lease>, task: Option<int>)
  {
    task.Some? && task.value in leases && leases[task.value].status == LeaseActive
  }

  /** The transactions of one attempt: the check with the reads, then a second update, then the
      takeover, with what other processes do in between. */
  datatype Attempt = Attempt(checkedAt: int, actedAt: int, takenAt: int, afterRead: Db -> Db, afterLease: Db -> Db)

  /** What the takeover finds: a lease seen active is expired, and others have acted. */
  function BeforeTakeover(db: Db, seen: Run, a: Attempt): Db
  {
    var d := a.afterRead(db);
    a.afterLease(if HoldsLease(db.leases, seen.currentTask)
                 then d.(leases := ExpireLease(d.leases, seen.currentTask.value, a.actedAt)) else d)
  }

  /** The takeover at the end of an attempt. */
  function Retaken(db: Db, run: int, worker: nat, now: int, timeout: int): (Db, RecoveryAction)
  {
    if Exists(db.runs, run) && Stealable(db.runs[run - 1], now, timeout)
    then (db.(runs := RecoveredRuns(db.runs, run, worker, now, timeout)), Resumed) else (db, Skipped)
  }

  /** attempt_recovery on a row read earlier: `seen` is the snapshot the caller holds. The task's
      lease is expired before the conditional takeover. */
  function Attempted(db: Db, run: int, seen: Run, worker: nat, a: Attempt, timeout: int): (Db, RecoveryAction)
  {
    if !Expired(seen.heartbeat, a.checkedAt, timeout) then (db, Skipped)
    else
      var d := a.afterRead(db);
      if !CanResume(db.tasks, seen.currentTask) then (d.(runs := MarkBlocked(d.runs, run, a.actedAt)), MarkedBlocked)
      else
        Retaken(BeforeTakeover(db, seen, a), run, worker, a.takenAt, timeout)
  }

  method AttemptRecovery(db: Database, run: int, seen: Run, worker: nat, a: Attempt, timeout: int)
    returns (action: RecoveryAction)
    modifies db
    ensures (db.State(), action) == Attempted(old(db.State()), run, seen, worker, a, timeout)
  {
    if !Expired(seen.heartbeat, a.checkedAt, timeout) {
      return Skipped;
    }
    var canResume, holdsLease := CanResume(db.tasks, seen.currentTask), HoldsLease(db.leases, seen.currentTask);
    Interfere(db, a.afterRead);
    if !canResume {
      db.runs := MarkBlocked(db.runs, run, a.actedAt);
      return MarkedBlocked;
    }
    if holdsLease {
      db.leases := ExpireLease(db.leases, seen.currentTask.value, a.actedAt);
    }
    Interfere(db, a.afterLease);
    if !(Exists(db.runs, run) && Stealable(db.runs[run - 1], a.takenAt, timeout)) {
      return Skipped;
    }
    db.runs := RecoveredRuns(db.runs, run, worker, a.takenAt, timeout);
    return Resumed;
  }

  /** Whatever others do in between, an attempt that resumes a run does so on a row that is live and whose
      heartbeat is too old at that time, and gives it the new worker and a heartbeat of that time. */
  lemma ResumedExactly(db: Db, run: int, seen: Run, worker: nat, a: Attempt, timeout: int)
    ensures var (d, action) := Attempted(db, run, seen, worker, a, timeout);
            var e := BeforeTakeover(db, seen, a);
            action == Resumed ==>
              && Exists(e.runs, run) && !AtRest(e.runs[run - 1].status)
              && (e.runs[run - 1].heartbeat.Some? ==> a.takenAt > e.runs[run - 1].heartbeat.value + timeout)
              && d == e.(runs := e.runs[run - 1 := e.runs[run - 1].(status := Starting, worker := worker,
                                                                    heartbeat := Some(a.takenAt),
                                                                    currentTask := None)])
  {
  }

  /** An attempt on a stale snapshot that takes nothing over has still expired a lease exactly when
      the snapshot's task may be resumed, its lease was active, and the run is not stealable any more
      when the takeover comes. */
  lemma LeaseLostExactly(db: Db, run: int, seen: Run, worker: nat, a: Attempt, timeout: int)
    requires Expired(seen.heartbeat, a.checkedAt, timeout)
    requires forall d :: a.afterRead(d).leases == d.leases && a.afterLease(d).leases == d.leases
    ensures var (d, action) := Attempted(db, run, seen, worker, a, timeout);
            var runs := BeforeTakeover(db, seen, a).runs;
            action == Skipped && d.leases != db.leases <==>
              && !IsOver(db.tasks, seen.currentTask)
              && seen.currentTask.Some? && seen.currentTask.value in db.leases
              && db.leases[seen.currentTask.value].status == LeaseActive
              && !(Exists(runs, run) && Stealable(runs[run - 1], a.takenAt, timeout))
    ensures var d := Attempted(db, run, seen, worker, a, timeout).0;
            d.leases != db.leases ==>
              && seen.currentTask.Some? && seen.currentTask.value in db.leases
              && var row := db.leases[seen.currentTask.value];
                 d.leases == db.leases[seen.currentTask.value := row.(status := LeaseExpired,
                                                                      releasedAt := Some(a.actedAt))]
  {
    var d := a.afterRead(db);
    assert d.leases == db.leases;
    if HoldsLease(db.leases, seen.currentTask) {
      var e := d.(leases := ExpireLease(d.leases, seen.currentTask.value, a.actedAt));
      assert a.afterLease(e).leases == e.leases;
      assert e.leases[seen.currentTask.value] != db.leases[seen.currentTask.value];
    }
  }

  /** A finished run is overwritten as blocked exactly when the snapshot is stale and its task is
      completed or blocked; its present status is not asked. */
  lemma FinishedOverwrittenExactly(db: Db, run: int, seen: Run, worker: nat, a: Attempt, timeout: int)
    requires forall d :: a.afterRead(d).runs == d.runs && a.afterLease(d).runs == d.runs
    requires Exists(db.runs, run) && !IsLive(db.runs[run - 1].status) && db.runs[run - 1].status != RunBlocked
    ensures var d := Attempted(db, run, seen, worker, a, timeout).0;
            && |d.runs| == |db.runs|
            && (d.runs[run - 1].status == RunBlocked <==>
                  && (seen.heartbeat.Some? ==> a.checkedAt > seen.heartbeat.value + timeout)
                  && IsOver(db.tasks, seen.currentTask))
            && (d.runs[run - 1].status == RunBlocked ==> d.runs[run - 1].finishedAt == Some(a.actedAt))
            && (d.runs[run - 1].status != RunBlocked ==> d.runs == db.runs)
  {
    assert a.afterRead(db).runs == db.runs;
  }

  /** Nobody else acts during the attempt. */
  function Alone(now: int): Attempt
  {
    Attempt(now, now, now, (d: Db) => d, (d: Db) => d)
  }

  /** The task must not be worked on again: it is completed or blocked. */
  predicate IsOver(tasks: map<int, Task>, task: Option<int>)
  {
    task.Some? && task.value in tasks && tasks[task.value].status in {Completed, Blocked}
  }

  /** An attempt nobody disturbs, on a live run as it is: it does nothing within the timeout after the
      last heartbeat; afterwards it blocks the run if its current task is completed or blocked, and else
      ends the active lease of that task, if there is one, and restarts the run without it for the new
      worker. */
  lemma AttemptExact(db: Db, run: int, worker: nat, now: int, timeout: int)
    requires Exists(db.runs, run) && IsLive(db.runs[run - 1].status)
    ensures var row := db.runs[run - 1];
            var (d, action) := Attempted(db, run, row, worker, Alone(now), timeout);
            && (action == Skipped <==> row.heartbeat.Some? && now <= row.heartbeat.value + timeout)
            && (action == MarkedBlocked <==> action != Skipped && IsOver(db.tasks, row.currentTask))
            && (action == Skipped ==> d == db)
            && (action == MarkedBlocked ==>
                  d == db.(runs := db.runs[run - 1 := row.(status := RunBlocked, finishedAt := Some(now),
                                                           reason := d.runs[run - 1].reason)]))
            && (action == Resumed ==>
                  && d == db.(runs := db.runs[run - 1 := row.(status := Starting, worker := worker, currentTask := None,
                                                              heartbeat := Some(now))], leases := d.leases)
                  && d.leases.Keys == db.leases.Keys
                  && forall t :: t in db.leases ==>
                       d.leases[t] == if Some(t) == row.currentTask && db.leases[t].status == LeaseActive
                                      then db.leases[t].(status := LeaseExpired, releasedAt := Some(now))
                                      else db.leases[t])
  {
    var row := db.runs[run - 1];
    assert CanResume(db.tasks, row.currentTask) <==> !IsOver(db.tasks, row.currentTask);
    var d := BeforeTakeover(db, row, Alone(now));
    assert d == db.(leases := d.leases);
  }

  /** Two recoveries that read the same stale row: the second one loses the race for the run and takes
      the lease of a task that is being worked on. And a recovery that read a run before it completed
      turns it into a blocked one. */
  lemma LateRecoveries(worker: nat, other: nat, task: Task)
    requires task.status == Pending
    ensures var seen := NewRun(1, other, 0).(currentTask := Some(7));
            var lease := Lease(other, LeaseActive, 150, Some(3750), None);
            var db := Db([], map[7 := lease], [], [seen.(heartbeat := Some(150))], [], map[7 := task], map[], 0);
            Attempted(db, 1, seen, worker, Alone(200), 120)
              == (db.(leases := map[7 := lease.(status := LeaseExpired, releasedAt := Some(200))]), Skipped)
    ensures var seen := NewRun(1, other, 0).(currentTask := Some(7));
            var tasks := map[7 := task.(status := Completed)];
            var db := Db([], map[], [], [seen.(status := RunCompleted)], [], tasks, map[], 0);
            Attempted(db, 1, seen, worker, Alone(200), 120).0.runs[0].status == RunBlocked
  {
    var seen := NewRun(1, other, 0).(currentTask := Some(7));
    var lease := Lease(other, LeaseActive, 150, Some(3750), None);
    var db := Db([], map[7 := lease], [], [seen.(heartbeat := Some(150))], [], map[7 := task], map[], 0);
    var after := ExpireLease(db.leases, 7, 200);
    assert after == map[7 := lease.(status := LeaseExpired, releasedAt := Some(200))];
    assert Retaken(db.(leases := after), 1, worker, 200, 120) == (db.(leases := after), Skipped);
  }

  /** A run taken over belongs to the new worker and is otherwise the same; no other run changes, and
      nobody can take it over again until the timeout has passed without a heartbeat. */
  lemma TakeoverExact(runs: seq<Run>, project: int, worker: nat, now: int, timeout: int)
    ensures match LastStealable(runs, project, now, timeout)
            case None => forall i :: 0 <= i < |runs| && LiveFor(runs[i], project) ==>
                runs[i].heartbeat.Some? && now <= runs[i].heartbeat.value + timeout
            case Some(i) =>
              var u := Stolen(runs, i, worker, now);
              && runs[i].project == Some(project)
              && (runs[i].heartbeat.Some? ==> now > runs[i].heartbeat.value + timeout)
              && u[i] == runs[i].(worker := worker, heartbeat := Some(now))
              && (forall later :: Stealable(u[i], later, timeout) <==> later > now + timeout)
              && (forall j :: 0 <= j < |runs| && j != i ==> u[j] == runs[j])
  {
  }

  /** A resumed run starts over, without a task, for the new worker; a run marked blocked gives way to
      a new run of its project. */
  lemma RecoveryExact(runs: seq<Run>, run: int, worker: nat, now: int, timeout: int)
    requires OneLive(runs) && Exists(runs, run) && Stealable(runs[run - 1], now, timeout)
    ensures var u, v := RecoveredRuns(runs, run, worker, now, timeout), MarkBlocked(runs, run, now);
            var a, b, c := runs[run - 1], u[run - 1], v[run - 1];
            && b == a.(status := Starting, worker := worker, heartbeat := Some(now), currentTask := None) && OneLive(u)
            && (forall later :: Stealable(b, later, timeout) <==> later > now + timeout)
            && c == a.(status := RunBlocked, reason := c.reason, finishedAt := Some(now))
            && (a.project.Some? ==> !HasLive(v, a.project.value))
            && (forall j :: 0 <= j < |runs| && j != run - 1 ==> u[j] == runs[j] && v[j] == runs[j])
  {
  }

  /** References aside, an update is refused exactly when it would make a run live whose project has
      another live run. So a finished run can be set live again as soon as its project is free,
      although finalize_run calls its status terminal. */
  lemma UpdateExact(runs: seq<Run>, run: int, p: Patch)
    requires OneLive(runs) && Exists(runs, run) && !IsEmpty(p)
    ensures var row, u := runs[run - 1], UpdatedRuns(runs, run, p, true);
            && OneLive(u) && (forall j :: 0 <= j < |runs| && j != run - 1 ==> u[j] == runs[j])
            && (Updatable(runs, run, p, true) <==>
                  !(p.status.Some? && IsLive(p.status.value) && !IsLive(row.status)
                    && row.project.Some? && HasLive(runs, row.project.value)))
            && (Updatable(runs, run, p, true) ==> SetTo(row, u[run - 1], p))
            && (!Updatable(runs, run, p, true) ==> u == runs)
  {
  }

  /** The columns that are given have been set, all others are as they were. */
  predicate SetTo(a: Run, b: Run, p: Patch)
  {
    && (if p.status.Some? then Some(b.status) == p.status else b.status == a.status)
    && (if p.currentTask.Some? then b.currentTask == p.currentTask else b.currentTask == a.currentTask)
    && (if p.reason.Some? then Some(b.reason) == p.reason else b.reason == a.reason)
    && (if p.finishedAt.Some? then b.finishedAt == p.finishedAt else b.finishedAt == a.finishedAt)
    && b == a.(status := b.status, currentTask := b.currentTask, reason := b.reason, finishedAt := b.finishedAt)
  }

  /** No update makes a run point to a task that does not exist. */
  lemma UpdateKeepsReferences(runs: seq<Run>, tasks: map<int, Task>, run: int, p: Patch)
    requires forall i :: 0 <= i < |runs| ==> runs[i].currentTask == None || runs[i].currentTask.value in tasks
    ensures var u := UpdatedRuns(runs, run, p, PatchRefsOk(tasks, p));
            forall i :: 0 <= i < |u| ==> u[i].currentTask == None || u[i].currentTask.value in tasks
  {
  }

  /** A new run is the only live one of its project, starts from nothing, and is as safe from takeover
      as if it had just sent a heartbeat. */
  lemma NewRunExact(runs: seq<Run>, project: int, worker: nat, now: int, timeout: int)
    requires OneLive(runs) && !HasLive(runs, project)
    ensures var u := runs + [NewRun(project, worker, now)]; var row := u[|runs|];
            && OneLive(u) && LiveFor(row, project) && row.status == Starting && row.worker == worker
            && row.currentTask == None && row.finishedAt == None && row.reason == ""
            && row.total == row.completed == row.blocked == row.failed == 0
            && (forall later :: Stealable(row, later, timeout) <==> later > now + timeout)
  {
  }

  /** A heartbeat protects its run from takeover for the timeout, and no other run. */
  lemma HeartbeatExact(runs: seq<Run>, run: int, now: int, timeout: int)
    requires Exists(runs, run)
    ensures var u := Beaten(runs, run, now);
            var before, after := runs[run - 1], u[run - 1];
            && after.(heartbeat := before.heartbeat) == before
            && (IsLive(before.status) ==> forall later :: Stealable(after, later, timeout) <==> later > now + timeout)
            && (forall j :: 0 <= j < |runs| && j != run - 1 ==> u[j] == runs[j])
  {
  }
}
