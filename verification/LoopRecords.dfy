/** What a loop announces is on record in the tables. */
module LoopRecords {
  import opened Schema
  import opened Approvals
  import opened Cleanup
  import opened TaskWorker
  import opened LoopController
  import LoopSafety

  /** Recorded consumptions stay as recorded, and execution rows keep their task and worker. */
  predicate Keeps(a: Db, b: Db)
  {
    && |a.approvals| <= |b.approvals| && |a.executions| <= |b.executions|
    && (forall i :: 0 <= i < |a.approvals| ==> ApprovalKept(a.approvals[i], b.approvals[i]))
    && (forall i :: 0 <= i < |a.executions| ==> ExecutionKept(a.executions[i], b.executions[i]))
  }

  predicate ApprovalKept(a: Approval, b: Approval)
  {
    a.consumedAt.Some? ==>
      && b.consumedAt == a.consumedAt && b.consumedRun == a.consumedRun
      && b.consumedTask == a.consumedTask && b.allowed == a.allowed
  }

  predicate ExecutionKept(a: Execution, b: Execution)
  {
    b.task == a.task && b.worker == a.worker
  }

  /** Other processes keep the records too. */
  ghost predicate RecordsKept(t: Turn)
  {
    && (forall d :: Keeps(d, t.before(d)) && Keeps(d, t.during(d)))
    && (t.pause.PausedFor? ==> forall d :: Keeps(d, t.pause.meanwhile(d)))
  }

  /** A consumption has an approval row that names this run and the task; an execution has its row. */
  predicate Backed(cfg: Config, db: Db, e: Event)
  {
    match e
    case ConsumedApproval(task, allowed) =>
      exists i :: 0 <= i < |db.approvals| && ConsumedFor(cfg, db.approvals[i], task, allowed)
    case Executed(task, execution, _) =>
      1 <= execution <= |db.executions| && db.executions[execution - 1].task == task
      && db.executions[execution - 1].worker == cfg.worker
  }

  predicate ConsumedFor(cfg: Config, a: Approval, task: int, allowed: seq<int>)
  {
    a.consumedAt.Some? && a.consumedRun == Some(cfg.run) && a.consumedTask == Some(task) && a.allowed == allowed
  }

  predicate AllBacked(cfg: Config, db: Db, trace: seq<Event>)
  {
    forall i :: 0 <= i < |trace| ==> Backed(cfg, db, trace[i])
  }

  lemma KeepsTransitive(a: Db, b: Db, c: Db)
    requires Keeps(a, b) && Keeps(b, c)
    ensures Keeps(a, c)
  {
    forall i | 0 <= i < |a.approvals| ensures ApprovalKept(a.approvals[i], c.approvals[i]) {
      assert ApprovalKept(a.approvals[i], b.approvals[i]) && ApprovalKept(b.approvals[i], c.approvals[i]);
    }
    forall i | 0 <= i < |a.executions| ensures ExecutionKept(a.executions[i], c.executions[i]) {
      assert ExecutionKept(a.executions[i], b.executions[i]) && ExecutionKept(b.executions[i], c.executions[i]);
    }
  }

  lemma BackedStays(cfg: Config, a: Db, b: Db, trace: seq<Event>)
    requires Keeps(a, b) && AllBacked(cfg, a, trace)
    ensures AllBacked(cfg, b, trace)
  {
    forall j | 0 <= j < |trace| ensures Backed(cfg, b, trace[j]) {
      assert Backed(cfg, a, trace[j]);
      match trace[j] {
        case ConsumedApproval(task, allowed) =>
          var i :| 0 <= i < |a.approvals| && ConsumedFor(cfg, a.approvals[i], task, allowed);
          assert ApprovalKept(a.approvals[i], b.approvals[i]);
        case Executed(_, execution, _) =>
          assert ExecutionKept(a.executions[execution - 1], b.executions[execution - 1]);
      }
    }
  }

  /** Approvals and executions as they were. */
  lemma SameRecords(a: Db, b: Db)
    requires b.approvals == a.approvals && b.executions == a.executions
    ensures Keeps(a, b)
  {
  }

  lemma TaskIsRecorded(db: Db, task: int, cfg: Config, consume: bool, o: Outcome, now: int)
    ensures var (d, r) := AfterTask(db, task, cfg.project, cfg.worker, cfg.run, consume, o, now);
            && Keeps(db, d)
            && (r.Ran? ==> Backed(cfg, d, Executed(task, r.execution, TaskStatusOf(ExitOf(o)))))
            && (r.Ran? && consume ==>
                  var v := ConsumeVerdict(db.approvals, cfg.project, Some(task), now);
                  v.Taken? && Backed(cfg, d, ConsumedApproval(task, v.allowed)))
  {
    var (d, r) := AfterTask(db, task, cfg.project, cfg.worker, cfg.run, consume, o, now);
    if r.Ran? && consume {
      var v := ConsumeVerdict(db.approvals, cfg.project, Some(task), now);
      assert ConsumedFor(cfg, d.approvals[v.row], task, v.allowed);
    }
  }

  lemma AnnouncementBacked(cfg: Config, offered: Db, consumed: bool, t: Turn, task: int)
    ensures var d := AfterTask(offered, task, cfg.project, cfg.worker, cfg.run, !consumed, t.outcome, t.now).0;
            Keeps(offered, d) && AllBacked(cfg, d, Announcement(offered, consumed, cfg, t, task))
  {
    TaskIsRecorded(offered, task, cfg, !consumed, t.outcome, t.now);
  }

  lemma WorkBacked(cfg: Config, s: LoopState, t: Turn, task: int)
    requires AllBacked(cfg, s.db, s.trace) && RecordsKept(t)
    ensures var w := AfterWork(cfg, s, t, task).0; AllBacked(cfg, w.db, w.trace)
  {
    var offered, w := t.during(s.db), AfterWork(cfg, s, t, task).0;
    BackedStays(cfg, s.db, offered, s.trace);
    if Promptless(s.db.tasks, task) {
      SameRecords(offered, w.db);
      BackedStays(cfg, offered, w.db, s.trace);
    } else {
      AnnouncementBacked(cfg, offered, s.control.consumed, t, task);
      BackedStays(cfg, offered, w.db, s.trace);
    }
  }

  lemma ExecuteBacked(cfg: Config, s: LoopState, t: Turn, task: int)
    requires AllBacked(cfg, s.db, s.trace) && RecordsKept(t)
    ensures var u := Execute(cfg, s, t, task); AllBacked(cfg, u.db, u.trace)
  {
    var v, u := s.(db := Launched(s.db, cfg.run, task)), Execute(cfg, s, t, task);
    SameRecords(s.db, v.db);
    BackedStays(cfg, s.db, v.db, s.trace);
    if t.fault.PreparationFails? {
      SameRecords(v.db, u.db);
      BackedStays(cfg, v.db, u.db, s.trace);
    } else {
      WorkBacked(cfg, v, t, task);
      var (w, r) := AfterWork(cfg, v, t, task);
      SameRecords(w.db, u.db);
      BackedStays(cfg, w.db, u.db, w.trace);
    }
  }

  /** Whatever happens before the scan keeps the records. */
  lemma EntryKeeps(cfg: Config, s: LoopState, t: Turn)
    requires RecordsKept(t)
    ensures Keeps(s.db, t.before(s.db)) && Keeps(s.db, Waited(cfg, t.before(s.db), t))
    ensures Keeps(s.db, AtScan(cfg, s, t).db)
  {
    var db := t.before(s.db);
    if t.pause.PausedFor? {
      var shown := WithStatus(db, cfg.run, StatusPatch(Paused));
      SameRecords(db, shown);
      KeepsTransitive(db, shown, t.pause.meanwhile(shown));
      KeepsTransitive(s.db, db, t.pause.meanwhile(shown));
    }
    SameRecords(Waited(cfg, db, t), AtScan(cfg, s, t).db);
    KeepsTransitive(s.db, Waited(cfg, db, t), AtScan(cfg, s, t).db);
  }

  lemma ScanBacked(cfg: Config, s: LoopState, t: Turn)
    requires AllBacked(cfg, s.db, s.trace) && RecordsKept(t)
    ensures var u := ScanPass(cfg, s, t); AllBacked(cfg, u.db, u.trace)
  {
    if !t.fault.ScanFails? && Choices(cfg, s, t.now) != [] {
      ExecuteBacked(cfg, s, t, Choices(cfg, s, t.now)[0]);
    } else {
      SameRecords(s.db, ScanPass(cfg, s, t).db);
      BackedStays(cfg, s.db, ScanPass(cfg, s, t).db, s.trace);
    }
  }

  lemma PassBacked(cfg: Config, s: LoopState, t: Turn)
    requires AllBacked(cfg, s.db, s.trace) && RecordsKept(t)
    ensures var u := Pass(cfg, s, t); AllBacked(cfg, u.db, u.trace)
  {
    if s.phase.Looping? {
      var db, u := t.before(s.db), Pass(cfg, s, t);
      EntryKeeps(cfg, s, t);
      if t.stop {
        SameRecords(db, u.db);
        KeepsTransitive(s.db, db, u.db);
        BackedStays(cfg, s.db, u.db, s.trace);
      } else if || (t.pause.PausedFor? && t.pause.stopped)
                || CheckRunBudget(cfg.budget, s.seen, t.elapsed) != WithinBudget {
        SameRecords(Waited(cfg, db, t), u.db);
        KeepsTransitive(s.db, Waited(cfg, db, t), u.db);
        BackedStays(cfg, s.db, u.db, s.trace);
      } else {
        BackedStays(cfg, s.db, AtScan(cfg, s, t).db, s.trace);
        ScanBacked(cfg, AtScan(cfg, s, t), t);
      }
    }
  }

  lemma {:induction false} BackedKept(cfg: Config, s: LoopState, turns: seq<Turn>)
    requires AllBacked(cfg, s.db, s.trace) && forall i :: 0 <= i < |turns| ==> RecordsKept(turns[i])
    ensures var u := Loop(cfg, s, turns); AllBacked(cfg, u.db, u.trace)
    decreases |turns|
  {
    if turns != [] {
      PassBacked(cfg, s, turns[0]);
      BackedKept(cfg, Pass(cfg, s, turns[0]), turns[1..]);
    }
  }

  /** Over every run from its start: each execution is on record for its task and this worker, and it
      directly follows, or lies within what was allowed by, a consumption that an approval row records
      for this run. */
  lemma ApprovedOnRecord(cfg: Config, s: LoopState, turns: seq<Turn>)
    requires LoopSafety.JustStarted(s) && forall i :: 0 <= i < |turns| ==> RecordsKept(turns[i])
    ensures var u := Loop(cfg, Begun(cfg, s), turns);
            forall i :: 0 <= i < |u.trace| && u.trace[i].Executed? ==>
              Backed(cfg, u.db, u.trace[i]) && OnRecord(cfg, u.db, u.trace[i].task)
  {
    var u := Loop(cfg, Begun(cfg, s), turns);
    BackedKept(cfg, Begun(cfg, s), turns);
    LoopSafety.ScopeSafety(cfg, s, turns);
    forall i | 0 <= i < |u.trace| && u.trace[i].Executed?
      ensures Backed(cfg, u.db, u.trace[i]) && OnRecord(cfg, u.db, u.trace[i].task)
    {
      CoveringRow(cfg, u, i);
    }
  }

  /** The approval was consumed by this run, and lists the task or, with no list, was consumed for it. */
  predicate Covers(cfg: Config, a: Approval, task: int)
  {
    && a.consumedAt.Some? && a.consumedRun == Some(cfg.run)
    && (task in a.allowed || (a.allowed == [] && a.consumedTask == Some(task)))
  }

  /** Some approval row covers the task. */
  predicate OnRecord(cfg: Config, db: Db, task: int)
  {
    exists j :: 0 <= j < |db.approvals| && Covers(cfg, db.approvals[j], task)
  }

  lemma CoveringRow(cfg: Config, u: LoopState, i: nat)
    requires AllBacked(cfg, u.db, u.trace) && i < |u.trace| && u.trace[i].Executed?
    requires LoopSafety.JustConsumed(u.trace, i) || LoopSafety.InCachedScope(u.trace, i)
    ensures Backed(cfg, u.db, u.trace[i]) && OnRecord(cfg, u.db, u.trace[i].task)
  {
    var k := i - 1;
    if !LoopSafety.JustConsumed(u.trace, i) {
      k :| 0 <= k < i && LoopSafety.Entitles(u.trace[k], u.trace[i].task);
    }
    assert Backed(cfg, u.db, u.trace[k]);
    var j :| 0 <= j < |u.db.approvals| && ConsumedFor(cfg, u.db.approvals[j], u.trace[k].task, u.trace[k].allowed);
    assert Covers(cfg, u.db.approvals[j], u.trace[i].task);
  }
}
