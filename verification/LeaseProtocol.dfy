/** Histories of the lease table: claims of both kinds, releases by task id, recoveries and sweeps. */
module LeaseProtocol {
  import opened Schema
  import opened Leases
  import Runs
  import Recovery
  import ResourceLocks
  import ParallelScheduler
  import GroupClaims

  /** A successful claim; the end of an active lease before its time, on behalf of a worker if any. */
  datatype Event = Claimed(task: int, worker: nat, at: int, until: int) | Discharged(task: int, agent: Option<nat>)

  datatype LeaseTable = LeaseTable(leases: map<int, Lease>, clock: int, log: seq<Event>)

  datatype Op =
    | Tick(passed: nat)
    | Upsert(task: int, worker: nat, seconds: int, pending: bool)
    | Insert(task: int, worker: nat, seconds: int, pending: bool)    // group claims
    | Release(task: int, agent: Option<nat>)    // finalizers, workers and group releases
    | Expire(task: int)    // recoveries
    | Sweep

  predicate Active(s: LeaseTable, task: int)
  {
    task in s.leases && s.leases[task].status == LeaseActive
  }

  function Granted(s: LeaseTable, task: int, worker: nat, seconds: int): LeaseTable
  {
    s.(leases := s.leases[task := NewLease(worker, s.clock, seconds)],
       log := s.log + [Claimed(task, worker, s.clock, s.clock + seconds)])
  }

  function Ended(s: LeaseTable, leases: map<int, Lease>, task: int, agent: Option<nat>): LeaseTable
  {
    s.(leases := leases, log := if Active(s, task) then s.log + [Discharged(task, agent)] else s.log)
  }

  function Step(s: LeaseTable, op: Op): LeaseTable
  {
    match op
    case Tick(passed) => s.(clock := s.clock + passed)
    case Upsert(task, worker, seconds, pending) =>
      if pending && !Leased(s.leases, task, s.clock) then Granted(s, task, worker, seconds) else s
    case Insert(task, worker, seconds, pending) =>
      if pending && task !in s.leases then Granted(s, task, worker, seconds) else s
    case Release(task, agent) => Ended(s, ReleaseLeases(s.leases, {task}, s.clock), task, agent)
    case Expire(task) => Ended(s, Runs.ExpireLease(s.leases, task, s.clock), task, None)
    case Sweep => s.(leases := Recovery.SweepLeases(s.leases, s.clock))
  }

  function History(s: LeaseTable, ops: seq<Op>): LeaseTable
    decreases |ops|
  {
    if ops == [] then s else History(Step(s, ops[0]), ops[1..])
  }

  // ---- Claims of one task are separated ----

  /** The task's lease was discharged between positions i and j. */
  predicate DischargedBetween(log: seq<Event>, i: nat, j: nat, task: int)
  {
    exists k :: i < k < j && k < |log| && log[k].Discharged? && log[k].task == task
  }

  predicate Separated(log: seq<Event>)
  {
    forall i, j :: 0 <= i < j < |log| && log[i].Claimed? && log[j].Claimed? && log[i].task == log[j].task ==>
      log[j].at >= log[i].until || DischargedBetween(log, i, j, log[i].task)
  }

  /** Nothing has happened to the task's lease since position i. */
  predicate IsLast(log: seq<Event>, i: nat)
  {
    i < |log| && forall k :: i < k < |log| ==> log[k].task != log[i].task
  }

  /** What became of a claim: it ran out, it was discharged, or it stands. */
  predicate Accounted(s: LeaseTable, i: nat)
    requires i < |s.log| && s.log[i].Claimed?
  {
    var e := s.log[i];
    || s.clock >= e.until
    || DischargedBetween(s.log, i, |s.log|, e.task)
    || (IsLast(s.log, i) && Active(s, e.task) && Owns(s, e))
  }

  predicate Owns(s: LeaseTable, e: Event)
    requires e.Claimed?
  {
    e.task in s.leases && s.leases[e.task].worker == e.worker && s.leases[e.task].expires == Some(e.until)
  }

  /** The last thing logged about an active lease is the claim that made it. */
  predicate Logged(s: LeaseTable, task: int)
  {
    exists i :: 0 <= i < |s.log| && s.log[i].Claimed? && s.log[i].task == task && IsLast(s.log, i) && Owns(s, s.log[i])
  }

  ghost predicate Inv(s: LeaseTable)
  {
    && (forall i :: 0 <= i < |s.log| && s.log[i].Claimed? ==> s.log[i].at <= s.clock && Accounted(s, i))
    && (forall task :: Active(s, task) ==> Logged(s, task))
    && Separated(s.log)
  }

  lemma BetweenGrows(log: seq<Event>, e: Event, i: nat, j: nat, task: int)
    requires j <= |log| && DischargedBetween(log, i, j, task)
    ensures DischargedBetween(log + [e], i, j, task) && DischargedBetween(log + [e], i, |log| + 1, task)
  {
    var k :| i < k < j && k < |log| && log[k].Discharged? && log[k].task == task;
    assert (log + [e])[k] == log[k];
  }

  /** A step that logs one event about a task and leaves the other leases alone. */
  lemma LogKeeps(s: LeaseTable, u: LeaseTable, e: Event)
    requires Inv(s) && u.clock == s.clock && u.log == s.log + [e]
    requires forall task :: task != e.task ==> (task in u.leases <==> task in s.leases)
    requires forall task :: task != e.task && task in s.leases ==> u.leases[task] == s.leases[task]
    requires e.Discharged? ==> !Active(u, e.task)
    requires e.Claimed? ==> e.at == s.clock && Active(u, e.task) && Owns(u, e) && !Leased(s.leases, e.task, s.clock)
    ensures Inv(u)
  {
    var n := |s.log|;
    assert forall k :: 0 <= k < n ==> u.log[k] == s.log[k];
    forall i | 0 <= i < n && s.log[i].Claimed? ensures Accounted(u, i) {
      ClaimAccounted(s, u, e, i);
    }
    forall task | Active(u, task) ensures Logged(u, task) {
      if task == e.task {
        assert u.log[n] == e && IsLast(u.log, n);
      } else {
        assert Active(s, task);
        var i :| 0 <= i < n && s.log[i].Claimed? && s.log[i].task == task && IsLast(s.log, i) && Owns(s, s.log[i]);
        assert u.log[i] == s.log[i] && IsLast(u.log, i);
      }
    }
    forall i, j | 0 <= i < j < |u.log| && u.log[i].Claimed? && u.log[j].Claimed? && u.log[i].task == u.log[j].task
      ensures u.log[j].at >= u.log[i].until || DischargedBetween(u.log, i, j, u.log[i].task)
    {
      if j < n {
        if DischargedBetween(s.log, i, j, s.log[i].task) {
          BetweenGrows(s.log, e, i, j, s.log[i].task);
        }
      } else {
        assert Accounted(s, i);
        if DischargedBetween(s.log, i, n, s.log[i].task) {
          BetweenGrows(s.log, e, i, n, s.log[i].task);
        }
      }
    }
  }

  lemma ClaimAccounted(s: LeaseTable, u: LeaseTable, e: Event, i: nat)
    requires i < |s.log| && s.log[i].Claimed? && Accounted(s, i) && u.clock == s.clock && u.log == s.log + [e]
    requires forall task :: task != e.task && task in s.leases ==> task in u.leases && u.leases[task] == s.leases[task]
    requires e.Claimed? ==> !Leased(s.leases, e.task, s.clock)
    ensures u.log[i] == s.log[i] && Accounted(u, i)
  {
    var task := s.log[i].task;
    if DischargedBetween(s.log, i, |s.log|, task) {
      BetweenGrows(s.log, e, i, |s.log|, task);
    }
    if task == e.task && e.Discharged? {
      assert u.log[|s.log|] == e;
    }
  }

  /** A step that logs nothing and ends at most leases that have run out. */
  lemma QuietKeeps(s: LeaseTable, u: LeaseTable)
    requires Inv(s) && u.log == s.log && u.clock >= s.clock && u.leases.Keys == s.leases.Keys
    requires forall task :: task in s.leases && u.leases[task] != s.leases[task] ==>
               !Active(u, task) && s.leases[task].expires.Some? && s.leases[task].expires.value <= u.clock
    ensures Inv(u)
  {
    forall i | 0 <= i < |s.log| && s.log[i].Claimed? ensures Accounted(u, i) {
      assert Accounted(s, i);
    }
    forall task | Active(u, task) ensures Logged(u, task) {
      assert u.leases[task] == s.leases[task] && Active(s, task);
      var i :| 0 <= i < |s.log| && s.log[i].Claimed? && s.log[i].task == task && IsLast(s.log, i) && Owns(s, s.log[i]);
      assert Owns(u, u.log[i]);
    }
  }

  lemma StepKeeps(s: LeaseTable, op: Op)
    requires Inv(s)
    ensures Inv(Step(s, op)) && s.log <= Step(s, op).log
  {
    var u := Step(s, op);
    match op {
      case Tick(_) => QuietKeeps(s, u);
      case Sweep => QuietKeeps(s, u);
      case Upsert(task, worker, seconds, _) =>
        if u.log != s.log {
          LogKeeps(s, u, Claimed(task, worker, s.clock, s.clock + seconds));
        }
      case Insert(task, worker, seconds, _) =>
        if u.log != s.log {
          LogKeeps(s, u, Claimed(task, worker, s.clock, s.clock + seconds));
        }
      case Release(task, agent) => EndKeeps(s, u, task, agent);
      case Expire(task) => EndKeeps(s, u, task, None);
    }
  }

  lemma EndKeeps(s: LeaseTable, u: LeaseTable, task: int, agent: Option<nat>)
    requires Inv(s) && u == Ended(s, u.leases, task, agent) && u.leases.Keys == s.leases.Keys && !Active(u, task)
    requires forall t :: t in s.leases && (t != task || !Active(s, task)) ==> u.leases[t] == s.leases[t]
    ensures Inv(u)
  {
    if Active(s, task) {
      LogKeeps(s, u, Discharged(task, agent));
    } else {
      QuietKeeps(s, u);
    }
  }

  /** Over every history: two claims of one task are separated by the expiry of the first or by a
      discharge in between. */
  lemma {:induction false} ClaimsSeparated(s: LeaseTable, ops: seq<Op>)
    requires Inv(s)
    ensures Inv(History(s, ops)) && Separated(History(s, ops).log) && s.log <= History(s, ops).log
    decreases |ops|
  {
    if ops != [] {
      StepKeeps(s, ops[0]);
      ClaimsSeparated(Step(s, ops[0]), ops[1..]);
    }
  }

  // ---- Whose lease a finalizer discharges ----

  /** The release by task id ends the active lease of another worker. */
  predicate DischargesForeign(s: LeaseTable, task: int, worker: nat)
  {
    Step(s, Release(task, Some(worker))).leases != s.leases && s.leases[task].worker != worker
  }

  /** The finalizer of a worker discharges another worker's lease exactly when the lease is active and
      the last claim of the task was made by another worker. */
  lemma ForeignDischargeExactly(s: LeaseTable, task: int, worker: nat)
    requires Inv(s)
    ensures DischargesForeign(s, task, worker) <==>
              Active(s, task) && exists i :: 0 <= i < |s.log| && IsLast(s.log, i) && s.log[i].Claimed?
                                             && s.log[i].task == task && s.log[i].worker != worker
  {
    var u := Step(s, Release(task, Some(worker)));
    if Active(s, task) {
      assert u.leases[task] != s.leases[task];
      assert Logged(s, task);
      var i :| 0 <= i < |s.log| && s.log[i].Claimed? && s.log[i].task == task && IsLast(s.log, i) && Owns(s, s.log[i]);
      assert forall j :: 0 <= j < |s.log| && IsLast(s.log, j) && s.log[j].task == task ==> j == i;
    } else {
      assert u.leases == s.leases;
    }
  }

  /** So a worker whose claim has neither run out nor been discharged never touches another's lease. */
  lemma InTermIsHarmless(s: LeaseTable, i: nat)
    requires Inv(s) && i < |s.log| && s.log[i].Claimed? && DischargesForeign(s, s.log[i].task, s.log[i].worker)
    ensures s.clock >= s.log[i].until || DischargedBetween(s.log, i, |s.log|, s.log[i].task)
  {
    assert Accounted(s, i);
  }

  /** Such a state is reached when a worker outlives its claim and the task is claimed anew. */
  lemma ForeignDischargeReached()
    ensures var start := LeaseTable(map[], 0, []);
            var ops := [Upsert(7, 1, 3600, true), Tick(3600), Upsert(7, 2, 3600, true)];
            Inv(start) && DischargesForeign(History(start, ops), 7, 1)
  {
    var start, again := LeaseTable(map[], 0, []), Upsert(7, 2, 3600, true);
    var a := Step(start, Upsert(7, 1, 3600, true));
    var b := Step(a, Tick(3600));
    assert [Tick(3600), again][1..] == [again] && [again][1..] == [];
    assert [Upsert(7, 1, 3600, true), Tick(3600), again][1..] == [Tick(3600), again];
    assert History(b, [again]) == Step(b, again);
    assert History(a, [Tick(3600), again]) == History(b, [again]);
    var c := Step(b, again);
    assert c.leases[7] == NewLease(2, 3600, 3600);
    assert ReleaseLeases(c.leases, {7}, c.clock)[7].status == LeaseReleased;
  }

  // ---- A lease row is for ever ----

  lemma {:induction false} RowsStay(s: LeaseTable, ops: seq<Op>)
    ensures s.leases.Keys <= History(s, ops).leases.Keys
    decreases |ops|
  {
    if ops != [] {
      RowsStay(Step(s, ops[0]), ops[1..]);
    }
  }

  /** Once a task has had a lease row, no group with it can be claimed, after any history. */
  lemma EverLeasedNeverGrouped(norm: ResourceLocks.Normalizer, s: LeaseTable, ops: seq<Op>, db: Db,
                               ts: seq<ParallelScheduler.Candidate>, i: nat, project: int, run: int, now: int)
    requires i < |ts| && ts[i].id in s.leases && db.leases == History(s, ops).leases
    ensures ParallelScheduler.ClaimAll(norm, db, ts, project, run, now) == None
  {
    RowsStay(s, ops);
    GroupClaims.ClaimExact(norm, db, ts, project, run, now);
    assert !GroupClaims.Fresh(db, ts[i]);
  }
}
