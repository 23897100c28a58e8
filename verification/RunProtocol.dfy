/** Histories of the run table: creations, updates, takeovers and recoveries in any order. */
module RunProtocol {
  import opened Schema
  import opened Runs
  import Recovery

  /** A successful takeover: of which run, when, and with which heartbeat timeout. */
  datatype Takeover = Takeover(run: int, at: int, timeout: int)

  datatype RunTable = RunTable(runs: seq<Run>, clock: int, log: seq<Takeover>)

  datatype Op =
    | Tick(seconds: nat)
    | Create(project: int, worker: nat)
    | SetStatus(run: int, patch: Patch, refsOk: bool)
    | Beat(run: int)
    | TakeOver(project: int, worker: nat, timeout: int)
    | Recover(run: int, seenExpired: bool, canResume: bool, worker: nat, timeout: int)
    | Sweep
    | Stamp(run: int, at: int)    // the finalizer's statistics, stamped with the time it started at

  function Step(s: RunTable, op: Op): RunTable
  {
    match op
    case Tick(seconds) => s.(clock := s.clock + seconds)
    case Create(project, worker) =>
      if HasLive(s.runs, project) then s else s.(runs := s.runs + [NewRun(project, worker, s.clock)])
    case SetStatus(run, patch, refsOk) => s.(runs := UpdatedRuns(s.runs, run, patch, refsOk))
    case Beat(run) => s.(runs := Beaten(s.runs, run, s.clock))
    case TakeOver(project, worker, timeout) =>
      (match LastStealable(s.runs, project, s.clock, timeout)
       case None => s
       case Some(i) =>
         s.(runs := Stolen(s.runs, i, worker, s.clock), log := s.log + [Takeover(i + 1, s.clock, timeout)]))
    case Recover(run, seenExpired, canResume, worker, timeout) =>
      if !seenExpired then s
      else if !canResume then s.(runs := MarkBlocked(s.runs, run, s.clock))
      else if Exists(s.runs, run) && Stealable(s.runs[run - 1], s.clock, timeout) then
        s.(runs := RecoveredRuns(s.runs, run, worker, s.clock, timeout),
           log := s.log + [Takeover(run, s.clock, timeout)])
      else s
    case Sweep => s.(runs := Recovery.SweepRuns(s.runs, s.clock))
    case Stamp(run, at) => s.(runs := Beaten(s.runs, run, at))
  }

  function History(s: RunTable, ops: seq<Op>): RunTable
    decreases |ops|
  {
    if ops == [] then s else History(Step(s, ops[0]), ops[1..])
  }

  /** At most one live run a project, over every history. */
  lemma StepKeepsOneLive(s: RunTable, op: Op)
    requires OneLive(s.runs)
    ensures OneLive(Step(s, op).runs)
  {
    match op {
      case SetStatus(run, patch, true) =>
        if Exists(s.runs, run) && !IsEmpty(patch) {
          UpdateExact(s.runs, run, patch);
        }
      case TakeOver(project, worker, timeout) => TakeoverExact(s.runs, project, worker, s.clock, timeout);
      case Recover(run, true, true, worker, timeout) =>
        if Exists(s.runs, run) && Stealable(s.runs[run - 1], s.clock, timeout) {
          RecoveryExact(s.runs, run, worker, s.clock, timeout);
        }
      case _ =>
    }
  }

  lemma {:induction false} OneLiveAlways(s: RunTable, ops: seq<Op>)
    requires OneLive(s.runs)
    ensures OneLive(History(s, ops).runs)
    decreases |ops|
  {
    if ops != [] {
      StepKeepsOneLive(s, ops[0]);
      OneLiveAlways(Step(s, ops[0]), ops[1..]);
    }
  }

  // ---- Takeovers ----

  /** The stored heartbeat is no older than the takeover. */
  predicate Covers(runs: seq<Run>, t: Takeover)
  {
    Exists(runs, t.run) && runs[t.run - 1].heartbeat.Some? && runs[t.run - 1].heartbeat.value >= t.at
  }

  predicate Spaced(log: seq<Takeover>)
  {
    forall i, j :: 0 <= i < j < |log| && log[i].run == log[j].run ==> log[j].at - log[i].at > log[j].timeout
  }

  predicate Inv(s: RunTable)
  {
    && (forall i :: 0 <= i < |s.log| ==> Covers(s.runs, s.log[i]) && s.log[i].at <= s.clock)
    && Spaced(s.log)
  }

  /** A stamp is not older than any takeover of its run. */
  predicate Timely(s: RunTable, op: Op)
  {
    op.Stamp? ==> forall i :: 0 <= i < |s.log| && s.log[i].run == op.run ==> op.at >= s.log[i].at
  }

  predicate AllTimely(s: RunTable, ops: seq<Op>)
    decreases |ops|
  {
    ops != [] ==> Timely(s, ops[0]) && AllTimely(Step(s, ops[0]), ops[1..])
  }

  lemma StepKeepsCover(s: RunTable, op: Op, t: Takeover)
    requires Covers(s.runs, t) && t.at <= s.clock && (op.Stamp? && op.run == t.run ==> op.at >= t.at)
    ensures Covers(Step(s, op).runs, t) && t.at <= Step(s, op).clock
  {
  }

  lemma StepKeepsInv(s: RunTable, op: Op)
    requires Inv(s) && Timely(s, op)
    ensures Inv(Step(s, op)) && s.log <= Step(s, op).log
  {
    var u := Step(s, op);
    forall i | 0 <= i < |s.log| ensures Covers(u.runs, s.log[i]) && s.log[i].at <= u.clock {
      StepKeepsCover(s, op, s.log[i]);
    }
    forall i | 0 <= i < |s.log| && |u.log| > |s.log| && s.log[i].run == u.log[|s.log|].run
      ensures u.log[|s.log|].at - s.log[i].at > u.log[|s.log|].timeout
    {
      assert Covers(s.runs, s.log[i]);
    }
  }

  /** Two successful takeovers of one run, by whichever path, lie further apart than the timeout of
      the second, in every history in which no finalizer stamp is older than a takeover of its run. */
  lemma {:induction false} TakeoversSpaced(s: RunTable, ops: seq<Op>)
    requires Inv(s) && AllTimely(s, ops)
    ensures Inv(History(s, ops)) && s.log <= History(s, ops).log
    decreases |ops|
  {
    if ops != [] {
      StepKeepsInv(s, ops[0]);
      TakeoversSpaced(Step(s, ops[0]), ops[1..]);
    }
  }

  /** Creations, updates, heartbeats, takeovers, recoveries and sweeps need no such condition. */
  lemma {:induction false} TimelyWithoutStamps(s: RunTable, ops: seq<Op>)
    requires forall i :: 0 <= i < |ops| ==> !ops[i].Stamp?
    ensures AllTimely(s, ops)
    decreases |ops|
  {
    if ops != [] {
      TimelyWithoutStamps(Step(s, ops[0]), ops[1..]);
    }
  }

  // ---- When a stamp is harmless ----

  /** However the history goes on from here, with timely stamps only, takeovers stay spaced. */
  ghost predicate StaysSpaced(s: RunTable)
  {
    forall ops :: AllTimely(s, ops) ==> Spaced(History(s, ops).log)
  }

  /** The condition of TakeoversSpaced is exact: a stamp leaves takeovers spaced in every continuation
      with timely stamps exactly when it is not older than a takeover of its run. */
  lemma StampHarmlessExactly(s: RunTable, op: Op)
    requires Inv(s) && OneLive(s.runs) && op.Stamp?
    ensures StaysSpaced(Step(s, op)) <==> Timely(s, op)
  {
    var u := Step(s, op);
    if Timely(s, op) {
      StepKeepsInv(s, op);
      forall ops | AllTimely(u, ops) ensures Spaced(History(u, ops).log) {
        TakeoversSpaced(u, ops);
      }
    } else {
      var i :| 0 <= i < |s.log| && s.log[i].run == op.run && op.at < s.log[i].at;
      assert Covers(s.runs, s.log[i]);
      var ops := StealAgain(u, i);
      assert AllTimely(u, ops) && !Spaced(History(u, ops).log);
    }
  }

  /** A run whose heartbeat is older than a takeover of it can be brought back to life, if need be,
      and taken over again too soon. */
  lemma StealAgain(s: RunTable, i: nat) returns (ops: seq<Op>)
    requires OneLive(s.runs) && i < |s.log| && s.log[i].at <= s.clock && Exists(s.runs, s.log[i].run)
    requires var h := s.runs[s.log[i].run - 1].heartbeat; h.Some? && h.value < s.log[i].at
    ensures AllTimely(s, ops) && !Spaced(History(s, ops).log)
  {
    var first := Revive(s, s.log[i].run);
    var t := History(s, first);
    var steal := Recover(s.log[i].run, true, true, 0, s.clock - s.log[i].at);
    OneStep(t, steal);
    assert t.log == s.log && t.clock == s.clock;
    var u := Step(t, steal);
    assert u.log[i] == s.log[i] && u.log[|s.log|] == Takeover(s.log[i].run, s.clock, s.clock - s.log[i].at);
    ops := first + [steal];
    HistoryConcat(s, first, [steal]);
    TimelyWithoutStamps(s, ops);
  }

  /** Updates of status alone make any run live: first the live run of its project, if it is another
      one, is set to completed, then the run itself to starting. */
  lemma Revive(s: RunTable, run: int) returns (ops: seq<Op>)
    requires OneLive(s.runs) && Exists(s.runs, run)
    ensures forall i :: 0 <= i < |ops| ==> !ops[i].Stamp?
    ensures var t := History(s, ops);
            && t.log == s.log && t.clock == s.clock && |t.runs| == |s.runs| && IsLive(t.runs[run - 1].status)
            && t.runs[run - 1].heartbeat == s.runs[run - 1].heartbeat
  {
    var start := SetStatus(run, Patch(Some(Starting), None, None, None, false), true);
    if IsLive(s.runs[run - 1].status) {
      ops := [];
    } else if Updatable(s.runs, run, start.patch, true) {
      ops := [start];
      OneStep(s, start);
    } else {
      var j :| 0 <= j < |s.runs| && j != run - 1 && IsLive(s.runs[j].status) && s.runs[j].project.Some?
               && s.runs[j].project == s.runs[run - 1].project;
      var finish := SetStatus(j + 1, Patch(Some(RunCompleted), None, None, None, false), true);
      var t := Step(s, finish);
      assert Updatable(s.runs, j + 1, finish.patch, true);
      assert Updatable(t.runs, run, start.patch, true);
      ops := [finish, start];
      assert ops[1..] == [start];
      OneStep(t, start);
    }
  }

  lemma OneStep(s: RunTable, op: Op)
    ensures History(s, [op]) == Step(s, op)
  {
    assert [op][1..] == [];
  }

  lemma {:induction false} HistoryConcat(s: RunTable, a: seq<Op>, b: seq<Op>)
    ensures History(s, a + b) == History(History(s, a), b)
    decreases |a|
  {
    if a == [] {
      assert a + b == b;
    } else {
      assert (a + b)[1..] == a[1..] + b;
      HistoryConcat(Step(s, a[0]), a[1..], b);
    }
  }

  lemma ThreeSteps(s: RunTable, a: Op, b: Op, c: Op)
    ensures History(s, [a, b, c]) == Step(Step(Step(s, a), b), c)
  {
    var t, u := Step(s, a), Step(Step(s, a), b);
    assert [a, b, c][1..] == [b, c] && [b, c][1..] == [c] && [c][1..] == [];
    assert History(u, [c]) == Step(u, c);
    assert History(t, [b, c]) == History(u, [c]);
  }

  /** A finalizer that started before a takeover and stamps after it makes the run stealable again
      at once: two takeovers 20 seconds apart with a timeout of 120. */
  lemma LateStampBreaksSpacing(worker: nat)
    ensures exists ops :: var s := History(RunTable([], 0, []), ops);
              |s.log| == 2 && s.log[0].run == s.log[1].run && s.log[1].timeout == 120
              && s.log[1].at - s.log[0].at == 20
  {
    var start, steal := RunTable([], 0, []), TakeOver(1, worker, 120);
    FirstTakeover(worker);
    SecondTakeover(worker);
    ThreeSteps(start, Create(1, worker), Tick(121), steal);
    ThreeSteps(TakenOver(worker), Stamp(1, 10), Tick(20), steal);
    HistoryConcat(start, [Create(1, worker), Tick(121), steal], [Stamp(1, 10), Tick(20), steal]);
  }

  function TakenOver(worker: nat): RunTable
  {
    RunTable([NewRun(1, worker, 121)], 121, [Takeover(1, 121, 120)])
  }

  lemma FirstTakeover(worker: nat)
    ensures Step(Step(Step(RunTable([], 0, []), Create(1, worker)), Tick(121)), TakeOver(1, worker, 120))
         == TakenOver(worker)
  {
  }

  lemma SecondTakeover(worker: nat)
    ensures Step(Step(Step(TakenOver(worker), Stamp(1, 10)), Tick(20)), TakeOver(1, worker, 120)).log
              == [Takeover(1, 121, 120), Takeover(1, 141, 120)]
  {
  }
}
