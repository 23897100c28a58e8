/** The engine's transactions on the lock table as runs of the lock protocol, so that what holds over
    every run, fencing in particular, holds across group claims, finalizers and restarts. */
module LockHistory {
  import opened Schema
  import opened ResourceLocks
  import opened ParallelScheduler
  import opened LockProtocol
  import Cleanup
  import Recovery

  function TableOf(db: Db): LockTable
  {
    LockTable(db.locks, db.supply)
  }

  lemma RunSnoc(norm: Normalizer, t: LockTable, ops: seq<Op>, op: Op)
    ensures LockProtocol.Run(norm, t, ops + [op]) == Step(norm, LockProtocol.Run(norm, t, ops), op).0
  {
    assert (ops + [op])[..|ops|] == ops;
  }

  /** Runs compose: one transaction after the other is a run again. */
  lemma {:induction false} RunConcat(norm: Normalizer, t: LockTable, a: seq<Op>, b: seq<Op>)
    ensures LockProtocol.Run(norm, t, a + b) == LockProtocol.Run(norm, LockProtocol.Run(norm, t, a), b)
    decreases |b|
  {
    if b == [] {
      assert a + b == a;
    } else {
      var front, last := b[..|b| - 1], b[|b| - 1];
      assert a + b == (a + front) + [last] && b == front + [last];
      RunConcat(norm, t, a, front);
      RunSnoc(norm, t, a + front, last);
      RunSnoc(norm, LockProtocol.Run(norm, t, a), front, last);
    }
  }

  lemma RunOne(norm: Normalizer, t: LockTable, a: Op)
    ensures LockProtocol.Run(norm, t, [a]) == Step(norm, t, a).0
  {
    assert [] + [a] == [a];
    RunSnoc(norm, t, [], a);
  }

  lemma RunTwo(norm: Normalizer, t: LockTable, a: Op, b: Op)
    ensures LockProtocol.Run(norm, t, [a, b]) == Step(norm, Step(norm, t, a).0, b).0
  {
    RunOne(norm, t, a);
    assert [a] + [b] == [a, b];
    RunSnoc(norm, t, [a], b);
  }

  /** One round of a group claim: an identifier for the worker, then the locks of the files. */
  lemma RoundIsRun(norm: Normalizer, c: Claim, t: Candidate, project: int, run: int, now: int, d: Claim)
    returns (ops: seq<Op>)
    requires ClaimOne(norm, c, t, project, run, now) == Some(d)
    ensures LockProtocol.Run(norm, TableOf(c.db), ops) == TableOf(d.db)
  {
    if t.files == [] {
      ops := [Draw(1)];
      RunOne(norm, TableOf(c.db), ops[0]);
      DrawIsStep(norm, c, t, project, run, now, d);
    } else {
      var acquire := AcquireOf(c, t, project, run, now);
      ops := [Draw(1), acquire];
      AcquireIsStep(norm, c, t, project, run, now, d);
      RunTwo(norm, TableOf(c.db), Draw(1), acquire);
    }
  }

  function AcquireOf(c: Claim, t: Candidate, project: int, run: int, now: int): Op
  {
    var who := Holder(project, t.id, |c.db.executions| + 1, run, c.db.supply);
    Acquire(Resources(t.files, project), who, true, now, GROUP_LOCK_TTL)
  }

  lemma DrawIsStep(norm: Normalizer, c: Claim, t: Candidate, project: int, run: int, now: int, d: Claim)
    requires ClaimOne(norm, c, t, project, run, now) == Some(d) && t.files == []
    ensures Step(norm, TableOf(c.db), Draw(1)).0 == TableOf(d.db)
  {
  }

  lemma AcquireIsStep(norm: Normalizer, c: Claim, t: Candidate, project: int, run: int, now: int, d: Claim)
    requires ClaimOne(norm, c, t, project, run, now) == Some(d) && t.files != []
    ensures Step(norm, LockTable(c.db.locks, c.db.supply + 1), AcquireOf(c, t, project, run, now)).0 == TableOf(d.db)
  {
  }

  lemma {:induction false} GroupClaimIsRun(norm: Normalizer, db: Db, ts: seq<Candidate>, project: int, run: int,
                                           now: int, c: Claim)
    returns (ops: seq<Op>)
    requires ClaimAll(norm, db, ts, project, run, now) == Some(c)
    ensures LockProtocol.Run(norm, TableOf(db), ops) == TableOf(c.db)
  {
    if ts == [] {
      ops := [];
    } else {
      var b := ClaimAll(norm, db, ts[..|ts| - 1], project, run, now).value;
      var first := GroupClaimIsRun(norm, db, ts[..|ts| - 1], project, run, now, b);
      var last := RoundIsRun(norm, b, ts[|ts| - 1], project, run, now, c);
      RunConcat(norm, TableOf(db), first, last);
      ops := first + last;
    }
  }

  lemma {:induction false} GroupReleaseIsRun(norm: Normalizer, db: Db, ids: seq<int>, now: int, reason: string)
    returns (ops: seq<Op>)
    ensures LockProtocol.Run(norm, TableOf(db), ops) == TableOf(Released(db, ids, now, reason))
  {
    if ids == [] {
      ops := [];
      assert ReleaseExecutions(db.locks, IdSet(ids), now, reason) == db.locks;
    } else {
      var n := |ids| - 1;
      var front := GroupReleaseIsRun(norm, db, ids[..n], now, reason);
      var op := ReleaseExecution(ids[n], now, reason);
      RunSnoc(norm, TableOf(db), front, op);
      assert ids[..n + 1] == ids;
      IdSetSnoc(ids, n);
      ReleaseTwice(db.locks, IdSet(ids[..n]), {ids[n]}, now, reason);
      ops := front + [op];
    }
  }

  lemma {:induction false} ListedIsRun(norm: Normalizer, t: LockTable, ids: seq<nat>, tokens: seq<nat>, worker: nat,
                                       now: int, n: nat)
    returns (ops: seq<Op>)
    requires |ids| == |tokens| && n <= |ids|
    ensures LockProtocol.Run(norm, t, ops)
         == t.(rows := Cleanup.ReleaseListed(t.rows, ids[..n], tokens[..n], worker, now))
  {
    if n == 0 {
      ops := [];
      assert Cleanup.ReleaseListed(t.rows, ids[..0], tokens[..0], worker, now) == t.rows;
    } else {
      var front := ListedIsRun(norm, t, ids, tokens, worker, now, n - 1);
      var op := Release(ids[n - 1], tokens[n - 1], worker, now, "finalized");
      RunSnoc(norm, t, front, op);
      Cleanup.ListedSnoc(t.rows, ids, tokens, worker, n - 1, now);
      ops := front + [op];
    }
  }

  lemma FinalizerIsRun(norm: Normalizer, t: LockTable, ids: seq<nat>, tokens: seq<nat>, worker: nat, execution: int,
                       now: int)
    returns (ops: seq<Op>)
    ensures LockProtocol.Run(norm, t, ops)
         == t.(rows := Cleanup.LocksAfter(t.rows, ids, tokens, worker, execution, now))
  {
    if Cleanup.ByToken(ids, tokens) {
      ops := ListedIsRun(norm, t, ids, tokens, worker, now, |ids|);
      assert ids[..|ids|] == ids && tokens[..|tokens|] == tokens;
    } else {
      ops := [ReleaseExecution(execution, now, "finalized_batch")];
      RunOne(norm, t, ops[0]);
    }
  }

  lemma SweepIsRun(norm: Normalizer, db: Db, now: int) returns (ops: seq<Op>)
    ensures LockProtocol.Run(norm, TableOf(db), ops) == TableOf(Recovery.Swept(db, now))
  {
    ops := [Op.Cleanup(now), ReleaseOrphaned(Recovery.Living(Recovery.SweepRuns(db.runs, now)), now)];
    RunTwo(norm, TableOf(db), ops[0], ops[1]);
  }

  /** Fencing across a restart: a token that had left its row, or whose row the sweep released, opens
      nothing afterwards, whatever follows. */
  lemma FencingAcrossRestart(norm: Normalizer, db: Db, now: int, i: nat, more: seq<Op>, op: Op)
    requires Valid(TableOf(db)) && i < |db.locks|
    requires !Recovery.RunAlive(db.runs, db.locks[i].holder.run, now) || db.locks[i].expires <= now
    requires PresentsToken(op, db.locks[i].token)
    ensures var u := LockProtocol.Run(norm, TableOf(Recovery.Swept(db, now)), more); Step(norm, u, op) == (u, false)
  {
    var sweep := SweepIsRun(norm, db, now);
    Recovery.SweepExact(db, now);
    Fencing(norm, TableOf(db), sweep, i, more, op);
  }
}
