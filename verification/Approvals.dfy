/** The execution-approval service, each method run without interference. */
module Approvals {
  import opened Schema

  const SECONDS_AN_HOUR := 3600

  predicate Unexpired(a: Approval, now: int)
  {
    a.expires.Some? ==> a.expires.value > now
  }

  /** The WHERE clause the validity queries and the consumption share. */
  predicate IsValid(a: Approval, project: int, now: int)
  {
    a.project == project && a.status == Approved && Unexpired(a, now) && a.consumedAt == None && a.singleUse
  }

  predicate AwaitsToken(a: Approval, project: int, tokenHash: nat)
  {
    a.project == project && a.status == Requested && a.tokenHash == tokenHash
  }

  /** ORDER BY created_at DESC LIMIT 1; the later row wins a tie. */
  function Latest(rows: seq<Approval>, hit: Approval -> bool): (r: Option<nat>)
    ensures r.None? <==> forall i :: 0 <= i < |rows| ==> !hit(rows[i])
    ensures r.Some? ==> r.value < |rows| && hit(rows[r.value])
                        && forall i :: 0 <= i < |rows| && hit(rows[i]) ==> rows[i].createdAt <= rows[r.value].createdAt
  {
    if rows == [] then None
    else
      var n := |rows| - 1;
      var r := Latest(rows[..n], hit);
      assert forall i :: 0 <= i < n ==> rows[..n][i] == rows[i];
      if hit(rows[n]) && (r.None? || rows[r.value].createdAt <= rows[n].createdAt) then Some(n) else r
  }

  function LatestValid(rows: seq<Approval>, project: int, now: int): (r: Option<nat>)
    ensures r.Some? ==> r.value < |rows| && IsValid(rows[r.value], project, now) && ConsumeSelects(rows, r.value, now)
    ensures r.None? <==> forall i :: 0 <= i < |rows| ==> !IsValid(rows[i], project, now)
  {
    Latest(rows, (a: Approval) => IsValid(a, project, now))
  }

  /** An empty list of allowed tasks restricts nothing here. */
  predicate Admits(a: Approval, task: int)
  {
    a.allowed == [] || task in a.allowed
  }

  /** ORDER BY created_at DESC LIMIT 1 may return this row; only a tie leaves more than one. */
  predicate IsLatest(rows: seq<Approval>, row: nat, hit: Approval -> bool)
  {
    && row < |rows| && hit(rows[row])
    && forall i :: 0 <= i < |rows| && hit(rows[i]) ==> rows[i].createdAt <= rows[row].createdAt
  }

  /** The row may be what the SELECT of approve returns, for its own project and token. */
  predicate ApproveSelects(rows: seq<Approval>, row: nat, now: int)
    requires row < |rows|
  {
    IsLatest(rows, row, (a: Approval) => AwaitsToken(a, rows[row].project, rows[row].tokenHash) && Unexpired(a, now))
  }

  predicate RejectSelects(rows: seq<Approval>, row: nat)
    requires row < |rows|
  {
    IsLatest(rows, row, (a: Approval) => AwaitsToken(a, rows[row].project, rows[row].tokenHash))
  }

  predicate ConsumeSelects(rows: seq<Approval>, row: nat, now: int)
    requires row < |rows|
  {
    IsLatest(rows, row, (a: Approval) => IsValid(a, rows[row].project, now))
  }

  function ApproveRow(a: Approval): Approval
  {
    a.(status := Approved, riskConfirmed := true)
  }

  function ConsumeRow(a: Approval, now: int, run: Option<int>, task: Option<int>): Approval
  {
    a.(status := Consumed, consumedAt := Some(now), consumedRun := run, consumedTask := task)
  }

  function RequestRow(project: int, allowed: seq<int>, tokenHash: nat, now: int, hours: int): Approval
  {
    Approval(project, Requested, allowed, tokenHash, false, true, now, Some(now + hours * SECONDS_AN_HOUR),
             None, None, None)
  }

  predicate Overdue(a: Approval, now: int)
  {
    a.status in {Requested, Approved} && a.expires.Some? && a.expires.value <= now && a.consumedAt == None
  }

  function ExpireRows(rows: seq<Approval>, now: int): (r: seq<Approval>)
    ensures |r| == |rows|
  {
    Update(rows, (a: Approval) => Overdue(a, now), (a: Approval) => a.(status := Lapsed))
  }

  // ---- The same in the columns of the table, as the contracts state it ----

  predicate BearsToken(a: Approval, project: int, tokenHash: nat)
  {
    a.status == Requested && a.project == project && a.tokenHash == tokenHash
  }

  predicate NotOver(a: Approval, now: int)
  {
    a.expires == None || now < a.expires.value
  }

  /** A single-use approval of the project that was given, has time left and was never consumed. */
  predicate Usable(a: Approval, project: int, now: int)
  {
    && a.project == project && a.status == Approved && a.singleUse && a.consumedAt == None && NotOver(a, now)
  }

  /** Of the approvals that can be used the one created last decides, the later row if there are two. */
  predicate Decides(rows: seq<Approval>, i: nat, project: int, now: int)
  {
    && i < |rows| && Usable(rows[i], project, now)
    && forall j :: 0 <= j < |rows| && j != i && Usable(rows[j], project, now) ==>
         rows[j].createdAt < rows[i].createdAt || (rows[j].createdAt == rows[i].createdAt && j < i)
  }

  method RequestApproval(db: Database, project: int, allowed: seq<int>, tokenHash: nat, now: int, hours: int)
    returns (row: Option<nat>)
    modifies db`approvals
    ensures row.Some? <==> project in db.projects
    ensures row.Some? ==> row.value == |old(db.approvals)|
                          && db.approvals == old(db.approvals) + [RequestRow(project, allowed, tokenHash, now, hours)]
    ensures row.None? ==> db.approvals == old(db.approvals)
  {
    if project !in db.projects {
      return None;    // foreign key
    }
    db.approvals := db.approvals + [RequestRow(project, allowed, tokenHash, now, hours)];
    return Some(|db.approvals| - 1);
  }

  /** approve: at most the selected row changes, from requested to approved. */
  method Approve(db: Database, project: int, tokenHash: nat, now: int) returns (row: Option<nat>)
    modifies db`approvals
    ensures row.None? ==> db.approvals == old(db.approvals)
    ensures row.None? <==> forall i :: 0 <= i < |old(db.approvals)| ==>
                             !(BearsToken(old(db.approvals)[i], project, tokenHash)
                               && NotOver(old(db.approvals)[i], now))
    ensures row.Some? ==>
              && row.value < |old(db.approvals)| && BearsToken(old(db.approvals)[row.value], project, tokenHash)
              && NotOver(old(db.approvals)[row.value], now) && ApproveSelects(old(db.approvals), row.value, now)
              && db.approvals == old(db.approvals)[row.value := old(db.approvals)[row.value].(status := Approved,
                                                                                             riskConfirmed := true)]
  {
    row := Latest(db.approvals, (a: Approval) => AwaitsToken(a, project, tokenHash) && Unexpired(a, now));
    if row.Some? {
      db.approvals := db.approvals[row.value := ApproveRow(db.approvals[row.value])];
    }
  }

  /** reject: unlike approve it does not ask whether the request has expired. */
  method Reject(db: Database, project: int, tokenHash: nat) returns (row: Option<nat>)
    modifies db`approvals
    ensures row.None? ==> db.approvals == old(db.approvals)
    ensures row.None? <==> forall i :: 0 <= i < |old(db.approvals)| ==>
                             !BearsToken(old(db.approvals)[i], project, tokenHash)
    ensures row.Some? ==>
              && row.value < |old(db.approvals)| && BearsToken(old(db.approvals)[row.value], project, tokenHash)
              && RejectSelects(old(db.approvals), row.value)
              && db.approvals == old(db.approvals)[row.value := old(db.approvals)[row.value].(status := Rejected)]
  {
    row := Latest(db.approvals, (a: Approval) => AwaitsToken(a, project, tokenHash));
    if row.Some? {
      db.approvals := db.approvals[row.value := db.approvals[row.value].(status := Rejected)];
    }
  }

  /** has_valid_approval: it looks at the latest valid approval only. */
  predicate HasValidApproval(rows: seq<Approval>, project: int, requested: seq<int>, now: int)
  {
    var r := LatestValid(rows, project, now);
    && r.Some? && rows[r.value].riskConfirmed
    && (requested != [] ==> forall t :: t in requested ==> t in rows[r.value].allowed)
  }

  datatype ConsumeResult = NoValidApproval | TaskNotAllowed | Taken(row: nat, allowed: seq<int>)

  function ConsumeVerdict(rows: seq<Approval>, project: int, task: Option<int>, now: int): (r: ConsumeResult)
    ensures r.Taken? ==> r.row < |rows| && IsValid(rows[r.row], project, now) && r.allowed == rows[r.row].allowed
                         && (task.Some? ==> Admits(rows[r.row], task.value))
  {
    var r := LatestValid(rows, project, now);
    if r.None? then NoValidApproval
    else if task.Some? && !Admits(rows[r.value], task.value) then TaskNotAllowed
    else Taken(r.value, rows[r.value].allowed)
  }

  function ConsumedRows(rows: seq<Approval>, r: ConsumeResult, run: Option<int>, task: Option<int>,
                        now: int): seq<Approval>
    requires r.Taken? ==> r.row < |rows|
  {
    if r.Taken? then rows[r.row := ConsumeRow(rows[r.row], now, run, task)] else rows
  }

  /** consume_approval: select, check the task, then the guarded update. */
  method ConsumeApproval(db: Database, project: int, run: Option<int>, task: Option<int>, now: int)
    returns (r: ConsumeResult)
    modifies db`approvals
    ensures r == ConsumeVerdict(old(db.approvals), project, task, now)
    ensures db.approvals == ConsumedRows(old(db.approvals), r, run, task, now)
  {
    var row := LatestValid(db.approvals, project, now);
    if row.None? {
      return NoValidApproval;
    }
    if task.Some? && !(db.approvals[row.value].allowed == [] || task.value in db.approvals[row.value].allowed) {
      return TaskNotAllowed;
    }
    if !(db.approvals[row.value].status == Approved && db.approvals[row.value].consumedAt == None) {
      return NoValidApproval;    // the race that only interleaving can produce
    }
    r := Taken(row.value, db.approvals[row.value].allowed);
    db.approvals := db.approvals[row.value := ConsumeRow(db.approvals[row.value], now, run, task)];
  }

  method ExpireStaleApprovals(db: Database, now: int) returns (count: nat)
    modifies db`approvals
    ensures db.approvals == ExpireRows(old(db.approvals), now)
    ensures count == Count(old(db.approvals), (a: Approval) => Overdue(a, now))
  {
    count := Count(db.approvals, (a: Approval) => Overdue(a, now));
    db.approvals := ExpireRows(db.approvals, now);
  }

  /** On approvals the service itself approved, the query with a one-task scope and the consumption
      agree, except that an empty list of allowed tasks fails the query and passes the consumption. */
  lemma QueryAgreesWithConsumption(rows: seq<Approval>, project: int, task: int, now: int)
    requires forall i :: 0 <= i < |rows| && rows[i].status == Approved ==> rows[i].riskConfirmed
    ensures var v := ConsumeVerdict(rows, project, Some(task), now);
            HasValidApproval(rows, project, [task], now) <==> v.Taken? && v.allowed != []
  {
  }

  /** An approved request is valid for its project and no other, from its approval to its expiry; the
      scope query then accepts exactly the tasks it lists. Consumed, rejected or lapsed it never is. */
  lemma ApprovedValidExactly(project: int, allowed: seq<int>, tokenHash: nat, now: int, hours: int, p: int, at: int)
    ensures var a := ApproveRow(RequestRow(project, allowed, tokenHash, now, hours));
            && (IsValid(a, p, at) <==> p == project && at < now + 3600 * hours)
            && (forall task :: HasValidApproval([a], p, [task], at) <==> IsValid(a, p, at) && task in allowed)
            && (HasValidApproval([a], p, [], at) <==> IsValid(a, p, at))
            && (forall when, run, task :: !IsValid(ConsumeRow(a, when, run, task), p, at))
            && !IsValid(RequestRow(project, allowed, tokenHash, now, hours), p, at)
            && (forall when :: ExpireRows([a], when)
                                 == [if when >= now + 3600 * hours then a.(status := Lapsed) else a])
  {
    var a := ApproveRow(RequestRow(project, allowed, tokenHash, now, hours));
    var r := LatestValid([a], p, at);
    assert IsValid([a][0], p, at) ==> r == Some(0);
    assert forall task: int :: task in [task];
  }

  lemma LatestIsLast(rows: seq<Approval>, hit: Approval -> bool)
    ensures var r := Latest(rows, hit);
            r.Some? ==> forall j :: r.value < j < |rows| && hit(rows[j]) ==> rows[j].createdAt < rows[r.value].createdAt
  {
  }

  lemma DecidedByLatest(rows: seq<Approval>, i: nat, project: int, now: int)
    ensures Decides(rows, i, project, now) <==> LatestValid(rows, project, now) == Some(i)
  {
    var hit := (a: Approval) => IsValid(a, project, now);
    LatestIsLast(rows, hit);
    assert forall j :: 0 <= j < |rows| ==> (hit(rows[j]) <==> Usable(rows[j], project, now));
  }

  predicate Permits(a: Approval, task: Option<int>)
  {
    task.None? || a.allowed == [] || exists i :: 0 <= i < |a.allowed| && a.allowed[i] == task.value
  }

  /** A consumption is granted exactly when an approval decides and, for a task, lists it or lists
      nothing, and only a table without a usable approval has none. */
  lemma ConsumptionExactly(rows: seq<Approval>, project: int, task: Option<int>, now: int)
    ensures var v := ConsumeVerdict(rows, project, task, now);
            && (v.Taken? ==> Decides(rows, v.row, project, now) && Permits(rows[v.row], task)
                             && v.allowed == rows[v.row].allowed)
            && (forall i: nat :: Decides(rows, i, project, now) && Permits(rows[i], task) ==> v.Taken? && v.row == i)
            && (v.NoValidApproval? <==> forall i :: 0 <= i < |rows| ==> !Usable(rows[i], project, now))
  {
    forall i: nat ensures Decides(rows, i, project, now) <==> LatestValid(rows, project, now) == Some(i) {
      DecidedByLatest(rows, i, project, now);
    }
    assert forall i :: 0 <= i < |rows| ==> (Usable(rows[i], project, now) <==> IsValid(rows[i], project, now));
  }

  /** The query asks the same approval, and in addition that its risk was confirmed and that it lists all
      the tasks in question; an empty list then covers none. */
  lemma QueryExactly(rows: seq<Approval>, project: int, requested: seq<int>, now: int)
    ensures forall i: nat :: Decides(rows, i, project, now) ==>
              (HasValidApproval(rows, project, requested, now) <==>
                 rows[i].riskConfirmed && forall t :: t in requested ==> t in rows[i].allowed)
    ensures (forall i :: 0 <= i < |rows| ==> !Usable(rows[i], project, now)) ==>
              !HasValidApproval(rows, project, requested, now)
  {
    forall i: nat ensures Decides(rows, i, project, now) <==> LatestValid(rows, project, now) == Some(i) {
      DecidedByLatest(rows, i, project, now);
    }
    assert forall i :: 0 <= i < |rows| ==> (Usable(rows[i], project, now) <==> IsValid(rows[i], project, now));
  }

  /** Then that approval, and no other, is recorded as consumed for the run and the task, and can be used
      no more. */
  lemma ConsumptionRecorded(rows: seq<Approval>, project: int, run: Option<int>, task: Option<int>, now: int)
    ensures var v := ConsumeVerdict(rows, project, task, now);
            var u := ConsumedRows(rows, v, run, task, now);
            if v.Taken? then
              && u == rows[v.row := rows[v.row].(status := Consumed, consumedAt := Some(now), consumedRun := run,
                                                 consumedTask := task)]
              && forall p, later :: !Usable(u[v.row], p, later)
            else u == rows
  {
  }

  /** A request answers to its own token, in its own project, until it expires; until it is approved
      nobody has confirmed its risk. */
  lemma RequestAnswersExactly(project: int, allowed: seq<int>, tokenHash: nat, now: int, hours: int, p: int, hash: nat,
                              at: int)
    ensures var a := RequestRow(project, allowed, tokenHash, now, hours);
            && (BearsToken(a, p, hash) <==> p == project && hash == tokenHash)
            && (NotOver(a, at) <==> at < now + 3600 * hours)
            && a.createdAt == now && !a.riskConfirmed && ApproveRow(a).riskConfirmed
            && (forall h :: !BearsToken(ApproveRow(a), p, h))
  {
  }

  /** Of two approvals of one project, both requested and given, the one requested later is taken, in
      whichever row it stands, until it has expired; an earlier one that lists more is not asked. */
  lemma LaterApprovalDecides(project: int, first: seq<int>, second: seq<int>, hash: nat, at: int, anew: int,
                             hours: int, task: int, now: int)
    requires at < anew && now < at + 3600 * hours
    ensures var a, b := ApproveRow(RequestRow(project, first, hash, at, hours)),
                        ApproveRow(RequestRow(project, second, hash, anew, hours));
            && (ConsumeVerdict([a, b], project, Some(task), now).Taken? <==> second == [] || task in second)
            && (ConsumeVerdict([b, a], project, Some(task), now).Taken? <==> second == [] || task in second)
            && (ConsumeVerdict([a, b], project, Some(task), now).Taken? ==>
                  ConsumeVerdict([a, b], project, Some(task), now).row == 1)
  {
    var a, b := ApproveRow(RequestRow(project, first, hash, at, hours)),
                ApproveRow(RequestRow(project, second, hash, anew, hours));
    DecidedByLatest([a, b], 1, project, now);
    DecidedByLatest([b, a], 0, project, now);
    assert Usable([a, b][1], project, now) && Usable([b, a][0], project, now);
    assert Decides([a, b], 1, project, now) && Decides([b, a], 0, project, now);
  }

  /** The batch expiry takes nothing away that could still be used, leaves no request and no approval
      beyond its expiry unless it was consumed, touches nothing else, and a second one at the same instant
      finds nothing. */
  lemma ExpiryExact(rows: seq<Approval>, now: int)
    ensures var u := ExpireRows(rows, now);
            && |u| == |rows| && Count(u, (a: Approval) => Overdue(a, now)) == 0 && ExpireRows(u, now) == u
            && (forall i, project, later :: 0 <= i < |rows| && later >= now ==>
                  (Usable(u[i], project, later) <==> Usable(rows[i], project, later)))
            && (forall i :: 0 <= i < |rows| ==>
                  if rows[i].status in {Requested, Approved} && rows[i].consumedAt == None && !NotOver(rows[i], now)
                  then u[i] == rows[i].(status := Lapsed) else u[i] == rows[i])
  {
    var u := ExpireRows(rows, now);
    CountZero(u, (a: Approval) => Overdue(a, now));
    assert ExpireRows(u, now) == u;
  }
}
