/** Approvals under interleaving: the SELECT and the UPDATE of approve, reject and consume_approval
    are separate steps of concurrent callers. */
module ApprovalProtocol {
  import opened Schema
  import opened Approvals

  /** A caller between its SELECT and its UPDATE, with the row it selected. */
  datatype Caller = Approving(row: nat) | Rejecting(row: nat) | Consuming(row: nat, run: int, task: int, at: int)

  /** A consumption that reported success. */
  datatype Grant = Grant(row: nat, run: int, task: int, at: int)

  datatype System = System(rows: seq<Approval>, callers: map<nat, Caller>, clock: int, log: seq<Grant>)

  datatype Event =
    | Tick(seconds: nat)
    | Request(project: int, allowed: seq<int>, tokenHash: nat, hours: int)
    | SelectApprove(id: nat, row: nat)
    | SelectReject(id: nat, row: nat)
    | SelectConsume(id: nat, row: nat, run: int, task: int)
    | Proceed(id: nat)
    | ExpireStale

  /** One step. SELECT returns a latest row that matches its WHERE clause, for a caller that knows the
      row's project and token; between rows created at the same time the choice is open. */
  function Step(s: System, e: Event): System
  {
    match e
    case Tick(seconds) => s.(clock := s.clock + seconds)
    case Request(project, allowed, tokenHash, hours) =>
      s.(rows := s.rows + [RequestRow(project, allowed, tokenHash, s.clock, hours)])
    case SelectApprove(id, row) =>
      if id !in s.callers && row < |s.rows| && ApproveSelects(s.rows, row, s.clock)
      then s.(callers := s.callers[id := Approving(row)]) else s
    case SelectReject(id, row) =>
      if id !in s.callers && row < |s.rows| && RejectSelects(s.rows, row)
      then s.(callers := s.callers[id := Rejecting(row)]) else s
    case SelectConsume(id, row, run, task) =>
      if id !in s.callers && row < |s.rows| && ConsumeSelects(s.rows, row, s.clock) && Admits(s.rows[row], task)
      then s.(callers := s.callers[id := Consuming(row, run, task, s.clock)]) else s
    case Proceed(id) =>
      if id in s.callers && s.callers[id].row < |s.rows|
      then Finish(s.(callers := s.callers - {id}), s.callers[id]) else s
    case ExpireStale => s.(rows := ExpireRows(s.rows, s.clock))
  }

  /** The UPDATE: unguarded for approve and reject, a compare-and-set for consume. */
  function Finish(s: System, c: Caller): System
    requires c.row < |s.rows|
  {
    var a := s.rows[c.row];
    match c
    case Approving(row) => s.(rows := s.rows[row := ApproveRow(a)])
    case Rejecting(row) => s.(rows := s.rows[row := a.(status := Rejected)])
    case Consuming(row, run, task, at) =>
      if a.status == Approved && a.consumedAt == None then
        s.(rows := s.rows[row := ConsumeRow(a, at, Some(run), Some(task))], log := s.log + [Grant(row, run, task, at)])
      else s
  }

  function Run(s: System, es: seq<Event>): System
    decreases |es|
  {
    if es == [] then s else Run(Step(s, es[0]), es[1..])
  }

  /** Undisturbed, the two steps of a consumption are the service's consume_approval: the row it
      selects is consumed and the consumption is granted. */
  lemma ConsumeIsTwoSteps(s: System, id: nat, project: int, run: int, task: int)
    requires id !in s.callers && ConsumeVerdict(s.rows, project, Some(task), s.clock).Taken?
    ensures var v := ConsumeVerdict(s.rows, project, Some(task), s.clock);
            Run(s, [SelectConsume(id, v.row, run, task), Proceed(id)])
            == s.(rows := ConsumedRows(s.rows, v, Some(run), Some(task), s.clock),
                  log := s.log + [Grant(v.row, run, task, s.clock)])
  {
    var v := ConsumeVerdict(s.rows, project, Some(task), s.clock);
    RunTwo(s, SelectConsume(id, v.row, run, task), Proceed(id));
    assert s.callers[id := Consuming(v.row, run, task, s.clock)] - {id} == s.callers;
  }

  /** Undisturbed, the two steps of an approval change the selected row as the service does. */
  lemma ApproveIsTwoSteps(s: System, id: nat, row: nat)
    requires id !in s.callers && row < |s.rows| && ApproveSelects(s.rows, row, s.clock)
    ensures Run(s, [SelectApprove(id, row), Proceed(id)]) == s.(rows := s.rows[row := ApproveRow(s.rows[row])])
  {
    RunTwo(s, SelectApprove(id, row), Proceed(id));
    assert s.callers[id := Approving(row)] - {id} == s.callers;
  }

  /** Likewise a rejection, which asks for no expiry. */
  lemma RejectIsTwoSteps(s: System, id: nat, row: nat)
    requires id !in s.callers && row < |s.rows| && RejectSelects(s.rows, row)
    ensures Run(s, [SelectReject(id, row), Proceed(id)]) == s.(rows := s.rows[row := s.rows[row].(status := Rejected)])
  {
    var t := s.(callers := s.callers[id := Rejecting(row)]);
    RunTwo(s, SelectReject(id, row), Proceed(id));
    assert Step(s, SelectReject(id, row)) == t;
    assert t.callers - {id} == s.callers;
  }

  // ---- Single use ----

  predicate Records(a: Approval, g: Grant)
  {
    a.consumedAt == Some(g.at) && a.consumedRun == Some(g.run) && a.consumedTask == Some(g.task) && Admits(a, g.task)
  }

  predicate Logged(s: System, row: nat)
  {
    exists i :: 0 <= i < |s.log| && s.log[i].row == row
  }

  /** Every grant is recorded in its row and is the only one of that row; what is approved or being
      consumed was confirmed; a caller consumes only for a task its approval admits. */
  predicate Sound(s: System)
  {
    && (forall i :: 0 <= i < |s.log| ==> s.log[i].row < |s.rows| && Records(s.rows[s.log[i].row], s.log[i]))
    && (forall i, j :: 0 <= i < j < |s.log| ==> s.log[i].row != s.log[j].row)
    && (forall r :: 0 <= r < |s.rows| && (s.rows[r].status == Approved || s.rows[r].consumedAt.Some?) ==>
         s.rows[r].riskConfirmed)
    && (forall id :: id in s.callers ==> CallerOk(s.rows, s.callers[id]))
  }

  /** Every recorded consumption was granted. */
  predicate Complete(s: System)
  {
    forall r :: 0 <= r < |s.rows| && s.rows[r].consumedAt.Some? ==> Logged(s, r)
  }

  /** The log and the consumed rows correspond one to one. */
  predicate Inv(s: System) { Sound(s) && Complete(s) }

  predicate CallerOk(rows: seq<Approval>, c: Caller)
  {
    c.row < |rows| && (c.Consuming? ==> Admits(rows[c.row], c.task) && rows[c.row].riskConfirmed)
  }

  /** How a row may change: its scope stays, a confirmation stays, a consumption stays as recorded. */
  predicate RowEvolves(a: Approval, b: Approval)
  {
    && b.allowed == a.allowed && b.project == a.project && (a.riskConfirmed ==> b.riskConfirmed)
    && (a.consumedAt.Some? ==>
          b.consumedAt == a.consumedAt && b.consumedRun == a.consumedRun && b.consumedTask == a.consumedTask)
  }

  predicate Evolves(s: System, t: System)
  {
    && |s.rows| <= |t.rows| && s.log <= t.log
    && forall r :: 0 <= r < |s.rows| ==> RowEvolves(s.rows[r], t.rows[r])
  }

  lemma FinishKeeps(s: System, c: Caller)
    requires Sound(s) && CallerOk(s.rows, c)
    ensures Sound(Finish(s, c)) && Evolves(s, Finish(s, c))
  {
    if c.Consuming? {
      ConsumingKeeps(s, c);
    } else {
      var t := Finish(s, c);
      assert forall r :: 0 <= r < |s.rows| ==> RowEvolves(s.rows[r], t.rows[r]);
      assert forall i :: 0 <= i < |s.log| ==> Records(s.rows[s.log[i].row], s.log[i]);
    }
  }

  lemma ConsumingKeeps(s: System, c: Caller)
    requires Sound(s) && CallerOk(s.rows, c) && c.Consuming?
    ensures Sound(Finish(s, c)) && Evolves(s, Finish(s, c))
  {
    var t := Finish(s, c);
    assert forall r :: 0 <= r < |s.rows| ==> RowEvolves(s.rows[r], t.rows[r]);
    assert forall i :: 0 <= i < |s.log| ==> t.log[i] == s.log[i] && Records(s.rows[s.log[i].row], s.log[i]);
  }

  lemma LoggedGrows(s: System, t: System, r: nat)
    requires s.log <= t.log && Logged(s, r)
    ensures Logged(t, r)
  {
  }

  lemma StepCompletes(s: System, e: Event)
    requires Complete(s)
    ensures Complete(Step(s, e))
  {
    var t := Step(s, e);
    assert s.log <= t.log;
    forall r | 0 <= r < |t.rows| && t.rows[r].consumedAt.Some? ensures Logged(t, r) {
      if r < |s.rows| && s.rows[r].consumedAt.Some? {
        LoggedGrows(s, t, r);
      } else {
        assert t.log[|s.log|].row == r;
      }
    }
  }

  lemma StepKeeps(s: System, e: Event)
    requires Inv(s)
    ensures Inv(Step(s, e)) && Evolves(s, Step(s, e))
  {
    StepCompletes(s, e);
    if e.Proceed? && e.id in s.callers {
      FinishKeeps(s.(callers := s.callers - {e.id}), s.callers[e.id]);
    } else {
      StepSound(s, e);
    }
  }

  lemma StepSound(s: System, e: Event)
    requires Sound(s) && !(e.Proceed? && e.id in s.callers)
    ensures Sound(Step(s, e)) && Evolves(s, Step(s, e))
  {
    if e.Request? || e.ExpireStale? {
      RowsSound(s, Step(s, e));
    } else {
      SelectSound(s, Step(s, e));
    }
  }

  /** A step that at most starts a caller. */
  lemma SelectSound(s: System, t: System)
    requires Sound(s) && t.rows == s.rows && t.log == s.log
    requires forall id :: id in t.callers && !(id in s.callers && t.callers[id] == s.callers[id]) ==>
        CallerOk(s.rows, t.callers[id])
    ensures Sound(t) && Evolves(s, t)
  {
  }

  /** A step that at most lets approvals lapse and adds requests. */
  lemma RowsSound(s: System, t: System)
    requires Sound(s) && t.callers == s.callers && t.log == s.log && |t.rows| >= |s.rows|
    requires forall r :: 0 <= r < |s.rows| ==> t.rows[r] == s.rows[r] || t.rows[r] == s.rows[r].(status := Lapsed)
    requires forall r :: |s.rows| <= r < |t.rows| ==> t.rows[r].status == Requested && t.rows[r].consumedAt == None
    ensures Sound(t) && Evolves(s, t)
  {
  }

  lemma EvolvesTransitive(s: System, t: System, u: System)
    requires Evolves(s, t) && Evolves(t, u)
    ensures Evolves(s, u)
  {
  }

  lemma {:induction false} RunKeeps(s: System, es: seq<Event>)
    requires Inv(s)
    ensures Inv(Run(s, es)) && Evolves(s, Run(s, es))
    decreases |es|
  {
    if es != [] {
      StepKeeps(s, es[0]);
      RunKeeps(Step(s, es[0]), es[1..]);
      EvolvesTransitive(s, Step(s, es[0]), Run(s, es));
    }
  }

  /** Single use under every interleaving: from any reachable state, a recorded consumption is never
      followed by another of the same approval, its record never changes, and no validity query
      returns the approval again. */
  lemma SingleUse(s: System, i: nat, es: seq<Event>)
    requires Inv(s) && i < |s.log|
    ensures var t, g := Run(s, es), s.log[i];
            && i < |t.log| && t.log[i] == g && g.row < |t.rows| && Records(t.rows[g.row], g)
            && (forall j :: 0 <= j < |t.log| && t.log[j].row == g.row ==> j == i)
            && (forall project, now :: !IsValid(t.rows[g.row], project, now))
  {
    RunKeeps(s, es);
  }

  // ---- When an approval can still be consumed ----

  predicate InFlight(s: System, row: nat, c: Caller -> bool)
  {
    exists id :: id in s.callers && s.callers[id].row == row && c(s.callers[id])
  }

  predicate ApprovalInFlight(s: System, row: nat) { InFlight(s, row, (c: Caller) => c.Approving?) }

  predicate ConsumptionInFlight(s: System, row: nat) { InFlight(s, row, (c: Caller) => c.Consuming?) }

  predicate CanBeApproved(s: System, row: nat)
    requires row < |s.rows|
  {
    || s.rows[row].status == Approved
    || ApprovalInFlight(s, row)
    || (s.rows[row].status == Requested && Unexpired(s.rows[row], s.clock))
  }

  predicate CanBeSelected(s: System, row: nat)
    requires row < |s.rows|
  {
    ConsumptionInFlight(s, row) || (s.rows[row].singleUse && Unexpired(s.rows[row], s.clock))
  }

  predicate CanBeConsumed(s: System, row: nat)
    requires row < |s.rows|
  {
    s.rows[row].consumedAt == None && CanBeApproved(s, row) && CanBeSelected(s, row)
  }

  predicate Unconsumable(s: System, row: nat)
  {
    row < |s.rows| && s.rows[row].consumedAt == None && !(CanBeApproved(s, row) && CanBeSelected(s, row))
  }

  lemma StaysUnconsumable(s: System, row: nat, e: Event)
    requires Unconsumable(s, row)
    ensures Unconsumable(Step(s, e), row)
  {
    var t := Step(s, e);
    assert t.rows[row].singleUse == s.rows[row].singleUse && t.rows[row].expires == s.rows[row].expires;
    assert t.clock >= s.clock;
    if ApprovalInFlight(t, row) && !ApprovalInFlight(s, row) {
      assert s.rows[row].status == Requested;
    }
    if e.Proceed? && e.id in s.callers && s.callers[e.id].row == row {
      assert s.callers[e.id].Approving? ==> ApprovalInFlight(s, row);
      assert s.callers[e.id].Consuming? ==> ConsumptionInFlight(s, row);
    }
  }

  lemma {:induction false} UnconsumableForever(s: System, row: nat, es: seq<Event>)
    requires Unconsumable(s, row)
    ensures Unconsumable(Run(s, es), row)
    decreases |es|
  {
    if es != [] {
      StaysUnconsumable(s, row, es[0]);
      UnconsumableForever(Step(s, es[0]), row, es[1..]);
    }
  }

  /** Some caller is always free to start. */
  lemma {:induction false} IdleCaller(busy: set<nat>) returns (id: nat)
    ensures forall b :: b in busy ==> b < id
  {
    if busy == {} {
      id := 0;
    } else {
      var b :| b in busy;
      var m := IdleCaller(busy - {b});
      assert forall x :: x in busy ==> x == b || x in busy - {b};
      id := if m > b then m else b + 1;
    }
  }

  lemma RunOne(s: System, a: Event)
    ensures Run(s, [a]) == Step(s, a)
  {
  }

  lemma RunTwo(s: System, a: Event, b: Event)
    ensures Run(s, [a, b]) == Step(Step(s, a), b)
  {
    assert [a, b][1..] == [b];
    RunOne(Step(s, a), b);
  }

  lemma {:induction false} RunConcat(s: System, a: seq<Event>, b: seq<Event>)
    ensures Run(s, a + b) == Run(Run(s, a), b)
    decreases |a|
  {
    if a == [] {
      assert a + b == b;
    } else {
      assert (a + b)[1..] == a[1..] + b;
      RunConcat(Step(s, a[0]), a[1..], b);
    }
  }

  /** The latest of the requests that bear the row's token, approved until the row is the latest. */
  lemma {:induction false} BecomeLatestRequest(s: System, row: nat) returns (es: seq<Event>)
    requires row < |s.rows| && s.rows[row].status == Requested && Unexpired(s.rows[row], s.clock)
    ensures var t := Run(s, es);
            && t.callers == s.callers && t.clock == s.clock && |t.rows| == |s.rows| && t.rows[row] == s.rows[row]
            && ApproveSelects(t.rows, row, t.clock)
    decreases Count(s.rows, Rival(s.rows[row], s.clock))
  {
    var hit := Rival(s.rows[row], s.clock);
    var r := Latest(s.rows, hit).value;
    if ApproveSelects(s.rows, row, s.clock) {
      es := [];
    } else {
      assert ApproveSelects(s.rows, r, s.clock) && r != row;
      var id := IdleCaller(s.callers.Keys);
      ApproveIsTwoSteps(s, id, r);
      var two := [SelectApprove(id, r), Proceed(id)];
      CountDrops(s.rows, hit, r, ApproveRow(s.rows[r]));
      var rest := BecomeLatestRequest(Run(s, two), row);
      es := two + rest;
      RunConcat(s, two, rest);
    }
  }

  /** An unexpired request with the same project and token. */
  function Rival(a: Approval, now: int): Approval -> bool
  {
    (b: Approval) => AwaitsToken(b, a.project, a.tokenHash) && Unexpired(b, now)
  }

  function Competitor(a: Approval, now: int): Approval -> bool
  {
    (b: Approval) => IsValid(b, a.project, now)
  }

  function SomeTask(a: Approval): (task: int)
    ensures Admits(a, task)
  {
    if a.allowed == [] then 0 else a.allowed[0]
  }

  /** The latest valid approvals of the project, consumed until the row is the latest. */
  lemma {:induction false} BecomeLatestValid(s: System, row: nat) returns (es: seq<Event>)
    requires row < |s.rows| && IsValid(s.rows[row], s.rows[row].project, s.clock)
    ensures var t := Run(s, es);
            && t.callers == s.callers && t.clock == s.clock && |t.rows| == |s.rows| && t.rows[row] == s.rows[row]
            && ConsumeSelects(t.rows, row, t.clock)
    decreases Count(s.rows, Competitor(s.rows[row], s.clock))
  {
    var hit := Competitor(s.rows[row], s.clock);
    var r := Latest(s.rows, hit).value;
    if ConsumeSelects(s.rows, row, s.clock) {
      es := [];
    } else {
      assert ConsumeSelects(s.rows, r, s.clock) && r != row;
      var id := IdleCaller(s.callers.Keys);
      var task := SomeTask(s.rows[r]);
      var two := [SelectConsume(id, r, 0, task), Proceed(id)];
      RunTwo(s, two[0], two[1]);
      assert s.callers[id := Consuming(r, 0, task, s.clock)] - {id} == s.callers;
      assert Run(s, two).rows == s.rows[r := ConsumeRow(s.rows[r], s.clock, Some(0), Some(task))];
      CountDrops(s.rows, hit, r, ConsumeRow(s.rows[r], s.clock, Some(0), Some(task)));
      var rest := BecomeLatestValid(Run(s, two), row);
      es := two + rest;
      RunConcat(s, two, rest);
    }
  }

  /** Steps that get the row approved without disturbing what its consumption needs. */
  lemma Approve(s: System, row: nat) returns (es: seq<Event>)
    requires row < |s.rows| && CanBeConsumed(s, row)
    ensures var t := Run(s, es);
            && row < |t.rows| && CanBeConsumed(t, row) && t.rows[row].status == Approved
  {
    if s.rows[row].status == Approved {
      es := [];
    } else if ApprovalInFlight(s, row) {
      var id :| id in s.callers && s.callers[id].row == row && s.callers[id].Approving?;
      es := [Proceed(id)];
      RunOne(s, es[0]);
      KeepsConsumers(s, Step(s, es[0]), row, id);
    } else {
      var first := BecomeLatestRequest(s, row);
      var id := IdleCaller(s.callers.Keys);
      var t := Run(s, first);
      var two := [SelectApprove(id, row), Proceed(id)];
      ApproveIsTwoSteps(t, id, row);
      RunConcat(s, first, two);
      es := first + two;
    }
  }

  lemma KeepsConsumers(s: System, t: System, row: nat, id: nat)
    requires id in s.callers && !s.callers[id].Consuming? && t.callers == s.callers - {id}
    ensures ConsumptionInFlight(s, row) ==> ConsumptionInFlight(t, row)
  {
    if ConsumptionInFlight(s, row) {
      var c :| c in s.callers && s.callers[c].row == row && s.callers[c].Consuming?;
      assert c in t.callers;
    }
  }

  lemma Consume(s: System, row: nat) returns (es: seq<Event>)
    requires row < |s.rows| && CanBeConsumed(s, row) && s.rows[row].status == Approved
    ensures var t := Run(s, es); row < |t.rows| && t.rows[row].consumedAt.Some?
  {
    if ConsumptionInFlight(s, row) {
      var id :| id in s.callers && s.callers[id].row == row && s.callers[id].Consuming?;
      es := [Proceed(id)];
      RunOne(s, es[0]);
    } else {
      var first := BecomeLatestValid(s, row);
      var id := IdleCaller(s.callers.Keys);
      var t, task := Run(s, first), SomeTask(s.rows[row]);
      var two := [SelectConsume(id, row, 0, task), Proceed(id)];
      RunTwo(t, two[0], two[1]);
      assert Step(t, two[0]).callers[id].Consuming?;
      RunConcat(s, first, two);
      es := first + two;
    }
  }

  /** An unconsumed approval can still be consumed, in some continuation, exactly when it is or can
      become approved and a consumption has selected it or still can. */
  lemma ConsumableExactly(s: System, row: nat)
    requires row < |s.rows| && s.rows[row].consumedAt == None
    ensures CanBeConsumed(s, row) <==>
            exists es :: row < |Run(s, es).rows| && Run(s, es).rows[row].consumedAt.Some?
  {
    if CanBeConsumed(s, row) {
      var a := Approve(s, row);
      var b := Consume(Run(s, a), row);
      RunConcat(s, a, b);
      assert row < |Run(s, a + b).rows| && Run(s, a + b).rows[row].consumedAt.Some?;
    } else {
      forall es ensures !(row < |Run(s, es).rows| && Run(s, es).rows[row].consumedAt.Some?) {
        UnconsumableForever(s, row, es);
      }
    }
  }

  /** Status alone protects nothing: a rejected approval is out of reach exactly when no approve that
      selected it earlier is still to come, or no consumption can follow. */
  lemma RejectionFinalExactly(s: System, row: nat)
    requires row < |s.rows| && s.rows[row].consumedAt == None && s.rows[row].status == Rejected
    ensures (forall es :: row < |Run(s, es).rows| ==> Run(s, es).rows[row].consumedAt == None)
       <==> !ApprovalInFlight(s, row) || !CanBeSelected(s, row)
  {
    ConsumableExactly(s, row);
    if !(forall es :: row < |Run(s, es).rows| ==> Run(s, es).rows[row].consumedAt == None) {
      var es :| row < |Run(s, es).rows| && Run(s, es).rows[row].consumedAt != None;
      assert Run(s, es).rows[row].consumedAt.Some?;
    }
  }

  // ---- When the status of a consumed approval stays ----

  /** An approve or a reject that selected the row is still to come. */
  predicate DecisionInFlight(s: System, row: nat) { InFlight(s, row, (c: Caller) => !c.Consuming?) }

  predicate ConsumedForGood(s: System, row: nat)
  {
    && row < |s.rows| && s.rows[row].status == Consumed && s.rows[row].consumedAt.Some?
    && !DecisionInFlight(s, row)
  }

  lemma StepKeepsConsumed(s: System, row: nat, e: Event)
    requires ConsumedForGood(s, row)
    ensures ConsumedForGood(Step(s, e), row)
  {
    if e.Proceed? && e.id in s.callers && s.callers[e.id].row == row {
      assert !s.callers[e.id].Consuming? ==> DecisionInFlight(s, row);
    }
    if DecisionInFlight(Step(s, e), row) {
      var id :| id in Step(s, e).callers && Step(s, e).callers[id].row == row && !Step(s, e).callers[id].Consuming?;
      assert id in s.callers && s.callers[id] == Step(s, e).callers[id] ==> DecisionInFlight(s, row);
    }
  }

  lemma {:induction false} ConsumedStays(s: System, row: nat, es: seq<Event>)
    requires ConsumedForGood(s, row)
    ensures ConsumedForGood(Run(s, es), row)
    decreases |es|
  {
    if es != [] {
      StepKeepsConsumed(s, row, es[0]);
      ConsumedStays(Step(s, es[0]), row, es[1..]);
    }
  }

  /** A consumed approval reads consumed in every continuation exactly when no approve or reject that
      selected it earlier is still to come. */
  lemma ConsumedStatusFinalExactly(s: System, row: nat)
    requires row < |s.rows| && s.rows[row].status == Consumed && s.rows[row].consumedAt.Some?
    ensures (forall es :: row < |Run(s, es).rows| ==> Run(s, es).rows[row].status == Consumed)
       <==> !DecisionInFlight(s, row)
  {
    if DecisionInFlight(s, row) {
      var id :| id in s.callers && s.callers[id].row == row && !s.callers[id].Consuming?;
      RunOne(s, Proceed(id));
      assert Run(s, [Proceed(id)]).rows[row].status in {Approved, Rejected};
    } else {
      forall es ensures row < |Run(s, es).rows| && Run(s, es).rows[row].status == Consumed {
        ConsumedStays(s, row, es);
      }
    }
  }

  /** Two approvals of one request can be under way at once: here the first has just been made. */
  lemma RaceIsReachable() returns (es: seq<Event>)
    ensures Run(System([], map[], 0, []), es)
         == System([ApproveRow(RequestRow(1, [7], 3, 0, 24))], map[2 := Approving(0)], 0, [])
  {
    var s0, a := System([], map[], 0, []), RequestRow(1, [7], 3, 0, 24);
    es := [Request(1, [7], 3, 24), SelectApprove(1, 0)] + [SelectApprove(2, 0), Proceed(1)];
    var s2 := System([a], map[1 := Approving(0)], 0, []);
    assert Step(Step(s0, es[0]), es[1]) == s2;
    RunTwo(s0, es[0], es[1]);
    assert Step(s2, es[2]).callers == map[1 := Approving(0), 2 := Approving(0)];
    assert Step(Step(s2, es[2]), es[3]).callers == map[2 := Approving(0)];
    RunTwo(s2, es[2], es[3]);
    RunConcat(s0, [es[0], es[1]], [es[2], es[3]]);
  }

  /** From there the approval can be consumed and read as approved again afterwards: the status is
      not what makes an approval single-use. */
  lemma ConsumedCanReadApproved(s: System)
    requires s == System([ApproveRow(RequestRow(1, [7], 3, 0, 24))], map[2 := Approving(0)], 0, [])
    ensures exists es :: var t := Run(s, es);
              |t.log| == 1 && t.log[0].row == 0 && |t.rows| == 1 && t.rows[0].status == Approved
  {
    var es := [SelectConsume(3, 0, 9, 7), Proceed(3)] + [Proceed(2)];
    RunTwo(s, es[0], es[1]);
    var u := Step(Step(s, es[0]), es[1]);
    assert Step(s, es[0]).callers == map[2 := Approving(0), 3 := Consuming(0, 9, 7, 0)];
    assert u.callers == map[2 := Approving(0)] && u.log == [Grant(0, 9, 7, 0)];
    RunOne(u, es[2]);
    RunConcat(s, [es[0], es[1]], [es[2]]);
    assert Run(s, es).rows[0].status == Approved;
  }
}
