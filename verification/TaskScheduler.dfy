/** Which tasks may run now, in which order, and the diagnosis of those that may not. */
module TaskScheduler {
  import opened Schema
  import opened Leases
  import Text

  // ---- Dependencies ----

  datatype DependencyRef = IdRef(id: int) | TitleRef(title: string) | InvalidRef

  /** normalize_dependencies on one element; None when the element is ignored. */
  function NormalizeOne(raw: Json): Option<DependencyRef>
  {
    match raw
    case JNull => None
    case JInt(n) => Some(IdRef(n))
    case JString(s) =>
      var stripped := Text.Strip(s);
      if stripped == [] then None
      else if Text.IsDigits(stripped) then Some(IdRef(Text.ToNat(stripped)))
      else Some(TitleRef(stripped))
    case JBool(_) | JOther => Some(InvalidRef)
  }

  function NormalizeAll(raws: seq<Json>): seq<DependencyRef>
  {
    if raws == [] then []
    else
      var front := NormalizeAll(raws[..|raws| - 1]);
      match NormalizeOne(raws[|raws| - 1])
      case None => front
      case Some(r) => front + [r]
  }

  method NormalizeDependencies(raws: seq<Json>) returns (refs: seq<DependencyRef>)
    ensures refs == NormalizeAll(raws)
  {
    refs := [];
    for i := 0 to |raws|
      invariant refs == NormalizeAll(raws[..i])
    {
      assert raws[..i + 1][..i] == raws[..i];
      match NormalizeOne(raws[i])
      case None =>
      case Some(r) => refs := refs + [r];
    }
    assert raws[..|raws|] == raws;
  }

  /** The three historical spellings of an id, 26, "26" and " 26 ", name the same task. */
  lemma SpellingsOfAnId(n: nat, left: string, right: string)
    requires forall i :: 0 <= i < |left| ==> Text.IsSpace(left[i])
    requires forall i :: 0 <= i < |right| ==> Text.IsSpace(right[i])
    ensures NormalizeOne(JString(left + Text.Decimal(n) + right)) == NormalizeOne(JInt(n)) == Some(IdRef(n))
  {
    var word := Text.Numeral(n);
    Text.NumeralReads(n);
    assert Text.IsDigit(word[0]) && Text.IsDigit(word[|word| - 1]);
    Text.StripPadded(left, word, right);
  }

  function Dependencies(t: Task): seq<DependencyRef>
  {
    NormalizeAll(t.dependencies)
  }

  function TitleMatches(tasks: map<int, Task>, project: int, title: string): set<int>
  {
    set id | id in tasks && tasks[id].project == project && tasks[id].title == title
  }

  predicate IsCompleted(tasks: map<int, Task>, id: int)
  {
    id in tasks && tasks[id].status == Completed
  }

  /** A title counts only when exactly one task of the project bears it; an id may name a task of
      any project. */
  predicate Satisfied(tasks: map<int, Task>, project: int, r: DependencyRef)
  {
    match r
    case InvalidRef => false
    case IdRef(id) => IsCompleted(tasks, id)
    case TitleRef(title) =>
      var m := TitleMatches(tasks, project, title);
      |m| == 1 && forall id :: id in m ==> IsCompleted(tasks, id)
  }

  predicate AllSatisfied(tasks: map<int, Task>, project: int, refs: seq<DependencyRef>)
  {
    forall i :: 0 <= i < |refs| ==> Satisfied(tasks, project, refs[i])
  }

  lemma EmptyOrNot(ids: set<int>)
    ensures ids == {} || exists x :: x in ids
  {
    if forall x :: x !in ids {
      assert ids == {};
    }
  }

  lemma TheOnly<T>(s: set<T>, x: T)
    requires |s| == 1 && x in s
    ensures forall y :: y in s ==> y == x
  {
    assert |s - {x}| == 0;
    assert s == {x} + (s - {x});
  }

  /** _check_dependencies */
  method CheckDependencies(db: Database, project: int, refs: seq<DependencyRef>) returns (ok: bool)
    ensures ok == AllSatisfied(db.tasks, project, refs)
  {
    for i := 0 to |refs|
      invariant AllSatisfied(db.tasks, project, refs[..i])
    {
      match refs[i]
      case InvalidRef => return false;
      case IdRef(id) =>
        if id !in db.tasks {
          return false;
        }
        if db.tasks[id].status != Completed {
          return false;
        }
      case TitleRef(title) =>
        var m := TitleMatches(db.tasks, project, title);
        if |m| == 0 {
          return false;
        }
        if |m| > 1 {
          return false;
        }
        EmptyOrNot(m);
        var id :| id in m;
        TheOnly(m, id);
        if db.tasks[id].status != Completed {
          return false;
        }
    }
    return true;
  }

  // ---- Runnable tasks ----

  function FilesOf(t: Task): seq<string>
  {
    match t.files
    case MissingFiles => []
    case FilesText(parsed) => parsed
  }

  /** _is_runnable */
  predicate PassesChecks(db: Db, id: int, now: int)
    requires id in db.tasks
  {
    && AllSatisfied(db.tasks, db.tasks[id].project, Dependencies(db.tasks[id]))
    && !Leased(db.leases, id, now)
    && FilesOf(db.tasks[id]) != []
    && !db.tasks[id].manual
  }

  predicate IsCandidate(tasks: map<int, Task>, project: int, id: int)
  {
    id in tasks && tasks[id].project == project && tasks[id].status == Pending && tasks[id].readiness == Ready
  }

  predicate ProjectOpen(db: Db, project: int)
  {
    project in db.projects && !db.projects[project].paused
  }

  function RunnableSet(db: Db, project: int, now: int): set<int>
  {
    set id | id in db.tasks && ProjectOpen(db, project) && IsCandidate(db.tasks, project, id)
        && PassesChecks(db, id, now)
  }

  /** ORDER BY priority DESC, sort_order ASC, id ASC */
  predicate Before(tasks: map<int, Task>, a: int, b: int)
    requires a in tasks && b in tasks
  {
    if tasks[a].priority != tasks[b].priority then tasks[a].priority > tasks[b].priority
    else if tasks[a].sortOrder != tasks[b].sortOrder then tasks[a].sortOrder < tasks[b].sortOrder
    else a < b
  }

  /** A listing of exactly these ids in that order. */
  ghost predicate Lists(tasks: map<int, Task>, s: seq<int>, ids: set<int>)
  {
    && (forall x :: x in s <==> x in ids)
    && (forall x :: x in ids ==> x in tasks)
    && (forall i, j :: 0 <= i < j < |s| ==> Before(tasks, s[i], s[j]))
  }

  predicate IsFirst(tasks: map<int, Task>, ids: set<int>, first: int)
    requires forall x :: x in ids ==> x in tasks
  {
    first in ids && forall x :: x in ids && x != first ==> Before(tasks, first, x)
  }

  lemma {:induction false} HasFirst(tasks: map<int, Task>, ids: set<int>)
    requires ids != {} && forall x :: x in ids ==> x in tasks
    ensures exists first :: IsFirst(tasks, ids, first)
    decreases |ids|
  {
    EmptyOrNot(ids);
    var a :| a in ids;
    var rest := ids - {a};
    assert ids == rest + {a};
    if rest == {} {
      assert IsFirst(tasks, ids, a);
    } else {
      HasFirst(tasks, rest);
      var b :| IsFirst(tasks, rest, b);
      assert IsFirst(tasks, ids, if Before(tasks, b, a) then b else a);
    }
  }

  /** The listing the ORDER BY clause produces. */
  function Ordered(tasks: map<int, Task>, ids: set<int>): (s: seq<int>)
    requires forall x :: x in ids ==> x in tasks
    ensures Lists(tasks, s, ids)
    decreases |ids|
  {
    if ids == {} then []
    else
      HasFirst(tasks, ids);
      var first :| first in ids && IsFirst(tasks, ids, first);
      [first] + Ordered(tasks, ids - {first})
  }

  /** There is only one such listing. */
  lemma {:induction false} ListingUnique(tasks: map<int, Task>, a: seq<int>, b: seq<int>, ids: set<int>)
    requires Lists(tasks, a, ids) && Lists(tasks, b, ids)
    ensures a == b
    decreases |a|
  {
    ListEmpty(tasks, a, ids);
    ListEmpty(tasks, b, ids);
    if a != [] {
      var x := a[0];
      assert x in a && x in ids && x in b;
      var i :| 0 <= i < |b| && b[i] == x;
      var y := b[0];
      assert y in b && y in ids && y in a;
      var j :| 0 <= j < |a| && a[j] == y;
      assert i == 0;
      ListTail(tasks, a, ids);
      ListTail(tasks, b, ids);
      ListingUnique(tasks, a[1..], b[1..], ids - {a[0]});
      assert a == [a[0]] + a[1..] && b == [b[0]] + b[1..];
    }
  }

  lemma ListEmpty(tasks: map<int, Task>, s: seq<int>, ids: set<int>)
    requires Lists(tasks, s, ids)
    ensures s == [] <==> ids == {}
  {
    EmptyOrNot(ids);
    if s != [] {
      var x := s[0];
      assert x in s && x in ids;
    }
  }

  lemma ListTail(tasks: map<int, Task>, s: seq<int>, ids: set<int>)
    requires Lists(tasks, s, ids) && s != []
    ensures Lists(tasks, s[1..], ids - {s[0]})
  {
  }

  function RunnableList(db: Db, project: int, now: int): (s: seq<int>)
    ensures Lists(db.tasks, s, RunnableSet(db, project, now))
  {
    Ordered(db.tasks, RunnableSet(db, project, now))
  }

  /** find_runnable_tasks: sort the candidates, then filter. It refines "list the runnable set". */
  method FindRunnableTasks(db: Database, project: int, now: int) returns (runnable: seq<int>)
    ensures runnable == RunnableList(db.State(), project, now)
  {
    ghost var all := RunnableSet(db.State(), project, now);
    if project !in db.projects || db.projects[project].paused {
      assert all == {};
      return [];
    }
    var candidates := Ordered(db.tasks, set id | id in db.tasks && IsCandidate(db.tasks, project, id));
    runnable := [];
    for i := 0 to |candidates|
      invariant Lists(db.tasks, runnable, Among(candidates[..i], all))
    {
      var id := candidates[i];
      assert id in candidates;
      AmongSnoc(candidates[..i], id, all);
      assert candidates[..i + 1] == candidates[..i] + [id];
      var keep := IsRunnable(db, id, now);
      if keep {
        assert forall x :: x in runnable ==> x in Among(candidates[..i], all);
        assert forall x :: x in runnable ==> Before(db.tasks, x, id);
        AppendListed(db.tasks, runnable, Among(candidates[..i], all), id);
        runnable := runnable + [id];
      }
    }
    assert candidates[..|candidates|] == candidates;
    assert forall x :: x in all ==> x in candidates;
    assert Among(candidates, all) == all;
    ListingUnique(db.tasks, runnable, RunnableList(db.State(), project, now), all);
  }

  function Among(s: seq<int>, ids: set<int>): set<int>
  {
    set x | x in s && x in ids
  }

  lemma AmongSnoc(s: seq<int>, id: int, ids: set<int>)
    ensures Among(s + [id], ids) == if id in ids then Among(s, ids) + {id} else Among(s, ids)
  {
  }

  lemma AppendListed(tasks: map<int, Task>, s: seq<int>, ids: set<int>, id: int)
    requires Lists(tasks, s, ids) && id in tasks && forall x :: x in s ==> x in tasks && Before(tasks, x, id)
    ensures Lists(tasks, s + [id], ids + {id})
  {
  }

  method IsRunnable(db: Database, id: int, now: int) returns (ok: bool)
    requires id in db.tasks
    ensures ok == PassesChecks(db.State(), id, now)
  {
    var refs := NormalizeDependencies(db.tasks[id].dependencies);
    if refs != [] {
      var met := CheckDependencies(db, db.tasks[id].project, refs);
      if !met {
        return false;
      }
    }
    if Leased(db.leases, id, now) {
      return false;
    }
    if FilesOf(db.tasks[id]) == [] {
      return false;
    }
    return !db.tasks[id].manual;
  }

  // ---- Diagnosis ----

  datatype Reason =
    | NotReady | BadDependency | UnknownId(id: int) | UnfinishedId(id: int)
    | UnknownTitle(title: string) | AmbiguousTitle(title: string) | UnfinishedTitle(title: string)
    | HasLease | NoFiles | NeedsManual | PromptMissing | FieldMissing

  /** The dependency part of get_queue_status: a second implementation of the check, which goes on
      after a failure and collects reasons. */
  method DiagnoseDependencies(db: Database, project: int, refs: seq<DependencyRef>) returns (reasons: seq<Reason>)
    ensures reasons == [] <==> AllSatisfied(db.tasks, project, refs)
    ensures |reasons| <= |refs|
    ensures forall r :: r in reasons ==> exists i :: 0 <= i < |refs| && Explains(db.tasks, project, refs[i], r)
  {
    reasons := [];
    for i := 0 to |refs|
      invariant |reasons| <= i
      invariant reasons == [] <==> AllSatisfied(db.tasks, project, refs[..i])
      invariant forall r :: r in reasons ==> exists j :: 0 <= j < i && Explains(db.tasks, project, refs[j], r)
    {
      ghost var before := reasons;
      assert refs[..i + 1] == refs[..i] + [refs[i]];
      match refs[i]
      case InvalidRef => reasons := reasons + [BadDependency];
      case IdRef(id) =>
        if id !in db.tasks {
          reasons := reasons + [UnknownId(id)];
        } else if db.tasks[id].status != Completed {
          reasons := reasons + [UnfinishedId(id)];
        }
      case TitleRef(title) =>
        var m := TitleMatches(db.tasks, project, title);
        if |m| == 0 {
          reasons := reasons + [UnknownTitle(title)];
        } else if |m| > 1 {
          reasons := reasons + [AmbiguousTitle(title)];
        } else {
          EmptyOrNot(m);
          var id :| id in m;
          TheOnly(m, id);
          if db.tasks[id].status != Completed {
            reasons := reasons + [UnfinishedTitle(title)];
          }
        }
      assert Satisfied(db.tasks, project, refs[i]) <==> reasons == before;
      assert !Satisfied(db.tasks, project, refs[i]) ==> Explains(db.tasks, project, refs[i], reasons[|before|]);
    }
    assert refs[..|refs|] == refs;
  }

  /** The reason given is the one that applies. */
  predicate Explains(tasks: map<int, Task>, project: int, ref: DependencyRef, r: Reason)
  {
    match ref
    case InvalidRef => r == BadDependency
    case IdRef(id) => if id in tasks then r == UnfinishedId(id) && tasks[id].status != Completed else r == UnknownId(id)
    case TitleRef(title) =>
      var m := TitleMatches(tasks, project, title);
      if |m| == 0 then r == UnknownTitle(title)
      else if |m| > 1 then r == AmbiguousTitle(title)
      else r == UnfinishedTitle(title) && exists id :: id in m && tasks[id].status != Completed
  }

  /** A pending task gets no reason at all. */
  predicate Unblocked(db: Db, id: int, now: int)
    requires id in db.tasks
  {
    var t := db.tasks[id];
    && t.readiness == Ready
    && AllSatisfied(db.tasks, t.project, Dependencies(t))
    && !Leased(db.leases, id, now)
    && t.files != MissingFiles && !t.manual && t.prompt == PromptText && t.missingFields == 0
  }

  method BlockedReasons(db: Database, id: int, now: int) returns (reasons: seq<Reason>)
    requires id in db.tasks
    ensures reasons == [] <==> Unblocked(db.State(), id, now)
  {
    var t := db.tasks[id];
    reasons := if t.readiness != Ready then [NotReady] else [];
    var refs := NormalizeDependencies(t.dependencies);
    var more := DiagnoseDependencies(db, t.project, refs);
    reasons := reasons + more;
    if Leased(db.leases, id, now) {
      reasons := reasons + [HasLease];
    }
    if t.files == MissingFiles {
      reasons := reasons + [NoFiles];
    }
    if t.manual {
      reasons := reasons + [NeedsManual];
    }
    if t.prompt != PromptText {
      reasons := reasons + [PromptMissing];
    }
    reasons := reasons + seq(t.missingFields, i => FieldMissing);
  }

  /** The blocked_tasks list of get_queue_status. */
  method BlockedTasks(db: Database, project: int, now: int) returns (blocked: seq<int>)
    ensures forall id :: id in blocked <==>
              id in db.tasks && db.tasks[id].project == project && db.tasks[id].status == Pending
              && !Unblocked(db.State(), id, now)
  {
    var ids := set id | id in db.tasks && db.tasks[id].project == project && db.tasks[id].status == Pending;
    var pending := Ordered(db.tasks, ids);
    blocked := [];
    for i := 0 to |pending|
      invariant forall id :: id in blocked <==> id in pending[..i] && !Unblocked(db.State(), id, now)
    {
      assert pending[..i + 1] == pending[..i] + [pending[i]];
      assert pending[i] in pending;
      var reasons := BlockedReasons(db, pending[i], now);
      if reasons != [] {
        blocked := blocked + [pending[i]];
      }
    }
    assert pending[..|pending|] == pending;
  }

  /** The two implementations agree: a pending task of an open project that is not reported blocked
      is runnable exactly when its file list parses to something. */
  lemma UnblockedMeansRunnable(db: Db, project: int, id: int, now: int)
    requires ProjectOpen(db, project) && id in db.tasks && db.tasks[id].project == project
    requires db.tasks[id].status == Pending && Unblocked(db, id, now)
    ensures id in RunnableSet(db, project, now) <==> db.tasks[id].files.parsed != []
  {
  }

  /** A runnable task is reported blocked exactly when its prompt or another descriptive field is
      missing. */
  lemma RunnableReportedBlocked(db: Db, project: int, id: int, now: int)
    requires id in RunnableSet(db, project, now)
    ensures Unblocked(db, id, now) <==> db.tasks[id].prompt == PromptText && db.tasks[id].missingFields == 0
  {
  }
}
