/** What an entry of the dependencies column means for its task: exact laws on the column as stored. */
module DependencyLaws {
  import opened Schema
  import opened TaskScheduler
  import opened LoopController
  import LoopSafety
  import Text

  /** The blanks among the ASCII characters: space, tabs, line ends, form feed and the separators. */
  predicate IsBlank(c: char)
  {
    c in {' ', '\t', '\n', '\r', '\U{0B}', '\U{0C}', '\U{1C}', '\U{1D}', '\U{1E}', '\U{1F}'}
  }

  predicate Blank(s: string)
  {
    forall i :: 0 <= i < |s| ==> IsBlank(s[i])
  }

  /** Neither empty nor with a blank at an end. */
  predicate Trimmed(s: string)
  {
    s != [] && !IsBlank(s[0]) && !IsBlank(s[|s| - 1])
  }

  lemma BlanksAreSpaces(c: char)
    ensures IsBlank(c) <==> Text.IsSpace(c)
  {
  }

  /** Whatever is blank around a trimmed word is stripped from it. */
  lemma StripsBlanks(left: string, word: string, right: string)
    requires Blank(left) && Trimmed(word) && Blank(right)
    ensures Text.Strip(left + word + right) == word
  {
    forall c ensures IsBlank(c) <==> Text.IsSpace(c) {
      BlanksAreSpaces(c);
    }
    Text.StripPadded(left, word, right);
  }

  /** The tables with another dependencies column for one task. */
  function WithColumn(db: Db, id: int, raws: seq<Json>): Db
    requires id in db.tasks
  {
    db.(tasks := db.tasks[id := db.tasks[id].(dependencies := raws)])
  }

  lemma {:induction false} NormalizeConcat(a: seq<Json>, b: seq<Json>)
    ensures NormalizeAll(a + b) == NormalizeAll(a) + NormalizeAll(b)
    decreases |b|
  {
    if b == [] {
      assert a + b == a;
    } else {
      var front, last := b[..|b| - 1], b[|b| - 1];
      assert (a + b)[..|a + b| - 1] == a + front;
      NormalizeConcat(a, front);
    }
  }

  lemma NormalizeSplit(before: seq<Json>, raw: Json, after: seq<Json>)
    ensures NormalizeAll(before + [raw] + after) == NormalizeAll(before) + NormalizeAll([raw]) + NormalizeAll(after)
    ensures NormalizeAll(before + after) == NormalizeAll(before) + NormalizeAll(after)
    ensures NormalizeAll([raw]) == if NormalizeOne(raw).Some? then [NormalizeOne(raw).value] else []
  {
    NormalizeConcat(before + [raw], after);
    NormalizeConcat(before, [raw]);
    NormalizeConcat(before, after);
    assert [raw][..0] == [];
  }

  /** Dependencies look at projects, titles and statuses only. */
  lemma ColumnIsPrivate(db: Db, id: int, raws: seq<Json>, project: int, ref: DependencyRef)
    requires id in db.tasks
    ensures Satisfied(WithColumn(db, id, raws).tasks, project, ref) <==> Satisfied(db.tasks, project, ref)
  {
    if ref.TitleRef? {
      assert TitleMatches(WithColumn(db, id, raws).tasks, project, ref.title)
          == TitleMatches(db.tasks, project, ref.title);
    }
  }

  /** One entry of a column and the rest of it. */
  lemma OneEntry(db: Db, project: int, id: int, now: int, before: seq<Json>, raw: Json, after: seq<Json>)
    requires id in db.tasks && db.tasks[id].dependencies == before + [raw] + after
    ensures id in RunnableSet(db, project, now)
       <==> && id in RunnableSet(WithColumn(db, id, before + after), project, now)
            && (NormalizeOne(raw).Some? ==> Satisfied(db.tasks, project, NormalizeOne(raw).value))
  {
    var d, p := WithColumn(db, id, before + after), db.tasks[id].project;
    var all, one, rest := Dependencies(db.tasks[id]), NormalizeAll([raw]), Dependencies(d.tasks[id]);
    NormalizeSplit(before, raw, after);
    forall ref ensures Satisfied(d.tasks, p, ref) <==> Satisfied(db.tasks, p, ref) {
      ColumnIsPrivate(db, id, before + after, p, ref);
    }
    SatisfiedByElement(db.tasks, p, all);
    SatisfiedByElement(db.tasks, p, rest);
    SatisfiedByElement(d.tasks, p, rest);
    assert forall ref :: ref in all <==> ref in one || ref in rest;
  }

  lemma SatisfiedByElement(tasks: map<int, Task>, project: int, refs: seq<DependencyRef>)
    ensures AllSatisfied(tasks, project, refs) <==> forall ref :: ref in refs ==> Satisfied(tasks, project, ref)
  {
  }

  // ---- The kinds of entries ----

  /** Exactly one task of the project bears the title, and it is completed. */
  predicate OnlyAndCompleted(tasks: map<int, Task>, project: int, title: string)
  {
    exists other :: other in tasks && IsOnly(tasks, project, title, other) && tasks[other].status == Completed
  }

  predicate IsOnly(tasks: map<int, Task>, project: int, title: string, other: int)
  {
    && other in tasks && tasks[other].project == project && tasks[other].title == title
    && forall t :: t in tasks && tasks[t].project == project && tasks[t].title == title ==> t == other
  }

  lemma OnlyExactly(tasks: map<int, Task>, project: int, title: string)
    ensures Satisfied(tasks, project, TitleRef(title)) <==> OnlyAndCompleted(tasks, project, title)
  {
    var m := TitleMatches(tasks, project, title);
    if |m| == 1 {
      var other := OnlyBearer(tasks, project, title);
    }
    if OnlyAndCompleted(tasks, project, title) {
      var other :| other in tasks && IsOnly(tasks, project, title, other) && tasks[other].status == Completed;
      forall t ensures t in m <==> t == other {
        assert t in m ==> t in tasks && tasks[t].project == project && tasks[t].title == title;
      }
      assert m == {other};
    }
  }

  lemma OnlyBearer(tasks: map<int, Task>, project: int, title: string) returns (other: int)
    requires |TitleMatches(tasks, project, title)| == 1
    ensures IsOnly(tasks, project, title, other) && other in TitleMatches(tasks, project, title)
  {
    var m := TitleMatches(tasks, project, title);
    EmptyOrNot(m);
    other :| other in m;
    TheOnly(m, other);
    forall t | t in tasks && tasks[t].project == project && tasks[t].title == title ensures t == other {
      assert t in m;
    }
  }

  /** A title, padded or not: the task can run exactly when it could without this entry and exactly one
      task of its project bears the title, which is completed. */
  lemma TitleEntry(db: Db, project: int, id: int, now: int, before: seq<Json>, after: seq<Json>,
                   left: string, title: string, right: string)
    requires Blank(left) && Blank(right) && Trimmed(title) && !Text.IsDigits(title)
    requires id in db.tasks && db.tasks[id].dependencies == before + [JString(left + title + right)] + after
    ensures id in RunnableSet(db, project, now)
       <==> && id in RunnableSet(WithColumn(db, id, before + after), project, now)
            && OnlyAndCompleted(db.tasks, project, title)
  {
    OneEntry(db, project, id, now, before, JString(left + title + right), after);
    StripsBlanks(left, title, right);
    OnlyExactly(db.tasks, project, title);
  }

  /** A number, or digits, padded or not, with whatever leading zeros: exactly when it could without this
      entry and the task of that id, of whichever project, is completed. */
  lemma NumberEntry(db: Db, project: int, id: int, now: int, before: seq<Json>, raw: Json, after: seq<Json>,
                    left: string, digits: string, right: string, n: int)
    requires Blank(left) && Blank(right) && Text.IsDigits(digits)
    requires raw == JInt(n) || (raw == JString(left + digits + right) && n == Text.ToNat(digits))
    requires id in db.tasks && db.tasks[id].dependencies == before + [raw] + after
    ensures id in RunnableSet(db, project, now)
       <==> && id in RunnableSet(WithColumn(db, id, before + after), project, now)
            && n in db.tasks && db.tasks[n].status == Completed
  {
    OneEntry(db, project, id, now, before, raw, after);
    assert Text.IsDigit(digits[0]) && Text.IsDigit(digits[|digits| - 1]);
    StripsBlanks(left, digits, right);
  }

  /** A boolean, a number with a fraction, a list or an object: the task can never run. */
  lemma UnusableEntry(db: Db, project: int, id: int, now: int, before: seq<Json>, raw: Json, after: seq<Json>)
    requires raw.JBool? || raw.JOther?
    requires id in db.tasks && db.tasks[id].dependencies == before + [raw] + after
    ensures id !in RunnableSet(db, project, now)
  {
    OneEntry(db, project, id, now, before, raw, after);
  }

  /** A null or a blank string might as well be missing. */
  lemma BlankEntry(db: Db, project: int, id: int, now: int, before: seq<Json>, raw: Json, after: seq<Json>)
    requires raw.JNull? || (raw.JString? && Blank(raw.s))
    requires id in db.tasks && db.tasks[id].dependencies == before + [raw] + after
    ensures id in RunnableSet(db, project, now)
       <==> id in RunnableSet(WithColumn(db, id, before + after), project, now)
  {
    OneEntry(db, project, id, now, before, raw, after);
    if raw.JString? {
      forall i | 0 <= i < |raw.s| ensures Text.IsSpace(raw.s[i]) {
        BlanksAreSpaces(raw.s[i]);
      }
      Text.StripLeftPadded(raw.s, []);
      assert raw.s + [] == raw.s;
    }
  }

  /** Without dependencies: a pending, ready, automatic task with files, of an open project, under no
      lease that is active and has yet to expire. */
  lemma NoEntries(db: Db, project: int, id: int, now: int)
    requires id in db.tasks && db.tasks[id].dependencies == []
    ensures var t := db.tasks[id];
            id in RunnableSet(db, project, now)
            <==> && project in db.projects && !db.projects[project].paused && t.project == project
                 && t.status == Pending && t.readiness == Ready && !t.manual
                 && t.files.FilesText? && t.files.parsed != []
                 && !(id in db.leases && db.leases[id].status == LeaseActive
                      && db.leases[id].expires.Some? && db.leases[id].expires.value > now)
  {
    assert Dependencies(db.tasks[id]) == [];
  }

  // ---- Over whole runs ----

  /** The task was completed at the start, or an execution before position i has completed it. */
  predicate CompletedBy(tasks: map<int, Task>, trace: seq<Event>, i: nat, id: int)
  {
    || (id in tasks && tasks[id].status == Completed)
    || exists j :: 0 <= j < i && j < |trace| && trace[j].Executed? && trace[j].task == id
                   && trace[j].status == Completed
  }

  /** Over every run: a task whose column names another by its title is executed only after that one,
      the only bearer of the title in the project, has been completed. */
  lemma TitledFirst(cfg: Config, s: LoopState, turns: seq<Turn>, i: nat, k: nat,
                    left: string, title: string, right: string)
    requires s.trace == [] && forall j :: 0 <= j < |turns| ==> LoopSafety.TasksUntouched(turns[j])
    requires Blank(left) && Blank(right) && Trimmed(title) && !Text.IsDigits(title)
    requires i < |Loop(cfg, s, turns).trace| && Loop(cfg, s, turns).trace[i].Executed?
    ensures var trace := Loop(cfg, s, turns).trace; var task := trace[i].task;
            && task in s.db.tasks
            && (k < |s.db.tasks[task].dependencies| && s.db.tasks[task].dependencies[k] == JString(left + title + right)
                ==> exists other :: IsOnly(s.db.tasks, s.db.tasks[task].project, title, other)
                                    && CompletedBy(s.db.tasks, trace, i, other))
  {
    LoopSafety.DependencyOrder(cfg, s, turns);
    var trace := Loop(cfg, s, turns).trace;
    var t := s.db.tasks[trace[i].task];
    if k < |t.dependencies| && t.dependencies[k] == JString(left + title + right) {
      var raw := t.dependencies[k];
      assert t.dependencies == t.dependencies[..k] + [raw] + t.dependencies[k + 1..];
      NormalizeSplit(t.dependencies[..k], raw, t.dependencies[k + 1..]);
      StripsBlanks(left, title, right);
      assert TitleRef(title) in Dependencies(t);
      DischargedTitle(s.db.tasks, trace, i, t.project, title);
    }
  }

  lemma DischargedTitle(tasks: map<int, Task>, trace: seq<Event>, i: nat, project: int, title: string)
    requires LoopSafety.Discharged(tasks, trace, i, project, TitleRef(title))
    ensures exists other :: IsOnly(tasks, project, title, other) && CompletedBy(tasks, trace, i, other)
  {
    var other := OnlyBearer(tasks, project, title);
    assert LoopSafety.Done(tasks, trace, i, other);
  }
}
