/** The judging queue as a transition system: polls, attempts at the selected solutions,
    and what happens outside, in any order the program and its environment allow. */
module Queue {
  import opened CInts
  import opened Tables
  import opened Loading
  import opened Json
  import opened Config
  import opened Judging

  const LIMIT: nat := 10

  /** `todo` holds the selected identifiers not yet attended; `running` turns false when an
      uncaught exception ends the program. */
  datatype State = State(
    tables: Tables, files: Files, clngs: map<string, Clng>, testsDir: string,
    todo: seq<Int32>, running: bool)

  datatype Event =
    | Poll(ids: seq<Int64>)              // the query's answer
    | PollThrows                         // outside any try block
    | LoadThrows                         // caught: the next solution is skipped
    | Judged(j: JudgeRun, saved: bool)   // the next solution is judged
    | Outside(tables: Tables)            // others edit problems and add solutions

  /** The solutions with status 0. */
  function Pending(t: Tables): set<Int64> {
    set id | id in t.solutions && t.solutions[id].status == STATUS_NOT_CHECKED
  }

  function Checked(t: Tables): set<Int64> {
    set id | id in t.solutions && t.solutions[id].status == STATUS_CHECKED
  }

  function SetOf<T(==)>(s: seq<T>): set<T> {
    set x | x in s
  }

  predicate Distinct<T(==)>(s: seq<T>) {
    forall i, j :: 0 <= i < j < |s| ==> s[i] != s[j]
  }

  function Min(a: int, b: int): int {
    if a < b then a else b
  }

  function Max(a: int, b: int): int {
    if a > b then a else b
  }

  /** An answer to "select id from solutions where status = 0 limit 10": the server picks
      which rows, and in which order. */
  predicate IsSelection(t: Tables, ids: seq<Int64>) {
    && Distinct(ids)
    && SetOf(ids) <= Pending(t)
    && |ids| == Min(LIMIT, |Pending(t)|)
  }

  /** In numbers: the selected rows have status 0, and there are ten of them, or all. */
  lemma SelectionInNumbers(t: Tables, ids: seq<Int64>)
    requires IsSelection(t, ids)
    ensures |ids| <= 10
    ensures forall id :: id in ids ==> id in t.solutions && t.solutions[id].status == 0
    ensures |ids| < 10 ==> forall id :: id in t.solutions && t.solutions[id].status == 0 ==> id in ids
    ensures forall i, j :: 0 <= i < j < |ids| ==> ids[i] != ids[j]
  {
    forall id | id in ids
      ensures id in Pending(t)
    {
      assert id in SetOf(ids);
    }
    if |ids| < 10 {
      DistinctSize(ids);
      SameSize(SetOf(ids), Pending(t));
      forall id | id in t.solutions && t.solutions[id].status == 0
        ensures id in ids
      {
        assert id in Pending(t);
        assert id in SetOf(ids);
      }
    }
  }

  lemma {:induction false} DistinctSize<T>(s: seq<T>)
    requires Distinct(s)
    ensures |SetOf(s)| == |s|
  {
    if s != [] {
      var n := |s| - 1;
      DistinctSize(s[..n]);
      assert SetOf(s) == SetOf(s[..n]) + {s[n]};
      assert s[n] !in s[..n];
    }
  }

  lemma SameSize<T>(a: set<T>, b: set<T>)
    requires a <= b && |a| == |b|
    ensures a == b
  {
    assert b == a + (b - a);
  }

  /** Each identifier is put into an `int`. */
  function ToInts(ids: seq<Int64>): (r: seq<Int32>)
    ensures |r| == |ids| && forall i :: 0 <= i < |ids| ==> r[i] == ToInt32(ids[i])
  {
    seq(|ids|, i requires 0 <= i < |ids| => ToInt32(ids[i]))
  }

  /** Outside changes leave existing solutions alone and add none whose identifier would be
      cut; all else they may alter. */
  ghost predicate OutsideChange(t: Tables, t': Tables) {
    && (forall id :: id in t'.solutions && id !in t.solutions ==> FitsInt32(id))
    && (forall id :: id in t.solutions ==> id in t'.solutions && t'.solutions[id] == t.solutions[id])
  }

  ghost predicate Enabled(s: State, e: Event) {
    s.running && match e
      case Poll(ids) => s.todo == [] && IsSelection(s.tables, ids)
      case PollThrows => s.todo == []
      case LoadThrows => s.todo != []
      case Judged(_, _) => s.todo != [] && LoadSolution(s.tables, s.todo[0]).Success?
      case Outside(t) => OutsideChange(s.tables, t)
  }

  /** The solution can be constructed. */
  predicate Loadable(t: Tables, id: int) {
    LoadSolution(t, id).Success?
  }

  /** What the run of the next solution does. */
  function NextOutcome(s: State, j: JudgeRun): Outcome
    requires s.todo != [] && LoadSolution(s.tables, s.todo[0]).Success?
  {
    var sol := LoadSolution(s.tables, s.todo[0]).value;
    var doc := Emit(DocumentJson(sol, s.clngs, s.testsDir));
    RunOutcome(s.files, SrcName(s.clngs, sol.pl.identifier), sol.code, doc, j)
  }

  function Step(s: State, e: Event): State
    requires Enabled(s, e)
  {
    match e
    case Poll(ids) => s.(todo := ToInts(ids))
    case PollThrows => s.(running := false)
    case LoadThrows => s.(todo := s.todo[1..])
    case Outside(t) => s.(tables := t)
    case Judged(j, saved) =>
      var sol := LoadSolution(s.tables, s.todo[0]).value;
      var outcome := NextOutcome(s, j);
      s.(todo := s.todo[1..], files := outcome.left, clngs := Touch(s.clngs, sol.pl.identifier),
         tables := if saved then SaveResult(s.tables, sol.id, outcome.result) else s.tables)
  }

  /** The event sequence `es` can happen from `s`. */
  ghost predicate CanRun(s: State, es: seq<Event>)
    decreases |es|, 0
  {
    es == [] ||
    (CanRun(s, es[..|es| - 1]) && Enabled(After(s, es[..|es| - 1]), es[|es| - 1]))
  }

  ghost function After(s: State, es: seq<Event>): State
    requires CanRun(s, es)
    decreases |es|, 1
  {
    if es == [] then s else Step(After(s, es[..|es| - 1]), es[|es| - 1])
  }

  lemma {:induction false} CanRunPrefix(s: State, es: seq<Event>, n: nat)
    requires CanRun(s, es) && n <= |es|
    ensures CanRun(s, es[..n])
  {
    if n < |es| {
      assert es[..|es| - 1][..n] == es[..n];
      CanRunPrefix(s, es[..|es| - 1], n);
    } else {
      assert es[..n] == es;
    }
  }

  lemma EventHappens(s: State, es: seq<Event>, k: nat)
    requires CanRun(s, es) && k < |es|
    ensures CanRun(s, es[..k]) && Enabled(After(s, es[..k]), es[k])
  {
    CanRunPrefix(s, es, k + 1);
    assert es[..k + 1][..k] == es[..k];
  }

  lemma RunAppend(s: State, es: seq<Event>, e: Event)
    requires CanRun(s, es) && Enabled(After(s, es), e)
    ensures CanRun(s, es + [e]) && After(s, es + [e]) == Step(After(s, es), e)
  {
    assert (es + [e])[..|es|] == es;
  }

  lemma SelectionExists(t: Tables)
    ensures exists ids :: IsSelection(t, ids)
  {
    var ids := SomeOf(Pending(t), Min(LIMIT, |Pending(t)|));
    assert IsSelection(t, ids);
  }

  lemma {:induction false} SomeOf(a: set<Int64>, n: nat) returns (r: seq<Int64>)
    requires n <= |a|
    ensures |r| == n && Distinct(r) && SetOf(r) <= a
  {
    if n == 0 {
      r := [];
    } else {
      var x :| x in a;
      var rest := SomeOf(a - {x}, n - 1);
      r := rest + [x];
      assert x !in SetOf(rest);
      assert forall y :: y in r ==> y in rest || y == x;
    }
  }

  lemma {:induction false} RunConcat(s: State, es: seq<Event>, more: seq<Event>)
    requires CanRun(s, es) && CanRun(After(s, es), more)
    ensures CanRun(s, es + more) && After(s, es + more) == After(After(s, es), more)
    ensures Polls(es + more) == Polls(es) + Polls(more)
  {
    hide LoadSolution, Step, Enabled;
    if more == [] {
      assert es + more == es;
    } else {
      var m := |more| - 1;
      RunConcat(s, es, more[..m]);
      assert (es + more)[..|es| + m] == es + more[..m];
      assert (es + more)[|es| + m] == more[m];
    }
  }

  // ----------------------------------------------------------- safety over runs

  /** The identifiers of pending solutions fit the `int` they are read into. */
  ghost predicate PendingIdsFit(t: Tables) {
    forall id :: id in Pending(t) ==> FitsInt32(id)
  }

  /** Selected solutions are pending and none is selected twice. */
  ghost predicate Inv(s: State) {
    && PendingIdsFit(s.tables)
    && Distinct(s.todo)
    && forall i :: 0 <= i < |s.todo| ==> s.todo[i] in Pending(s.tables)
  }

  lemma SaveIsLocal(t: Tables, id: int, result: string)
    ensures var t' := SaveResult(t, id, result);
      && t'.solutions.Keys == t.solutions.Keys
      && (forall x :: x in t.solutions && x != id ==> t'.solutions[x] == t.solutions[x])
      && (id in t.solutions ==>
          t'.solutions[id] == t.solutions[id].(result := result, status := 1))
      && t'.tasks == t.tasks && t'.langs == t.langs
      && t'.groups == t.groups && t'.cases == t.cases && t'.tests == t.tests
  {
  }

  /** The identifier a loaded solution carries is the one it was looked up by. */
  lemma LoadedId(t: Tables, id: Int32)
    requires LoadSolution(t, id).Success?
    ensures LoadSolution(t, id).value.id == id && id in t.solutions
  {
  }

  lemma StepKeepsInv(s: State, e: Event)
    requires Inv(s) && Enabled(s, e)
    ensures Inv(Step(s, e))
  {
    hide LoadSolution;
    match e {
      case Poll(ids) =>
        forall i | 0 <= i < |ids|
          ensures ToInts(ids)[i] == ids[i] && ids[i] in Pending(s.tables)
        {
          assert ids[i] in SetOf(ids);
        }
      case Judged(j, saved) =>
        LoadedId(s.tables, s.todo[0]);
        SaveIsLocal(s.tables, s.todo[0], NextOutcome(s, j).result);
      case _ =>
    }
  }

  /** The save a single event makes, if any. */
  ghost function SavesOf(s: State, e: Event): seq<(int, string)>
    requires Enabled(s, e)
  {
    if e.Judged? && e.saved then [(s.todo[0], NextOutcome(s, e.j).result)] else []
  }

  /** The saves of a run, in order: which solution, and the stored text. */
  ghost function Saves(s: State, es: seq<Event>): seq<(int, string)>
    requires CanRun(s, es)
  {
    if es == [] then []
    else Saves(s, es[..|es| - 1]) + SavesOf(After(s, es[..|es| - 1]), es[|es| - 1])
  }

  lemma SavesAppend(s: State, es: seq<Event>, e: Event)
    requires CanRun(s, es) && Enabled(After(s, es), e)
    ensures CanRun(s, es + [e])
    ensures Saves(s, es + [e]) == Saves(s, es) + SavesOf(After(s, es), e)
  {
    hide LoadSolution, Step, Enabled, SavesOf;
    RunAppend(s, es, e);
    assert (es + [e])[..|es|] == es;
  }

  lemma {:induction false} SavesConcat(s: State, es: seq<Event>, more: seq<Event>)
    requires CanRun(s, es) && CanRun(After(s, es), more)
    ensures CanRun(s, es + more)
    ensures Saves(s, es + more) == Saves(s, es) + Saves(After(s, es), more)
  {
    hide LoadSolution, Step, Enabled, SavesOf;
    RunConcat(s, es, more);
    if more == [] {
      assert es + more == es;
    } else {
      var m := |more| - 1;
      var front, last := more[..m], more[m];
      assert more == front + [last];
      SavesConcat(s, es, front);
      RunConcat(s, es, front);
      SavesConcatStep(s, es, front, last);
    }
  }

  lemma SavesConcatStep(s: State, es: seq<Event>, front: seq<Event>, last: Event)
    requires CanRun(s, es) && CanRun(After(s, es), front) && CanRun(s, es + front)
    requires After(s, es + front) == After(After(s, es), front)
    requires Enabled(After(s, es + front), last)
    requires Saves(s, es + front) == Saves(s, es) + Saves(After(s, es), front)
    ensures CanRun(s, es + (front + [last])) && CanRun(After(s, es), front + [last])
    ensures Saves(s, es + (front + [last])) == Saves(s, es) + Saves(After(s, es), front + [last])
  {
    hide *;
    SavesAppend(s, es + front, last);
    SavesAppend(After(s, es), front, last);
    assert es + (front + [last]) == es + front + [last];
  }

  ghost predicate Saved(saves: seq<(int, string)>, id: int) {
    exists k :: 0 <= k < |saves| && saves[k].0 == id
  }

  lemma SavedEarlier(saves: seq<(int, string)>, id: int)
    requires Saved(saves, id) && saves[|saves| - 1].0 != id
    ensures Saved(saves[..|saves| - 1], id)
  {
    var k :| 0 <= k < |saves| && saves[k].0 == id;
    assert saves[..|saves| - 1][k] == saves[k];
  }

  /** The text of the last save of a solution. */
  ghost function LastText(saves: seq<(int, string)>, id: int): string
    requires Saved(saves, id)
  {
    var n := |saves| - 1;
    if saves[n].0 == id then saves[n].1
    else
      SavedEarlier(saves, id);
      LastText(saves[..n], id)
  }

  ghost function Resaved(row: SolutionRow, id: int, saves: seq<(int, string)>): SolutionRow {
    if Saved(saves, id) then row.(result := LastText(saves, id), status := STATUS_CHECKED) else row
  }

  /** Every solution there was at first is as it was, or, if it was saved, differs exactly
      in its status and in its result; saved solutions, also those added by others, are
      checked and hold the last saved text. */
  ghost predicate Attributed(first: map<Int64, SolutionRow>, now: map<Int64, SolutionRow>,
                             saves: seq<(int, string)>) {
    && (forall id :: Saved(saves, id) ==>
        id in now && now[id].status == STATUS_CHECKED && now[id].result == LastText(saves, id))
    && (forall id :: id in first ==> id in now && now[id] == Resaved(first[id], id, saves))
  }

  lemma SavedAppend(saves: seq<(int, string)>, id: int, text: string)
    ensures forall x :: Saved(saves + [(id, text)], x) <==> x == id || Saved(saves, x)
    ensures forall x :: Saved(saves + [(id, text)], x) ==>
      LastText(saves + [(id, text)], x) == if x == id then text else LastText(saves, x)
  {
    var longer := saves + [(id, text)];
    assert longer[|saves|] == (id, text) && longer[..|saves|] == saves;
    assert forall k :: 0 <= k < |saves| ==> longer[k] == saves[k];
  }

  lemma AttributedSave(first: map<Int64, SolutionRow>, now: map<Int64, SolutionRow>,
                       saves: seq<(int, string)>, id: int, text: string)
    requires Attributed(first, now, saves) && id in now
    ensures Attributed(first, now[id := now[id].(result := text, status := STATUS_CHECKED)], saves + [(id, text)])
  {
    SavedAppend(saves, id, text);
  }

  /** Over every run, whatever the identifiers: nothing but a successful save of a solution
      changes its row. */
  lemma {:induction false} RunsAttributed(s: State, es: seq<Event>)
    requires CanRun(s, es)
    ensures Attributed(s.tables.solutions, After(s, es).tables.solutions, Saves(s, es))
  {
    if es != [] {
      var n := |es| - 1;
      RunsAttributed(s, es[..n]);
      StepAttributed(s.tables.solutions, After(s, es[..n]), Saves(s, es[..n]), es[n]);
    }
  }

  lemma StepAttributed(first: map<Int64, SolutionRow>, s: State, saves: seq<(int, string)>, e: Event)
    requires Enabled(s, e) && Attributed(first, s.tables.solutions, saves)
    ensures Attributed(first, Step(s, e).tables.solutions, saves + SavesOf(s, e))
  {
    if e.Judged? && e.saved {
      LoadedId(s.tables, s.todo[0]);
      AttributedSave(first, s.tables.solutions, saves, s.todo[0], NextOutcome(s, e.j).result);
    } else {
      assert saves + SavesOf(s, e) == saves;
    }
  }

  /** A pending solution whose identifier does not fit is never judged: over every run its
      row stays exactly as it is. */
  lemma UnfitIsNeverJudged(s: State, es: seq<Event>, p: Int64)
    requires CanRun(s, es) && p in s.tables.solutions && !FitsInt32(p)
    ensures p in After(s, es).tables.solutions
    ensures After(s, es).tables.solutions[p] == s.tables.solutions[p]
  {
    RunsAttributed(s, es);
    SavesFit(s, es);
  }

  lemma {:induction false} SavesFit(s: State, es: seq<Event>)
    requires CanRun(s, es)
    ensures forall k :: 0 <= k < |Saves(s, es)| ==> FitsInt32(Saves(s, es)[k].0)
  {
    if es != [] {
      SavesFit(s, es[..|es| - 1]);
    }
  }

  /** How the solutions look after these saves, compared with how they looked first:
      no solution is saved twice; a saved one is checked; one that was there at first was
      pending then, and has changed exactly in its result, which is the saved text, and its
      status; one that was not saved is as it was. */
  ghost predicate Explained(first: map<Int64, SolutionRow>, now: map<Int64, SolutionRow>,
                            saves: seq<(int, string)>) {
    && (forall i, j :: 0 <= i < j < |saves| ==> saves[i].0 != saves[j].0)
    && (forall k :: 0 <= k < |saves| ==>
        saves[k].0 in now && now[saves[k].0].status == STATUS_CHECKED)
    && (forall id :: id in first ==> id in now && (!Saved(saves, id) ==> now[id] == first[id]))
    && (forall k :: 0 <= k < |saves| && saves[k].0 in first ==>
        && first[saves[k].0].status == STATUS_NOT_CHECKED
        && now[saves[k].0] == first[saves[k].0].(result := saves[k].1, status := STATUS_CHECKED))
  }

  lemma ExplainedStays(first: map<Int64, SolutionRow>, now: map<Int64, SolutionRow>,
                       saves: seq<(int, string)>, next: map<Int64, SolutionRow>)
    requires Explained(first, now, saves)
    requires forall id :: id in now ==> id in next && next[id] == now[id]
    ensures Explained(first, next, saves)
  {
  }

  lemma ExplainedSave(first: map<Int64, SolutionRow>, now: map<Int64, SolutionRow>,
                      saves: seq<(int, string)>, id: int, text: string)
    requires Explained(first, now, saves)
    requires id in now && now[id].status == STATUS_NOT_CHECKED
    ensures Explained(first, now[id := now[id].(result := text, status := STATUS_CHECKED)], saves + [(id, text)])
  {
    var saves' := saves + [(id, text)];
    assert !Saved(saves, id);
    assert saves'[|saves|] == (id, text);
    assert forall k :: 0 <= k < |saves| ==> saves'[k] == saves[k];
  }

  /** When the pending identifiers fit, each solution is moreover saved at most once, and
      only after having been pending. */
  lemma {:induction false} RunsExplained(s: State, es: seq<Event>)
    requires Inv(s) && CanRun(s, es)
    ensures Inv(After(s, es))
    ensures Explained(s.tables.solutions, After(s, es).tables.solutions, Saves(s, es))
  {
    if es != [] {
      var n := |es| - 1;
      RunsExplained(s, es[..n]);
      var before, e := After(s, es[..n]), es[n];
      StepKeepsInv(before, e);
      StepExplained(s.tables.solutions, before, Saves(s, es[..n]), e);
    }
  }

  lemma StepExplained(first: map<Int64, SolutionRow>, s: State, saves: seq<(int, string)>, e: Event)
    requires Enabled(s, e) && (e.Judged? ==> s.todo[0] in Pending(s.tables))
    requires Explained(first, s.tables.solutions, saves)
    ensures Explained(first, Step(s, e).tables.solutions, saves + SavesOf(s, e))
  {
    var next := Step(s, e).tables.solutions;
    if e.Judged? && e.saved {
      var id, text := s.todo[0], NextOutcome(s, e.j).result;
      LoadedId(s.tables, id);
      ExplainedSave(first, s.tables.solutions, saves, id, text);
    } else {
      assert saves + SavesOf(s, e) == saves;
      ExplainedStays(first, s.tables.solutions, saves, next);
    }
  }

  /** Over every run checked solutions stay checked; when the pending identifiers fit, they
      are not touched again at all. */
  lemma CheckedGrows(s: State, es: seq<Event>)
    requires CanRun(s, es)
    ensures Checked(s.tables) <= Checked(After(s, es).tables)
    ensures Inv(s) ==> forall id :: id in Checked(s.tables) ==>
      id in After(s, es).tables.solutions && After(s, es).tables.solutions[id] == s.tables.solutions[id]
  {
    RunsAttributed(s, es);
    if Inv(s) {
      RunsExplained(s, es);
      var saves := Saves(s, es);
      assert forall id :: id in Checked(s.tables) ==> !Saved(saves, id);
    }
  }

  /** Attempts and selections balance, and each poll selects at most ten. */
  ghost function Attempts(es: seq<Event>): nat {
    if es == [] then 0
    else Attempts(es[..|es| - 1]) + (if es[|es| - 1].Judged? || es[|es| - 1].LoadThrows? then 1 else 0)
  }

  ghost function Polls(es: seq<Event>): nat {
    if es == [] then 0 else Polls(es[..|es| - 1]) + (if es[|es| - 1].Poll? then 1 else 0)
  }

  ghost function Selected(es: seq<Event>): nat {
    if es == [] then 0
    else Selected(es[..|es| - 1]) + (if es[|es| - 1].Poll? then |es[|es| - 1].ids| else 0)
  }

  lemma {:induction false} AttemptsBalance(s: State, es: seq<Event>)
    requires CanRun(s, es)
    ensures |s.todo| + Selected(es) == Attempts(es) + |After(s, es).todo|
    ensures Selected(es) <= LIMIT * Polls(es)
  {
    if es != [] {
      AttemptsBalance(s, es[..|es| - 1]);
    }
  }

  // ------------------------------------------------------------------ isolation

  ghost predicate NoJsonExtension(clngs: map<string, Clng>) {
    forall k :: Lookup(clngs, k).ext != ".json"
  }

  /** Every judged solution's result file could be removed. */
  ghost predicate ResultsRemoved(es: seq<Event>) {
    forall k :: 0 <= k < |es| && es[k].Judged? ==> es[k].j.resGone
  }

  /** The text the judge produced in this run, or nothing. */
  function Produced(j: JudgeRun): string {
    match j.verdict
    case Wrote(text) => text
    case _ => ""
  }

  /** What one run owes to nothing but its own solution: the judge finds the solution's
      source and configuration and no result, and what is stored is what it produced. */
  ghost predicate Isolated(s: State, j: JudgeRun)
    requires s.todo != [] && LoadSolution(s.tables, s.todo[0]).Success?
  {
    var id: int := s.todo[0];
    var sol := LoadSolution(s.tables, id).value;
    var src := SrcName(s.clngs, sol.pl.identifier);
    var outcome := NextOutcome(s, j);
    && src in outcome.seen && id in s.tables.solutions
    && outcome.seen[src] == Text(CStr(s.tables.solutions[id].code))
    && CFG_NAME in outcome.seen
    && outcome.seen[CFG_NAME] == Document(Emit(DocumentJson(sol, s.clngs, s.testsDir)))
    && RES_NAME !in outcome.seen
    && outcome.result == Produced(j)
  }

  lemma CodeIsTheRows(t: Tables, id: int)
    requires LoadSolution(t, id).Success?
    ensures id in t.solutions
    ensures CStr(LoadSolution(t, id).value.code) == CStr(t.solutions[id].code)
  {
    LoadedParts(t, id);
    CStrTwice(t.solutions[id].code);
  }

  /** A run is isolated exactly when no result file was left over and the language's
      extension is not that of the configuration file. */
  lemma StepIsIsolated(s: State, j: JudgeRun)
    requires s.todo != [] && LoadSolution(s.tables, s.todo[0]).Success?
    ensures Isolated(s, j) <==>
      && RES_NAME !in s.files
      && Lookup(s.clngs, LoadSolution(s.tables, s.todo[0]).value.pl.identifier).ext != ".json"
  {
    var sol := LoadSolution(s.tables, s.todo[0]).value;
    var doc := Emit(DocumentJson(sol, s.clngs, s.testsDir));
    var ext := Lookup(s.clngs, sol.pl.identifier).ext;
    CodeIsTheRows(s.tables, s.todo[0]);
    JudgeSeesOwnInput(s.files, ext, sol.code, doc, j);
    StoredText(s.files, ext, sol.code, doc, j);
  }

  /** Over every run, each judged solution is isolated exactly when that was so of the state
      it was judged in. */
  lemma RunsAreIsolatedExactly(s: State, es: seq<Event>, k: nat)
    requires CanRun(s, es) && k < |es| && es[k].Judged?
    ensures CanRun(s, es[..k]) && Enabled(After(s, es[..k]), es[k])
    ensures var before := After(s, es[..k]);
      var sol := LoadSolution(before.tables, before.todo[0]).value;
      Isolated(before, es[k].j) <==>
        RES_NAME !in before.files && Lookup(before.clngs, sol.pl.identifier).ext != ".json"
  {
    EventHappens(s, es, k);
    StepIsIsolated(After(s, es[..k]), es[k].j);
  }

  lemma StepLeavesNoResult(s: State, e: Event)
    requires Enabled(s, e) && RES_NAME !in s.files && NoJsonExtension(s.clngs)
    requires e.Judged? ==> e.j.resGone
    ensures RES_NAME !in Step(s, e).files && NoJsonExtension(Step(s, e).clngs)
  {
    if e.Judged? {
      var sol := LoadSolution(s.tables, s.todo[0]).value;
      FilesLeft(s.files, Lookup(s.clngs, sol.pl.identifier).ext, sol.code,
                Emit(DocumentJson(sol, s.clngs, s.testsDir)), e.j);
    }
  }

  lemma {:induction false} NoResultBetweenSolutions(s: State, es: seq<Event>)
    requires CanRun(s, es)
    requires RES_NAME !in s.files && NoJsonExtension(s.clngs) && ResultsRemoved(es)
    ensures RES_NAME !in After(s, es).files && NoJsonExtension(After(s, es).clngs)
  {
    if es != [] {
      var n := |es| - 1;
      assert forall k :: 0 <= k < n ==> es[..n][k] == es[k];
      NoResultBetweenSolutions(s, es[..n]);
      StepLeavesNoResult(After(s, es[..n]), es[n]);
    }
  }

  /** Over every run that starts without a result file, with no language's extension
      ".json", and in which result files can be removed: between solutions there is no
      result file, and every single run is isolated, also when loading or saving throws. */
  lemma RunsAreIsolated(s: State, es: seq<Event>, k: nat)
    requires CanRun(s, es)
    requires RES_NAME !in s.files && NoJsonExtension(s.clngs) && ResultsRemoved(es)
    requires k < |es| && es[k].Judged?
    ensures RES_NAME !in After(s, es).files
    ensures CanRun(s, es[..k]) && Enabled(After(s, es[..k]), es[k])
    ensures Isolated(After(s, es[..k]), es[k].j)
  {
    NoResultBetweenSolutions(s, es);
    EventHappens(s, es, k);
    assert forall i :: 0 <= i < k ==> es[..k][i] == es[i];
    NoResultBetweenSolutions(s, es[..k]);
    RunsAreIsolatedExactly(s, es, k);
  }

  /** Event `k` of the run stores the result of solution `id`. */
  ghost predicate SavesAt(s: State, es: seq<Event>, k: nat, id: int) {
    && k < |es| && CanRun(s, es[..k]) && Enabled(After(s, es[..k]), es[k])
    && es[k].Judged? && es[k].saved && After(s, es[..k]).todo[0] == id
  }

  lemma SavesAtPrefix(s: State, es: seq<Event>, k: nat, id: int)
    requires k < |es| - 1
    ensures SavesAt(s, es, k, id) <==> SavesAt(s, es[..|es| - 1], k, id)
    ensures es[..|es| - 1][..k] == es[..k]
  {
    hide Enabled, After, CanRun;
    assert es[..|es| - 1][..k] == es[..k];
  }

  lemma {:induction false} LastSave(s: State, es: seq<Event>, id: int) returns (k: nat)
    requires CanRun(s, es) && Saved(Saves(s, es), id)
    ensures SavesAt(s, es, k, id) && forall m :: k < m < |es| ==> !SavesAt(s, es, m, id)
    ensures LastText(Saves(s, es), id) == NextOutcome(After(s, es[..k]), es[k].j).result
  {
    hide LoadSolution, NextOutcome, Step, Enabled, LastText, SavesOf;
    var n := |es| - 1;
    if SavesAt(s, es, n, id) {
      k := n;
      LastEventSaves(s, es, id);
    } else {
      OtherEventLast(s, es, id);
      k := LastSave(s, es[..n], id);
      forall m | 0 <= m < n
        ensures SavesAt(s, es, m, id) <==> SavesAt(s, es[..n], m, id)
        ensures es[..n][..m] == es[..m]
      {
        SavesAtPrefix(s, es, m, id);
      }
    }
  }

  lemma LastEventSaves(s: State, es: seq<Event>, id: int)
    requires CanRun(s, es) && es != [] && SavesAt(s, es, |es| - 1, id)
    ensures Saved(Saves(s, es), id)
    ensures LastText(Saves(s, es), id) == NextOutcome(After(s, es[..|es| - 1]), es[|es| - 1].j).result
  {
    hide LoadSolution, NextOutcome, Step;
    var n := |es| - 1;
    SavedAppend(Saves(s, es[..n]), id, NextOutcome(After(s, es[..n]), es[n].j).result);
  }

  lemma OtherEventLast(s: State, es: seq<Event>, id: int)
    requires CanRun(s, es) && es != [] && !SavesAt(s, es, |es| - 1, id)
    ensures Saved(Saves(s, es), id) <==> Saved(Saves(s, es[..|es| - 1]), id)
    ensures Saved(Saves(s, es), id) ==> LastText(Saves(s, es), id) == LastText(Saves(s, es[..|es| - 1]), id)
  {
    hide LoadSolution, NextOutcome, Step;
    var n := |es| - 1;
    var before, e, front := After(s, es[..n]), es[n], Saves(s, es[..n]);
    if e.Judged? && e.saved {
      SavedAppend(front, before.todo[0], NextOutcome(before, e.j).result);
    } else {
      assert Saves(s, es) == front;
    }
  }

  /** Under the same conditions, what the table holds in the end for a solution that was
      saved is what the judge produced when that solution was judged and saved last, in a
      run of the judge that was isolated. */
  lemma StoredIsProduced(s: State, es: seq<Event>, id: int) returns (k: nat)
    requires CanRun(s, es) && Saved(Saves(s, es), id)
    requires RES_NAME !in s.files && NoJsonExtension(s.clngs) && ResultsRemoved(es)
    ensures SavesAt(s, es, k, id) && forall m :: k < m < |es| ==> !SavesAt(s, es, m, id)
    ensures Isolated(After(s, es[..k]), es[k].j)
    ensures id in After(s, es).tables.solutions
    ensures var row := After(s, es).tables.solutions[id];
      row.status == STATUS_CHECKED && row.result == Produced(es[k].j)
  {
    hide LoadSolution, Step, NextOutcome, Enabled;
    k := LastSave(s, es, id);
    RunsAreIsolated(s, es, k);
    RunsAttributed(s, es);
  }

  /** The source file of the solution that is judged next. */
  ghost function NextSource(s: State): string
    requires s.todo != [] && LoadSolution(s.tables, s.todo[0]).Success?
  {
    SrcName(s.clngs, LoadSolution(s.tables, s.todo[0]).value.pl.identifier)
  }

  lemma StepRemovesFiles(s: State, j: JudgeRun, saved: bool)
    requires Enabled(s, Judged(j, saved)) && j.srcGone && j.cfgGone && j.resGone
    ensures var files := Step(s, Judged(j, saved)).files;
      "solution.json" !in files && "result.json" !in files && NextSource(s) !in files
  {
    var sol := LoadSolution(s.tables, s.todo[0]).value;
    FilesLeft(s.files, Lookup(s.clngs, sol.pl.identifier).ext, sol.code,
              Emit(DocumentJson(sol, s.clngs, s.testsDir)), j);
  }

  lemma OnlyJudgingTouchesFiles(s: State, e: Event)
    requires Enabled(s, e) && !e.Judged?
    ensures Step(s, e).files == s.files
  {
  }

  /** Over every run, once a solution has been judged and its work files could be removed:
      after every event until the next is judged, whatever was thrown, there is no
      configuration file, no result file and no source file of that solution. */
  lemma {:induction false} WorkFilesAreGone(s: State, es: seq<Event>, k: nat)
    requires CanRun(s, es) && k < |es| && es[k].Judged?
    requires es[k].j.srcGone && es[k].j.cfgGone && es[k].j.resGone
    requires forall m :: k < m < |es| ==> !es[m].Judged?
    ensures CanRun(s, es[..k]) && Enabled(After(s, es[..k]), es[k])
    ensures var files := After(s, es).files;
      && "solution.json" !in files && "result.json" !in files
      && NextSource(After(s, es[..k])) !in files
  {
    hide LoadSolution, Step, Enabled, NextSource;
    var n := |es| - 1;
    EventHappens(s, es, k);
    if k == n {
      StepRemovesFiles(After(s, es[..n]), es[n].j, es[n].saved);
    } else {
      assert forall i :: 0 <= i < n ==> es[..n][i] == es[i];
      assert es[..n][..k] == es[..k];
      WorkFilesAreGone(s, es[..n], k);
      OnlyJudgingTouchesFiles(After(s, es[..n]), es[n]);
    }
  }

  /** And before any is judged, the files are as they were. */
  lemma {:induction false} NothingJudgedYet(s: State, es: seq<Event>)
    requires CanRun(s, es) && forall m :: 0 <= m < |es| ==> !es[m].Judged?
    ensures After(s, es).files == s.files
  {
    hide LoadSolution, Step, Enabled;
    if es != [] {
      var n := |es| - 1;
      assert forall i :: 0 <= i < n ==> es[..n][i] == es[i];
      NothingJudgedYet(s, es[..n]);
      OnlyJudgingTouchesFiles(After(s, es[..n]), es[n]);
    }
  }

  // ---------------------------------------------- loading is untouched by saving

  lemma {:induction false} SaveKeepsGroups(t: Tables, t': Tables, ids: seq<int>)
    requires t'.groups == t.groups && t'.cases == t.cases
    ensures LoadGroups(t', ids) == LoadGroups(t, ids)
  {
    if ids != [] {
      SaveKeepsGroups(t, t', ids[..|ids| - 1]);
    }
  }

  lemma SaveKeepsLoading(t: Tables, id: int, result: string, x: int)
    ensures Loadable(SaveResult(t, id, result), x) <==> Loadable(t, x)
  {
    var t' := SaveResult(t, id, result);
    SaveIsLocal(t, id, result);
    if x in t.solutions {
      SaveKeepsGroups(t, t', OwnedIds(t.groups, ToInt32(t.solutions[x].tid)));
    }
  }

  /** Why the result file must go: if it cannot be removed after a solution's run and the
      judge leaves it alone for the next, the next is stored with the first one's result. */
  lemma LeftoverResultIsStored(s: State, text: string, a: JudgeRun, b: JudgeRun)
    requires s.running && |s.todo| >= 2
    requires Loadable(s.tables, s.todo[0]) && Loadable(s.tables, s.todo[1])
    requires a.verdict == Wrote(text) && !a.resGone && b.verdict == Untouched
    ensures var es, id: int := [Judged(a, true), Judged(b, true)], s.todo[1];
      && CanRun(s, es)
      && id in After(s, es).tables.solutions
      && After(s, es).tables.solutions[id].result == text
  {
    var first, second := Judged(a, true), Judged(b, true);
    var sol := LoadSolution(s.tables, s.todo[0]).value;
    var middle := Step(s, first);
    StoredText(s.files, Lookup(s.clngs, sol.pl.identifier).ext, sol.code,
               Emit(DocumentJson(sol, s.clngs, s.testsDir)), a);
    SaveKeepsLoading(s.tables, sol.id, NextOutcome(s, a).result, s.todo[1]);
    LeftoverIsRead(s, a, text);
    LoadedId(middle.tables, middle.todo[0]);
    var sol2 := LoadSolution(middle.tables, middle.todo[0]).value;
    StoredText(middle.files, Lookup(middle.clngs, sol2.pl.identifier).ext, sol2.code,
               Emit(DocumentJson(sol2, middle.clngs, middle.testsDir)), b);
    SaveIsLocal(middle.tables, middle.todo[0], text);
    TwoSteps(s, first, second);
  }

  lemma LeftoverIsRead(s: State, a: JudgeRun, text: string)
    requires s.todo != [] && Loadable(s.tables, s.todo[0])
    requires a.verdict == Wrote(text) && !a.resGone
    ensures ReadText(NextOutcome(s, a).left, RES_NAME) == text
  {
    var sol := LoadSolution(s.tables, s.todo[0]).value;
    var doc := Emit(DocumentJson(sol, s.clngs, s.testsDir));
    LeftoverText(s.files, Lookup(s.clngs, sol.pl.identifier).ext, sol.code, doc, a);
  }

  lemma LeftoverText(files: Files, ext: string, code: string, doc: seq<Token>, j: JudgeRun)
    requires !j.resGone && j.verdict.Wrote?
    ensures ReadText(RunOutcome(files, SRC_NAME + ext, code, doc, j).left, RES_NAME) == j.verdict.text
  {
    NamesDiffer(ext);
  }

  lemma TwoSteps(s: State, e: Event, f: Event)
    requires Enabled(s, e) && Enabled(Step(s, e), f)
    ensures CanRun(s, [e, f]) && After(s, [e, f]) == Step(Step(s, e), f)
  {
    RunAppend(s, [], e);
    assert [] + [e] == [e];
    RunAppend(s, [e], f);
    assert [e] + [f] == [e, f];
  }
}
