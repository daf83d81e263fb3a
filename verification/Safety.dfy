/** Exactly when the queue is safe. A pending solution is found by an identifier that has
    been put into an `int`; if that cuts it, another solution is judged in its place. */
module Safety {
  import opened CInts
  import opened Tables
  import opened Loading
  import opened Judging
  import opened Queue

  /** Whatever happens, rows change only by saves, no solution is saved twice, and none that
      was not pending. */
  ghost predicate Safe(s: State) {
    forall es :: CanRun(s, es) ==>
      Explained(s.tables.solutions, After(s, es).tables.solutions, Saves(s, es))
  }

  /** Nobody else changes the tables. */
  ghost predicate Quiet(es: seq<Event>) {
    forall k :: 0 <= k < |es| ==> !es[k].Outside?
  }

  ghost predicate SafeAlone(s: State) {
    forall es :: CanRun(s, es) && Quiet(es) ==>
      Explained(s.tables.solutions, After(s, es).tables.solutions, Saves(s, es))
  }

  /** Where a pending identifier is cut, the solution it is cut to cannot be constructed. */
  ghost predicate CutsAreUnloadable(t: Tables) {
    forall p :: p in Pending(t) && !FitsInt32(p) ==> !Loadable(t, ToInt32(p))
  }

  // ------------------------------------------------------- the condition suffices

  /** Selected solutions that can be constructed are pending and selected once. */
  ghost predicate QuietInv(s: State) {
    && CutsAreUnloadable(s.tables)
    && forall i :: 0 <= i < |s.todo| && Loadable(s.tables, s.todo[i]) ==>
      s.todo[i] in Pending(s.tables) && forall j :: 0 <= j < |s.todo| && j != i ==> s.todo[j] != s.todo[i]
  }

  lemma PollKeepsQuietInv(s: State, ids: seq<Int64>)
    requires CutsAreUnloadable(s.tables) && Enabled(s, Poll(ids))
    ensures QuietInv(Step(s, Poll(ids)))
  {
    hide LoadSolution;
    forall i | 0 <= i < |ids|
      ensures ids[i] in Pending(s.tables)
      ensures Loadable(s.tables, ToInts(ids)[i]) ==> ToInts(ids)[i] == ids[i]
    {
      assert ids[i] in SetOf(ids);
    }
    forall i, j | 0 <= i < |ids| && 0 <= j < |ids| && i != j && Loadable(s.tables, ToInts(ids)[i])
      ensures ToInts(ids)[j] != ToInts(ids)[i]
    {
      assert ids[i] != ids[j];
    }
  }

  lemma JudgedKeepsQuietInv(s: State, e: Event)
    requires QuietInv(s) && Enabled(s, e) && e.Judged?
    ensures QuietInv(Step(s, e))
  {
    hide LoadSolution;
    var id, text := s.todo[0], NextOutcome(s, e.j).result;
    LoadedId(s.tables, id);
    assert Loadable(s.tables, s.todo[0]);
    SaveIsLocal(s.tables, id, text);
    forall x
      ensures Loadable(SaveResult(s.tables, id, text), x) <==> Loadable(s.tables, x)
    {
      SaveKeepsLoading(s.tables, id, text, x);
    }
  }

  lemma {:induction false} QuietRunsExplained(s: State, es: seq<Event>)
    requires QuietInv(s) && CanRun(s, es) && Quiet(es)
    ensures QuietInv(After(s, es))
    ensures Explained(s.tables.solutions, After(s, es).tables.solutions, Saves(s, es))
  {
    hide LoadSolution;
    if es != [] {
      var n := |es| - 1;
      assert forall k :: 0 <= k < n ==> es[..n][k] == es[k];
      QuietRunsExplained(s, es[..n]);
      var before, e := After(s, es[..n]), es[n];
      if e.Judged? {
        assert Loadable(before.tables, before.todo[0]);
      }
      StepExplained(s.tables.solutions, before, Saves(s, es[..n]), e);
      QuietStep(before, e);
    }
  }

  lemma QuietStep(s: State, e: Event)
    requires QuietInv(s) && Enabled(s, e) && !e.Outside?
    ensures QuietInv(Step(s, e))
  {
    hide LoadSolution;
    match e {
      case Poll(ids) => PollKeepsQuietInv(s, ids);
      case Judged(_, _) => JudgedKeepsQuietInv(s, e);
      case _ =>
    }
  }

  // ------------------------------------------------------ the condition is necessary

  /** The poll may answer with any pending solution first. */
  lemma SelectionWith(t: Tables, p: Int64) returns (ids: seq<Int64>)
    requires p in Pending(t)
    ensures IsSelection(t, ids) && ids != [] && ids[0] == p
  {
    var rest := SomeOf(Pending(t) - {p}, Min(LIMIT, |Pending(t)|) - 1);
    ids := [p] + rest;
    assert forall x :: x in rest ==> x in SetOf(rest);
    assert forall x :: x in ids ==> x == p || x in rest;
    forall i, j | 0 <= i < j < |ids|
      ensures ids[i] != ids[j]
    {
      assert ids[j] == rest[j - 1] && rest[j - 1] in rest;
      assert i > 0 ==> ids[i] == rest[i - 1];
    }
  }

  /** `es` leads without outside changes to `now`, having made these saves. */
  ghost predicate Leads(s: State, now: State, saves: seq<(int, string)>) {
    exists es :: CanRun(s, es) && Quiet(es) && After(s, es) == now && Saves(s, es) == saves
  }

  lemma LeadsToItself(s: State)
    ensures Leads(s, s, [])
  {
    assert CanRun(s, []) && Quiet([]) && After(s, []) == s && Saves(s, []) == [];
  }

  lemma LeadsOn(s: State, now: State, saves: seq<(int, string)>, e: Event)
    requires Leads(s, now, saves) && Enabled(now, e) && !e.Outside?
    ensures Leads(s, Step(now, e), saves + SavesOf(now, e))
  {
    hide LoadSolution, Step, Enabled, SavesOf;
    var es :| CanRun(s, es) && Quiet(es) && After(s, es) == now && Saves(s, es) == saves;
    RunAppend(s, es, e);
    SavesAppend(s, es, e);
    assert Quiet(es + [e]);
  }

  /** Queries may fail for all that is still selected. */
  lemma {:induction false} SkipRest(s: State, now: State, saves: seq<(int, string)>)
    requires Leads(s, now, saves) && now.running
    ensures Leads(s, now.(todo := []), saves)
    decreases |now.todo|
  {
    hide LoadSolution;
    if now.todo == [] {
      assert now.(todo := []) == now;
    } else {
      LeadsOn(s, now, saves, LoadThrows);
      var next := Step(now, LoadThrows);
      assert saves + SavesOf(now, LoadThrows) == saves;
      SkipRest(s, next, saves);
      assert next.(todo := []) == now.(todo := []);
    }
  }

  /** What cutting an identifier does: the solution it is cut to is judged and saved,
      whatever its status, and the pending solution stays pending. */
  lemma CutIdentifierRejudges(s: State, now: State, saves: seq<(int, string)>, p: Int64)
    returns (end: State, text: string)
    requires Leads(s, now, saves) && now.running && now.todo == []
    requires p in Pending(now.tables) && !FitsInt32(p) && Loadable(now.tables, ToInt32(p))
    ensures Leads(s, end, saves + [(ToInt32(p), text)]) && end.running && end.todo == []
    ensures p in Pending(end.tables) && Loadable(end.tables, ToInt32(p))
  {
    hide LoadSolution, Leads;
    var c := ToInt32(p);
    var ids := SelectionWith(now.tables, p);
    LeadsOn(s, now, saves, Poll(ids));
    var polled := Step(now, Poll(ids));
    assert polled.todo[0] == c;
    assert saves + SavesOf(now, Poll(ids)) == saves;
    var e := Judged(JudgeRun(Untouched, map[], true, true, true), true);
    text := NextOutcome(polled, e.j).result;
    LeadsOn(s, polled, saves, e);
    var judged := Step(polled, e);
    LoadedId(polled.tables, c);
    SaveIsLocal(polled.tables, c, text);
    SaveKeepsLoading(polled.tables, c, text, c);
    SkipRest(s, judged, saves + [(c, text)]);
    end := judged.(todo := []);
  }

  /** The cut identifier can be saved twice. */
  lemma CutIdentifierIsSavedTwice(s: State, p: Int64) returns (es: seq<Event>)
    requires s.running && s.todo == []
    requires p in Pending(s.tables) && !FitsInt32(p) && Loadable(s.tables, ToInt32(p))
    ensures CanRun(s, es) && Quiet(es)
    ensures |Saves(s, es)| == 2 && Saves(s, es)[0].0 == ToInt32(p) && Saves(s, es)[1].0 == ToInt32(p)
  {
    hide LoadSolution;
    LeadsToItself(s);
    var once, text := CutIdentifierRejudges(s, s, [], p);
    var saves := [] + [(ToInt32(p), text)];
    var twice, text' := CutIdentifierRejudges(s, once, saves, p);
    es :| CanRun(s, es) && Quiet(es) && After(s, es) == twice
       && Saves(s, es) == saves + [(ToInt32(p), text')];
  }

  // ------------------------------------------------------------------ the theorems

  /** Left to itself, the program is safe exactly when no pending identifier is cut to that
      of a solution that can be constructed. */
  lemma SafeAloneExactlyWhen(s: State)
    requires s.running && s.todo == []
    ensures SafeAlone(s) <==> CutsAreUnloadable(s.tables)
  {
    hide LoadSolution;
    if CutsAreUnloadable(s.tables) {
      forall es | CanRun(s, es) && Quiet(es)
        ensures Explained(s.tables.solutions, After(s, es).tables.solutions, Saves(s, es))
      {
        QuietRunsExplained(s, es);
      }
    } else {
      var p :| p in Pending(s.tables) && !FitsInt32(p) && Loadable(s.tables, ToInt32(p));
      var es := CutIdentifierIsSavedTwice(s, p);
      assert !Explained(s.tables.solutions, After(s, es).tables.solutions, Saves(s, es));
    }
  }

  /** Others can always make a solution constructible: by adding its row, task and language
      where they are missing. */
  lemma OthersMakeLoadable(t: Tables, c: Int32) returns (t': Tables)
    ensures OutsideChange(t, t') && Loadable(t', c)
  {
    var added := SolutionRow(0, 0, 0, 0, STATUS_CHECKED, 0, "", "", "", "");
    assert FitsInt32(c);
    var key: Int64 := c;
    var row := if key in t.solutions then t.solutions[key] else added;
    t' := Tables(
      t.solutions[key := row],
      map[ToInt32(row.tid) := TaskRow(0, 0, 0, "", "", "", "", "")],
      map[ToInt32(row.lid) := LangRow("", "", "", "")],
      [], [], []);
  }

  /** With others editing problems and adding solutions, the program is safe exactly when
      every pending identifier fits an `int`. */
  lemma SafeExactlyWhen(s: State)
    requires s.running && s.todo == []
    ensures Safe(s) <==> PendingIdsFit(s.tables)
  {
    hide LoadSolution;
    if PendingIdsFit(s.tables) {
      forall es | CanRun(s, es)
        ensures Explained(s.tables.solutions, After(s, es).tables.solutions, Saves(s, es))
      {
        RunsExplained(s, es);
      }
    } else {
      var p :| p in Pending(s.tables) && !FitsInt32(p);
      var es := UnsafeRun(s, p);
      assert !Explained(s.tables.solutions, After(s, es).tables.solutions, Saves(s, es));
    }
  }

  lemma UnsafeRun(s: State, p: Int64) returns (es: seq<Event>)
    requires s.running && s.todo == [] && p in Pending(s.tables) && !FitsInt32(p)
    ensures CanRun(s, es)
    ensures |Saves(s, es)| == 2 && Saves(s, es)[0].0 == Saves(s, es)[1].0
  {
    hide LoadSolution;
    var t := OthersMakeLoadable(s.tables, ToInt32(p));
    var edit := Outside(t);
    RunAppend(s, [], edit);
    assert [] + [edit] == [edit];
    var edited := Step(s, edit);
    var more := CutIdentifierIsSavedTwice(edited, p);
    RunConcat(s, [edit], more);
    SavesConcat(s, [edit], more);
    es := [edit] + more;
    assert [edit][..0] == [];
    assert Saves(s, [edit]) == [];
  }

  /** Such a state: a checked solution 1 and a pending one whose identifier is cut to 1. */
  lemma UnsafeState() returns (s: State)
    ensures s.running && s.todo == []
    ensures s.tables.solutions.Keys == {1, 0x1_0000_0001}
    ensures Checked(s.tables) == {1} && Pending(s.tables) == {0x1_0000_0001}
    ensures !SafeAlone(s)
  {
    var checked := SolutionRow(0, 2, 3, 0, STATUS_CHECKED, 0, "", "", "", "");
    var t := Tables(
      map[1 := checked, 0x1_0000_0001 := checked.(status := STATUS_NOT_CHECKED)],
      map[2 := TaskRow(0, 0, 0, "", "", "", "", "")],
      map[3 := LangRow("", "", "", "")],
      [], [], []);
    s := State(t, map[], map[], "", [], true);
    assert ToInt32(0x1_0000_0001) == 1 && Loadable(t, 1);
    SafeAloneExactlyWhen(s);
  }
}
