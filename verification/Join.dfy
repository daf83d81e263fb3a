/** What loading computes, as a relational expression: when it fails, and which checker
    tests a task ends up with. */
module Join {
  import opened CInts
  import opened Wrappers
  import opened Tables
  import opened Loading

  // ------------------------------------------------------- when loading throws

  /** Every identifier listed for this solution and its task still finds a row after it has
      been put into an `int`. */
  ghost predicate ListedRowsExist(t: Tables, id: int, tid: int) {
    && AllFound(t.tests, OwnedIds(t.tests, id))
    && AllFound(t.groups, OwnedIds(t.groups, tid))
    && forall g :: g in OwnedIds(t.groups, tid) ==> AllFound(t.cases, OwnedIds(t.cases, g))
  }

  ghost predicate AllFound<D>(rows: seq<Row<D>>, ids: seq<int>) {
    forall k :: 0 <= k < |ids| ==> Fetch(rows, ids[k]).Some?
  }

  lemma LoadGroupSucceeds(t: Tables, id: int)
    ensures LoadGroup(t, id).Success?
            <==> Fetch(t.groups, id).Some? && AllFound(t.cases, OwnedIds(t.cases, id))
  {
    FetchAllSucceeds(t.cases, OwnedIds(t.cases, id));
  }

  lemma {:induction false} LoadGroupsSucceeds(t: Tables, ids: seq<int>)
    ensures LoadGroups(t, ids).Success?
            <==> AllFound(t.groups, ids) && forall g :: g in ids ==> AllFound(t.cases, OwnedIds(t.cases, g))
  {
    hide Fetch, FetchAll, OwnedIds, LoadGroup;
    if ids != [] {
      var n := |ids| - 1;
      LoadGroupsSucceeds(t, ids[..n]);
      LoadGroupSucceeds(t, ids[n]);
      assert forall k :: 0 <= k < n ==> ids[..n][k] == ids[k];
      assert forall g :: g in ids <==> g in ids[..n] || g == ids[n];
    }
  }

  /** Identifiers of a task's groups and of these groups' tests fit an `int`. */
  ghost predicate TaskIdsFit(t: Tables, tid: int) {
    && IdsFit(Owned(t.groups, tid))
    && forall g :: g in Owned(t.groups, tid) ==> IdsFit(Owned(t.cases, g.id))
  }

  /** So do those of all rows that a solution's construction lists. */
  ghost predicate ListedIdsFit(t: Tables, id: int) {
    id in t.solutions ==>
      IdsFit(Owned(t.tests, id)) && TaskIdsFit(t, ToInt32(t.solutions[id].tid))
  }

  lemma FittingIdsAreFound<D>(rows: seq<Row<D>>, owner: int)
    requires IdsFit(Owned(rows, owner))
    ensures AllFound(rows, OwnedIds(rows, owner))
  {
    ListedArePresent(rows, owner);
    FetchAllSucceeds(rows, OwnedIds(rows, owner));
  }

  lemma FittingIdsExist(t: Tables, id: int, tid: int)
    requires IdsFit(Owned(t.tests, id)) && TaskIdsFit(t, tid)
    ensures ListedRowsExist(t, id, tid)
  {
    FittingIdsAreFound(t.tests, id);
    FittingIdsAreFound(t.groups, tid);
    OwnedIdsOf(t.groups, tid);
    forall g | g in OwnedIds(t.groups, tid)
      ensures AllFound(t.cases, OwnedIds(t.cases, g))
    {
      var k :| 0 <= k < |Owned(t.groups, tid)| && OwnedIds(t.groups, tid)[k] == g;
      assert Owned(t.groups, tid)[k].id == g;
      FittingIdsAreFound(t.cases, g);
    }
  }

  /** The three rows a solution cannot do without. */
  predicate RowsPresent(t: Tables, id: int) {
    && id in t.solutions
    && ToInt32(t.solutions[id].tid) in t.tasks
    && ToInt32(t.solutions[id].lid) in t.langs
  }

  /** On any snapshot: construction succeeds exactly when the solution, its task and its
      language exist and every listed row can be found again by its `int` identifier. */
  lemma LoadSucceedsExactly(t: Tables, id: int)
    ensures LoadSolution(t, id).Success?
            <==> RowsPresent(t, id) && ListedRowsExist(t, id, ToInt32(t.solutions[id].tid))
  {
    if id in t.solutions {
      LoadGroupsSucceeds(t, OwnedIds(t.groups, ToInt32(t.solutions[id].tid)));
      FetchAllSucceeds(t.tests, OwnedIds(t.tests, id));
    }
  }

  function FirstMissing(t: Tables, id: int): LoadError {
    if id !in t.solutions then NoSolution(id)
    else if ToInt32(t.solutions[id].tid) !in t.tasks then NoTask(ToInt32(t.solutions[id].tid))
    else NoLang(ToInt32(t.solutions[id].lid))
  }

  /** When the listed identifiers fit, construction throws exactly when the solution, its task or its
      language is missing, and it is the first of these, in that order, that it reports:
      the throws for groups, checker tests and tests are never reached. */
  lemma LoadThrowsExactly(t: Tables, id: int)
    requires ListedIdsFit(t, id)
    ensures LoadSolution(t, id).Success? <==> RowsPresent(t, id)
    ensures !RowsPresent(t, id) ==> LoadSolution(t, id) == Failure(FirstMissing(t, id))
  {
    LoadSucceedsExactly(t, id);
    if id in t.solutions {
      var tid := ToInt32(t.solutions[id].tid);
      FittingIdsExist(t, id, tid);
      LoadGroupsSucceeds(t, OwnedIds(t.groups, tid));
    }
  }

  /** Without that condition a group whose identifier is cut to a missing one makes the
      construction throw although all three rows are there. */
  lemma CutIdentifierThrows()
    ensures exists t: Tables :: RowsPresent(t, 1) && LoadSolution(t, 1) == Failure(NoGroup(7))
  {
    var group := Row(0x1_0000_0007, 2, GroupData(0, 0, ""));
    var t := Tables(
      map[1 := SolutionRow(0, 2, 3, 0, 0, 0, "", "", "", "")],
      map[2 := TaskRow(0, 0, 0, "", "", "", "", "")],
      map[3 := LangRow("", "", "", "")],
      [group], [], []);
    assert OwnedIds(t.groups, 2) == [7] by { assert t.groups[1..] == []; }
    assert Fetch(t.groups, 7) == None by { assert t.groups[1..] == []; }
    assert LoadGroup(t, 7) == Failure(NoGroup(7));
    assert LoadGroups(t, [7]) == Failure(NoGroup(7)) by { assert [7][..0] == []; }
    assert RowsPresent(t, 1) && LoadSolution(t, 1) == Failure(NoGroup(7));
  }

  // ------------------------------------------------------ where the cells arrive

  /** Integers that fit an `int`. */
  predicate AllFit(xs: seq<int>) {
    forall i :: 0 <= i < |xs| ==> FitsInt32(xs[i])
  }

  /** Texts without a null character. */
  predicate AllClean(texts: seq<string>) {
    forall i :: 0 <= i < |texts| ==> '\0' !in texts[i]
  }

  /** These fields are the cells' values put into an `int`: unchanged, if they all fit. */
  ghost predicate Ints(fields: seq<int>, cells: seq<int>) {
    && |fields| == |cells|
    && (forall i :: 0 <= i < |cells| ==> fields[i] == ToInt32(cells[i]))
    && (AllFit(cells) ==> fields == cells)
  }

  /** These fields are the cells' texts up to the first null character: unchanged, if there
      is none. */
  ghost predicate Texts(fields: seq<string>, cells: seq<string>) {
    && |fields| == |cells|
    && (forall i :: 0 <= i < |cells| ==> fields[i] == CStr(cells[i]))
    && (AllClean(cells) ==> fields == cells)
  }

  lemma IntsOf(fields: seq<int>, cells: seq<int>)
    requires |fields| == |cells| && forall i :: 0 <= i < |cells| ==> fields[i] == ToInt32(cells[i])
    ensures Ints(fields, cells)
  {
  }

  lemma TextsOf(fields: seq<string>, cells: seq<string>)
    requires |fields| == |cells| && forall i :: 0 <= i < |cells| ==> fields[i] == CStr(cells[i])
    ensures Texts(fields, cells)
  {
    if AllClean(cells) {
      forall i | 0 <= i < |cells|
        ensures fields[i] == cells[i]
      {
        CStrFixed(cells[i]);
      }
    }
  }

  /** The cells of a row arrive in the fields of their names: the solution's, and its task
      and its language are those that its cells name. */
  lemma SolutionFieldsAreCells(t: Tables, id: int)
    requires LoadSolution(t, id).Success?
    ensures id in t.solutions
    ensures var sol, r := LoadSolution(t, id).value, t.solutions[id];
      && Ints([sol.id, sol.uid, sol.tid, sol.lid, sol.createdAt, sol.status, sol.score],
              [id, r.uid, r.tid, r.lid, r.createdAt, r.status, r.score])
      && Texts([sol.code, sol.file, sol.hash, sol.result], [r.code, r.file, r.hash, r.result])
      && LoadTask(t, sol.tid) == Success(sol.pt) && LoadLang(t, sol.lid) == Success(sol.pl)
  {
    hide LoadTask, LoadLang, FetchAll, OwnedIds, ToTests, CStr, ToInt32;
    var sol, r := LoadSolution(t, id).value, t.solutions[id];
    IntsOf([sol.id, sol.uid, sol.tid, sol.lid, sol.createdAt, sol.status, sol.score],
           [id, r.uid, r.tid, r.lid, r.createdAt, r.status, r.score]);
    TextsOf([sol.code, sol.file, sol.hash, sol.result], [r.code, r.file, r.hash, r.result]);
  }

  /** The task's and the language's. The limits are read as unsigned 64-bit numbers. */
  lemma TaskAndLangFieldsAreCells(t: Tables, id: int, lid: int)
    requires LoadTask(t, id).Success? && LoadLang(t, lid).Success?
    ensures id in t.tasks && lid in t.langs
    ensures var task, r := LoadTask(t, id).value, t.tasks[id];
      && Ints([task.id, task.cid], [id, r.cid])
      && task.timeLimit == r.timeLimit % 0x1_0000_0000_0000_0000
      && task.memoryLimit == r.memoryLimit % 0x1_0000_0000_0000_0000
      && Texts([task.title, task.content, task.input, task.output, task.checker],
               [r.title, r.content, r.input, r.output, r.checker])
    ensures var lang, l := LoadLang(t, lid).value, t.langs[lid];
      && Ints([lang.id], [lid])
      && Texts([lang.name, lang.compiler, lang.extension, lang.identifier],
               [l.name, l.compiler, l.extension, l.identifier])
  {
    hide LoadGroups, OwnedIds, CStr, ToInt32;
    var task, r := LoadTask(t, id).value, t.tasks[id];
    var lang, l := LoadLang(t, lid).value, t.langs[lid];
    IntsOf([task.id, task.cid], [id, r.cid]);
    TextsOf([task.title, task.content, task.input, task.output, task.checker],
            [r.title, r.content, r.input, r.output, r.checker]);
    IntsOf([lang.id], [lid]);
    TextsOf([lang.name, lang.compiler, lang.extension, lang.identifier],
            [l.name, l.compiler, l.extension, l.identifier]);
  }

  /** A solution keeps the test results that are found for it, in listing order; they are its
      own rows when their identifiers fit. */
  lemma TestResultsAreRows(t: Tables, id: int)
    requires LoadSolution(t, id).Success? && UniqueIds(t.tests)
    ensures |LoadSolution(t, id).value.tsts| == |Owned(t.tests, id)|
    ensures IdsFit(Owned(t.tests, id)) ==>
      forall i :: 0 <= i < |Owned(t.tests, id)| ==>
        LoadSolution(t, id).value.tsts[i] == ToTest(Owned(t.tests, id)[i])
  {
    hide LoadTask, LoadLang, ToSolution, Owned, OwnedIds, Fetch, FetchAll, ToTest;
    FetchAllFetches(t.tests, OwnedIds(t.tests, id)) by {
      KeepsFound(t, id);
    }
    KeepsFound(t, id);
    OwnedIdsOf(t.tests, id);
    ListThenFetch(t.tests, id);
  }

  lemma KeepsFound(t: Tables, id: int)
    requires LoadSolution(t, id).Success?
    ensures FetchAll(t.tests, OwnedIds(t.tests, id)).Success?
    ensures LoadSolution(t, id).value.tsts == ToTests(FetchAll(t.tests, OwnedIds(t.tests, id)).value)
  {
  }

  /** A group's, a checker test's and a test result's. */
  lemma ListedFieldsAreCells(g: Row<GroupData>, c: Row<CaseData>, r: Row<TestData>, chts: seq<ChTest>)
    ensures var f := ToChGroup(g, chts);
      && Ints([f.id, f.tid, f.kind, f.scores], [g.id, g.owner, g.data.kind, g.data.scores])
      && Texts([f.name], [g.data.name]) && f.chts == chts
    ensures var f := ToChTest(c);
      && Ints([f.id, f.gid, f.scores], [c.id, c.owner, c.data.scores])
      && Texts([f.input, f.output], [c.data.input, c.data.output])
    ensures var f := ToTest(r);
      Ints([f.id, f.sid, f.num, f.res, f.cid], [r.id, r.owner, r.data.num, r.data.res, r.data.cid])
  {
    hide CStr, ToInt32;
    var group, listed, test := ToChGroup(g, chts), ToChTest(c), ToTest(r);
    IntsOf([group.id, group.tid, group.kind, group.scores], [g.id, g.owner, g.data.kind, g.data.scores]);
    TextsOf([group.name], [g.data.name]);
    IntsOf([listed.id, listed.gid, listed.scores], [c.id, c.owner, c.data.scores]);
    TextsOf([listed.input, listed.output], [c.data.input, c.data.output]);
    IntsOf([test.id, test.sid, test.num, test.res, test.cid],
           [r.id, r.owner, r.data.num, r.data.res, r.data.cid]);
  }

  // ------------------------------------------------------- which tests are loaded

  /** The tests of all groups, group after group, as the configuration lists them. */
  function Flatten(chgs: seq<ChGroup>): seq<ChTest> {
    if chgs == [] then [] else Flatten(chgs[..|chgs| - 1]) + chgs[|chgs| - 1].chts
  }

  /** The join of group rows with test rows on `gid`, outer loop over groups. */
  function JoinRows(groups: seq<Row<GroupData>>, cases: seq<Row<CaseData>>): seq<Row<CaseData>> {
    if groups == [] then []
    else JoinRows(groups[..|groups| - 1], cases) + Owned(cases, groups[|groups| - 1].id)
  }

  /** The same selection in one pass: the test rows whose `gid` is among `gids`. */
  function SemiJoin(cases: seq<Row<CaseData>>, gids: set<Int64>): (r: seq<Row<CaseData>>)
    ensures forall x :: x in r <==> x in cases && x.owner in gids
  {
    if cases == [] then []
    else (if cases[0].owner in gids then [cases[0]] else []) + SemiJoin(cases[1..], gids)
  }

  function IdSet<D>(rows: seq<Row<D>>): set<Int64> {
    set i | 0 <= i < |rows| :: rows[i].id
  }

  function TotalScore(tests: seq<ChTest>): int {
    if tests == [] then 0 else TotalScore(tests[..|tests| - 1]) + tests[|tests| - 1].scores
  }

  lemma {:induction false} OwnedIsUnique<D>(rows: seq<Row<D>>, owner: int)
    requires UniqueIds(rows)
    ensures UniqueIds(Owned(rows, owner))
  {
    if rows != [] {
      OwnedIsUnique(rows[1..], owner);
      var rest := Owned(rows[1..], owner);
      forall k | 0 <= k < |rest|
        ensures rest[k].id != rows[0].id
      {
        assert rows[OwnedIndex(rows[1..], owner, k) + 1] == rest[k];
      }
    }
  }

  /** The group is found by its identifier put into an `int`, and the tests listed for that
      one are, put into an `int` in turn, the group's own. */
  ghost predicate ReadsOwn(t: Tables, g: Row<GroupData>) {
    var listed, own := Owned(t.cases, ToInt32(g.id)), Owned(t.cases, g.id);
    && Fetch(t.groups, ToInt32(g.id)).Some?
    && |listed| == |own|
    && forall k :: 0 <= k < |own| ==> ToInt32(listed[k].id) == own[k].id
  }

  /** The rows that loading the group by that identifier looks up are exactly its own. */
  ghost predicate Contributes(t: Tables, g: Row<GroupData>) {
    && Fetch(t.groups, ToInt32(g.id)).Some?
    && FetchAll(t.cases, OwnedIds(t.cases, ToInt32(g.id))) == Success(Owned(t.cases, g.id))
  }

  lemma ContributesExactlyWhen(t: Tables, g: Row<GroupData>)
    requires UniqueIds(t.cases)
    ensures Contributes(t, g) <==> ReadsOwn(t, g)
  {
    var own := Owned(t.cases, g.id);
    OwnedIdsOf(t.cases, ToInt32(g.id));
    forall k | 0 <= k < |own|
      ensures own[k] in t.cases
    {
      assert t.cases[OwnedIndex(t.cases, g.id, k)] == own[k];
    }
    FetchesExactly(t.cases, OwnedIds(t.cases, ToInt32(g.id)), own);
  }

  /** For a group whose identifier fits this is so exactly when its tests' identifiers fit.
      For one whose identifier is cut, another group's tests are listed: it is so when both
      have none and the other group exists, and otherwise only if every test listed is itself
      cut to the group's own test in that place. */
  lemma ReadsOwnWhen(t: Tables, g: Row<GroupData>)
    requires UniqueIds(t.groups) && UniqueIds(t.cases) && g in t.groups
    ensures FitsInt32(g.id) ==> (ReadsOwn(t, g) <==> IdsFit(Owned(t.cases, g.id)))
    ensures !FitsInt32(g.id) && ReadsOwn(t, g) ==>
      forall k :: 0 <= k < |Owned(t.cases, ToInt32(g.id))| ==>
        !FitsInt32(Owned(t.cases, ToInt32(g.id))[k].id)
    ensures Owned(t.cases, g.id) == [] ==>
      (ReadsOwn(t, g) <==> Fetch(t.groups, ToInt32(g.id)).Some? && Owned(t.cases, ToInt32(g.id)) == [])
  {
    var i :| 0 <= i < |t.groups| && t.groups[i] == g;
    FetchFinds(t.groups, i);
    var listed, own := Owned(t.cases, ToInt32(g.id)), Owned(t.cases, g.id);
    if !FitsInt32(g.id) && ReadsOwn(t, g) {
      OwnedMembers(t.cases, g.id);
      OwnedMembers(t.cases, ToInt32(g.id));
      forall k | 0 <= k < |listed|
        ensures !FitsInt32(listed[k].id)
      {
        assert listed[k] in listed && own[k] in own;
        assert listed[k].owner != own[k].owner;
        assert listed[k].id != own[k].id by {
          assert t.cases[OwnedIndex(t.cases, ToInt32(g.id), k)] == listed[k];
          assert t.cases[OwnedIndex(t.cases, g.id, k)] == own[k];
        }
      }
    }
  }

  lemma FlattenAppend(front: seq<ChGroup>, last: ChGroup)
    ensures Flatten(front + [last]) == Flatten(front) + last.chts
  {
    assert (front + [last])[..|front|] == front;
  }

  lemma ToChTestsConcat(a: seq<Row<CaseData>>, b: seq<Row<CaseData>>)
    ensures ToChTests(a + b) == ToChTests(a) + ToChTests(b)
  {
  }

  /** The identifiers of tests that loading these groups looks up, in order. */
  function ListedIds(t: Tables, gids: seq<int>): seq<int> {
    if gids == [] then []
    else ListedIds(t, gids[..|gids| - 1]) + OwnedIds(t.cases, gids[|gids| - 1])
  }

  lemma FetchConcat<D>(rows: seq<Row<D>>, a: seq<int>, b: seq<int>)
    ensures FetchAll(rows, a + b).Success? <==> FetchAll(rows, a).Success? && FetchAll(rows, b).Success?
    ensures FetchAll(rows, a + b).Success? ==>
      FetchAll(rows, a + b).value == FetchAll(rows, a).value + FetchAll(rows, b).value
  {
    FetchAllSucceeds(rows, a);
    FetchAllSucceeds(rows, b);
    FetchAllSucceeds(rows, a + b);
    if FetchAll(rows, a + b).Success? {
      forall k | 0 <= k < |a|
        ensures Fetch(rows, a[k]).Some?
      {
        assert (a + b)[k] == a[k];
      }
      forall k | 0 <= k < |b|
        ensures Fetch(rows, b[k]).Some?
      {
        assert (a + b)[|a| + k] == b[k];
      }
      FetchAllFetches(rows, a);
      FetchAllFetches(rows, b);
      FetchAllGives(rows, a + b, FetchAll(rows, a).value + FetchAll(rows, b).value);
    }
  }

  lemma LoadGroupRows(t: Tables, id: int)
    requires LoadGroup(t, id).Success?
    ensures FetchAll(t.cases, OwnedIds(t.cases, id)).Success?
    ensures LoadGroup(t, id).value.chts == ToChTests(FetchAll(t.cases, OwnedIds(t.cases, id)).value)
  {
  }

  /** The loaded tests are the rows found for these identifiers. */
  lemma {:induction false} LoadedRows(t: Tables, gids: seq<int>)
    ensures LoadGroups(t, gids).Success?
            <==> AllFound(t.groups, gids) && FetchAll(t.cases, ListedIds(t, gids)).Success?
    ensures LoadGroups(t, gids).Success? ==>
      Flatten(LoadGroups(t, gids).value) == ToChTests(FetchAll(t.cases, ListedIds(t, gids)).value)
  {
    hide Fetch, FetchAll, OwnedIds, LoadGroup;
    if gids == [] {
      FetchAllSucceeds(t.cases, []);
      FetchAllGives(t.cases, [], []);
    } else {
      var n := |gids| - 1;
      var front, last := ListedIds(t, gids[..n]), OwnedIds(t.cases, gids[n]);
      LoadedRows(t, gids[..n]);
      LoadGroupSucceeds(t, gids[n]);
      FetchAllSucceeds(t.cases, last);
      FetchConcat(t.cases, front, last);
      assert forall k :: 0 <= k < n ==> gids[..n][k] == gids[k];
      if LoadGroups(t, gids).Success? {
        LoadGroupRows(t, gids[n]);
        FlattenAppend(LoadGroups(t, gids[..n]).value, LoadGroup(t, gids[n]).value);
        ToChTestsConcat(FetchAll(t.cases, front).value, FetchAll(t.cases, last).value);
      }
    }
  }

  /** Exactly when the rows loaded for a task are the joined rows: its groups are found again
      by their identifiers put into an `int`, and the identifiers then listed are, in order,
      those of the joined rows. */
  lemma LoadIsJoinExactly(t: Tables, tid: int)
    requires UniqueIds(t.cases) && tid in t.tasks
    ensures LoadTask(t, tid).Success? ==>
      var ids := ListedIds(t, OwnedIds(t.groups, tid));
      && FetchAll(t.cases, ids).Success?
      && Flatten(LoadTask(t, tid).value.chgs) == ToChTests(FetchAll(t.cases, ids).value)
    ensures var gids, joined := OwnedIds(t.groups, tid), JoinRows(Owned(t.groups, tid), t.cases);
      var ids := ListedIds(t, gids);
      LoadTask(t, tid).Success? && FetchAll(t.cases, ids) == Success(joined)
      <==> AllFound(t.groups, gids) && |ids| == |joined| && forall k :: 0 <= k < |ids| ==> ids[k] == joined[k].id
  {
    var gids, joined := OwnedIds(t.groups, tid), JoinRows(Owned(t.groups, tid), t.cases);
    LoadedRows(t, gids);
    JoinedAreCases(Owned(t.groups, tid), t.cases);
    FetchesExactly(t.cases, ListedIds(t, gids), joined);
  }

  lemma {:induction false} JoinedAreCases(groups: seq<Row<GroupData>>, cases: seq<Row<CaseData>>)
    ensures forall k :: 0 <= k < |JoinRows(groups, cases)| ==> JoinRows(groups, cases)[k] in cases
  {
    if groups != [] {
      var n := |groups| - 1;
      JoinedAreCases(groups[..n], cases);
      assert forall i :: 0 <= i < |Owned(cases, groups[n].id)| ==>
        cases[OwnedIndex(cases, groups[n].id, i)] == Owned(cases, groups[n].id)[i];
    }
  }

  /** Primary keys are unique, and each group of the task reads its own tests. */
  ghost predicate GroupsReadOwn(t: Tables, tid: int) {
    && UniqueIds(t.groups) && UniqueIds(t.cases)
    && forall g :: g in Owned(t.groups, tid) ==> ReadsOwn(t, g)
  }

  lemma FittingGroupsReadOwn(t: Tables, tid: int)
    requires UniqueIds(t.groups) && UniqueIds(t.cases) && TaskIdsFit(t, tid)
    ensures GroupsReadOwn(t, tid)
  {
    OwnedMembers(t.groups, tid);
    forall g | g in Owned(t.groups, tid)
      ensures ReadsOwn(t, g)
    {
      ReadsOwnWhen(t, g);
    }
  }

  /** Loading a task gives exactly the join of its groups with the test rows, in group
      order and, inside a group, in test order. */
  lemma LoadIsJoin(t: Tables, tid: int)
    requires GroupsReadOwn(t, tid) && tid in t.tasks
    ensures LoadTask(t, tid).Success?
    ensures Flatten(LoadTask(t, tid).value.chgs) == ToChTests(JoinRows(Owned(t.groups, tid), t.cases))
  {
    ListedAreJoined(t, Owned(t.groups, tid), OwnedIds(t.groups, tid)) by {
      OwnedIdsOf(t.groups, tid);
    }
    LoadIsJoinExactly(t, tid);
  }

  lemma {:induction false} ListedAreJoined(t: Tables, groups: seq<Row<GroupData>>, gids: seq<int>)
    requires |gids| == |groups|
    requires forall k :: 0 <= k < |gids| ==> gids[k] == ToInt32(groups[k].id) && ReadsOwn(t, groups[k])
    ensures AllFound(t.groups, gids)
    ensures |ListedIds(t, gids)| == |JoinRows(groups, t.cases)|
    ensures forall k :: 0 <= k < |ListedIds(t, gids)| ==> ListedIds(t, gids)[k] == JoinRows(groups, t.cases)[k].id
  {
    if gids != [] {
      var n := |gids| - 1;
      ListedAreJoined(t, groups[..n], gids[..n]);
      OwnedIdsOf(t.cases, gids[n]);
      assert forall k :: 0 <= k < n ==> gids[..n][k] == gids[k];
    }
  }

  lemma OwnedOfOne<D>(row: Row<D>, owner: int)
    ensures Owned([row], owner) == if row.owner == owner then [row] else []
  {
    assert Owned([row][1..], owner) == [];
  }

  lemma LoadOneGroup(t: Tables, tid: int, id: int)
    requires tid in t.tasks && OwnedIds(t.groups, tid) == [id] && LoadGroup(t, id).Success?
    ensures LoadTask(t, tid).Success?
    ensures Flatten(LoadTask(t, tid).value.chgs) == LoadGroup(t, id).value.chts
  {
    hide LoadGroup, OwnedIds;
    var ids, group := [id], LoadGroup(t, id).value;
    assert ids[..|ids| - 1] == [];
    assert LoadGroups(t, ids) == Success([] + [group]);
    FlattenAppend([], group);
  }

  /** Without that condition loading can succeed with another task's tests: group
      0x1_0000_0007 of task 2 has none, but those of group 7 of task 9 are read for it. */
  lemma CutGroupReadsOthersTests() returns (t: Tables, other: Row<CaseData>)
    ensures t.tasks.Keys == {2, 9} && Owned(t.groups, 2) != [] && other in t.cases
    ensures forall g :: g in Owned(t.groups, 2) ==> Owned(t.cases, g.id) == []
    ensures exists g :: g in Owned(t.groups, 9) && other.owner == g.id
    ensures UniqueIds(t.groups) && UniqueIds(t.cases) && IdsFit(t.cases)
    ensures LoadTask(t, 2).Success? && Flatten(LoadTask(t, 2).value.chgs) == [ToChTest(other)]
  {
    hide Owned, OwnedIds, Fetch, FetchAll, LoadGroups, LoadTask, Flatten;
    var task := TaskRow(0, 0, 0, "", "", "", "", "");
    var cut, found := Row(0x1_0000_0007, 2, GroupData(0, 0, "")), Row(7, 9, GroupData(0, 0, ""));
    other := Row(1, 7, CaseData(0, "", ""));
    t := Tables(map[], map[2 := task, 9 := task], map[], [cut, found], [other], []);
    assert [cut, found] == [cut] + [found];
    OwnedConcat([cut], [found], 2);
    OwnedConcat([cut], [found], 9);
    OwnedOfOne(cut, 2);
    OwnedOfOne(cut, 9);
    OwnedOfOne(found, 2);
    OwnedOfOne(found, 9);
    OwnedOfOne(other, 7);
    OwnedOfOne(other, 0x1_0000_0007);
    OwnedIdsOf(t.groups, 2);
    assert OwnedIds(t.groups, 2) == [7];
    ListThenFetch(t.cases, 7);
    FetchFinds(t.groups, 1);
    assert LoadGroup(t, 7) == Success(ToChGroup(found, ToChTests([other])));
    LoadOneGroup(t, 2, 7);
  }

  /** Selecting by foreign key goes through the rows in listing order. */
  lemma {:induction false} OwnedConcat<D>(a: seq<Row<D>>, b: seq<Row<D>>, owner: int)
    ensures Owned(a + b, owner) == Owned(a, owner) + Owned(b, owner)
  {
    if a == [] {
      assert a + b == b;
    } else {
      var first, rest := if a[0].owner == owner then [a[0]] else [], a[1..];
      calc {
        Owned(a + b, owner);
        { assert (a + b)[1..] == rest + b && (a + b)[0] == a[0]; }
        first + Owned(rest + b, owner);
        { OwnedConcat(rest, b, owner); }
        first + (Owned(rest, owner) + Owned(b, owner));
        { Associates(first, Owned(rest, owner), Owned(b, owner)); }
        first + Owned(rest, owner) + Owned(b, owner);
      }
    }
  }

  lemma Associates<T>(a: seq<T>, b: seq<T>, c: seq<T>)
    ensures a + (b + c) == a + b + c
  {
  }

  /** Where in a listing the row with this identifier is. */
  function Position<D>(rows: seq<Row<D>>, id: int): nat {
    if rows == [] || rows[0].id == id then 0 else 1 + Position(rows[1..], id)
  }

  lemma {:induction false} PositionOf<D>(rows: seq<Row<D>>, k: nat)
    requires UniqueIds(rows) && k < |rows|
    ensures Position(rows, rows[k].id) == k
  {
    if k > 0 {
      PositionOf(rows[1..], k - 1);
    }
  }

  lemma {:induction false} OwnedIndexRises<D>(rows: seq<Row<D>>, owner: int, i: nat, j: nat)
    requires i < j < |Owned(rows, owner)|
    ensures OwnedIndex(rows, owner, i) < OwnedIndex(rows, owner, j)
  {
    if rows[0].owner != owner {
      OwnedIndexRises(rows[1..], owner, i, j);
    } else if i > 0 {
      OwnedIndexRises(rows[1..], owner, i - 1, j - 1);
    }
  }

  /** The selected rows are in listing order. */
  lemma OwnedInOrder<D>(rows: seq<Row<D>>, owner: int, i: nat, j: nat)
    requires UniqueIds(rows) && i < j < |Owned(rows, owner)|
    ensures Position(rows, Owned(rows, owner)[i].id) < Position(rows, Owned(rows, owner)[j].id)
  {
    hide Owned, Position, OwnedIndex;
    OwnedIndexRises(rows, owner, i, j);
    PositionOf(rows, OwnedIndex(rows, owner, i));
    PositionOf(rows, OwnedIndex(rows, owner, j));
  }

  /** In the join, rows of an earlier group come before rows of a later one, and rows of one
      group are in the order in which the test table lists them. */
  lemma {:induction false} JoinInOrder(groups: seq<Row<GroupData>>, cases: seq<Row<CaseData>>, i: nat, j: nat)
    requires UniqueIds(groups) && UniqueIds(cases)
    requires i < j < |JoinRows(groups, cases)|
    ensures var x, y := JoinRows(groups, cases)[i], JoinRows(groups, cases)[j];
      var gx, gy := Position(groups, x.owner), Position(groups, y.owner);
      gx < gy || (gx == gy && Position(cases, x.id) < Position(cases, y.id))
  {
    hide Owned, Position;
    var n := |groups| - 1;
    var front, last := JoinRows(groups[..n], cases), Owned(cases, groups[n].id);
    if j < |front| {
      JoinInOrder(groups[..n], cases, i, j);
      FrontPosition(groups, cases, i);
      FrontPosition(groups, cases, j);
    } else {
      PositionOf(groups, n);
      OwnedMembers(cases, groups[n].id);
      assert last[j - |front|] in last;
      if i < |front| {
        FrontPosition(groups, cases, i);
      } else {
        assert last[i - |front|] in last;
        OwnedInOrder(cases, groups[n].id, i - |front|, j - |front|);
      }
    }
  }

  /** A row from the earlier groups belongs to one of them. */
  lemma FrontPosition(groups: seq<Row<GroupData>>, cases: seq<Row<CaseData>>, i: nat)
    requires UniqueIds(groups) && UniqueIds(cases) && groups != []
    requires i < |JoinRows(groups[..|groups| - 1], cases)|
    ensures var n := |groups| - 1;
      var owner := JoinRows(groups[..n], cases)[i].owner;
      Position(groups, owner) == Position(groups[..n], owner) < n
  {
    var n := |groups| - 1;
    JoinIsUnique(groups[..n], cases);
    var row := JoinRows(groups[..n], cases)[i];
    assert row in JoinRows(groups[..n], cases);
    var k :| 0 <= k < n && groups[..n][k].id == row.owner;
    PositionOf(groups, k);
    PositionOf(groups[..n], k);
  }

  /** The loaded tests are in group order and, inside a group, in test order, by the
      positions of their groups and of themselves in the two tables. */
  lemma LoadedInOrder(t: Tables, tid: int, i: nat, j: nat)
    requires UniqueIds(t.groups) && UniqueIds(t.cases) && TaskIdsFit(t, tid)
    requires tid in t.tasks && LoadTask(t, tid).Success?
    requires i < j < |Flatten(LoadTask(t, tid).value.chgs)|
    ensures var x, y := Flatten(LoadTask(t, tid).value.chgs)[i], Flatten(LoadTask(t, tid).value.chgs)[j];
      var gx, gy := Position(t.groups, x.gid), Position(t.groups, y.gid);
      gx < gy || (gx == gy && Position(t.cases, x.id) < Position(t.cases, y.id))
  {
    FittingGroupsReadOwn(t, tid);
    LoadIsJoin(t, tid);
    OwnedIsUnique(t.groups, tid);
    var mine := Owned(t.groups, tid);
    var rows := JoinRows(mine, t.cases);
    JoinInOrder(mine, t.cases, i, j);
    var a, k := JoinedFrom(t, mine, i);
    var b, l := JoinedFrom(t, mine, j);
    PositionOf(mine, a);
    PositionOf(mine, b);
    if a < b {
      OwnedInOrder(t.groups, tid, a, b);
    }
  }

  /** A joined row, its group and its identifiers as an `int`. */
  lemma JoinedFrom(t: Tables, groups: seq<Row<GroupData>>, i: nat) returns (g: nat, c: nat)
    requires UniqueIds(groups) && UniqueIds(t.cases) && i < |JoinRows(groups, t.cases)|
    requires IdsFit(groups) && forall g :: g in groups ==> IdsFit(Owned(t.cases, g.id))
    ensures g < |groups| && groups[g].id == JoinRows(groups, t.cases)[i].owner
    ensures c < |t.cases| && t.cases[c] == JoinRows(groups, t.cases)[i]
    ensures ToChTest(t.cases[c]).id == t.cases[c].id && ToChTest(t.cases[c]).gid == t.cases[c].owner
  {
    JoinIsUnique(groups, t.cases);
    var row := JoinRows(groups, t.cases)[i];
    assert row in JoinRows(groups, t.cases);
    g :| 0 <= g < |groups| && groups[g].id == row.owner;
    c :| 0 <= c < |t.cases| && t.cases[c] == row;
    assert groups[g] in groups;
    OwnedMembers(t.cases, groups[g].id);
    assert row in Owned(t.cases, groups[g].id);
  }

  // ------------------------------------------ group order against listing order

  lemma {:induction false} SemiJoinAddsGroup(cases: seq<Row<CaseData>>, gids: set<Int64>, gid: Int64)
    requires gid !in gids
    ensures multiset(SemiJoin(cases, gids + {gid})) == multiset(SemiJoin(cases, gids)) + multiset(Owned(cases, gid))
  {
    if cases != [] {
      SemiJoinAddsGroup(cases[1..], gids, gid);
    }
  }

  lemma {:induction false} SemiJoinOfNothing(cases: seq<Row<CaseData>>)
    ensures SemiJoin(cases, {}) == []
  {
    if cases != [] {
      SemiJoinOfNothing(cases[1..]);
    }
  }

  lemma IdSetGrows<D>(rows: seq<Row<D>>)
    requires rows != []
    ensures IdSet(rows) == IdSet(rows[..|rows| - 1]) + {rows[|rows| - 1].id}
  {
    var n := |rows| - 1;
    forall x | x in IdSet(rows[..n])
      ensures x in IdSet(rows)
    {
      var i :| 0 <= i < n && rows[..n][i].id == x;
      assert rows[i].id == x;
    }
    forall x | x in IdSet(rows) && x != rows[n].id
      ensures x in IdSet(rows[..n])
    {
      var i :| 0 <= i < |rows| && rows[i].id == x;
      assert rows[..n][i].id == x;
    }
    assert rows[n].id in IdSet(rows);
  }

  /** Going through the groups one by one selects the same rows, as often, as one pass
      over the test table. */
  lemma {:induction false} JoinIsSemiJoin(groups: seq<Row<GroupData>>, cases: seq<Row<CaseData>>)
    requires UniqueIds(groups)
    ensures multiset(JoinRows(groups, cases)) == multiset(SemiJoin(cases, IdSet(groups)))
  {
    if groups == [] {
      SemiJoinOfNothing(cases);
      assert IdSet(groups) == {};
    } else {
      var n := |groups| - 1;
      JoinIsSemiJoin(groups[..n], cases);
      IdSetGrows(groups);
      SemiJoinAddsGroup(cases, IdSet(groups[..n]), groups[n].id);
    }
  }

  function RowScore(rows: seq<Row<CaseData>>): int {
    if rows == [] then 0 else RowScore(rows[..|rows| - 1]) + ToInt32(rows[|rows| - 1].data.scores)
  }

  lemma {:induction false} RowScoreOf(rows: seq<Row<CaseData>>)
    ensures TotalScore(ToChTests(rows)) == RowScore(rows)
  {
    if rows != [] {
      var n := |rows| - 1;
      RowScoreOf(rows[..n]);
      assert ToChTests(rows)[..n] == ToChTests(rows[..n]);
    }
  }

  lemma {:induction false} RowScoreConcat(a: seq<Row<CaseData>>, b: seq<Row<CaseData>>)
    ensures RowScore(a + b) == RowScore(a) + RowScore(b)
  {
    if b == [] {
      assert a + b == a;
    } else {
      var n := |b| - 1;
      RowScoreConcat(a, b[..n]);
      assert (a + b)[..|a| + n] == a + b[..n];
    }
  }

  lemma TakeOut(rows: seq<Row<CaseData>>, i: nat)
    requires i < |rows|
    ensures var rest := rows[..i] + rows[i + 1..];
      && multiset(rest) == multiset(rows) - multiset{rows[i]}
      && RowScore(rows) == RowScore(rest) + ToInt32(rows[i].data.scores)
  {
    var before, one, after := rows[..i], [rows[i]], rows[i + 1..];
    assert rows == before + one + after;
    RowScoreConcat(before + one, after);
    RowScoreConcat(before, one);
    RowScoreConcat(before, after);
    assert RowScore(one) == ToInt32(rows[i].data.scores) by { assert one[..0] == []; }
  }

  /** The total score depends only on which rows there are. */
  lemma {:induction false} RowScoreOfPermutation(a: seq<Row<CaseData>>, b: seq<Row<CaseData>>)
    requires multiset(a) == multiset(b)
    ensures |a| == |b| && RowScore(a) == RowScore(b)
    decreases |a|
  {
    assert |a| == |multiset(a)| == |multiset(b)| == |b|;
    if a != [] {
      var n := |a| - 1;
      assert a[n] in multiset(b);
      var i :| 0 <= i < |b| && b[i] == a[n];
      TakeOut(a, n);
      TakeOut(b, i);
      assert a[..n] + a[n + 1..] == a[..n];
      RowScoreOfPermutation(a[..n], b[..i] + b[i + 1..]);
    }
  }

  /** The tests of a loaded task are the `checkertests` rows whose group belongs to the
      task: each of them once, none besides, and so with the same count and total score. */
  lemma LoadConserves(t: Tables, tid: int)
    requires GroupsReadOwn(t, tid) && tid in t.tasks
    ensures LoadTask(t, tid).Success?
    ensures exists rows: seq<Row<CaseData>> ::
      && Flatten(LoadTask(t, tid).value.chgs) == ToChTests(rows)
      && multiset(rows) == multiset(SemiJoin(t.cases, IdSet(Owned(t.groups, tid))))
    ensures var selected := SemiJoin(t.cases, IdSet(Owned(t.groups, tid)));
      var loaded := Flatten(LoadTask(t, tid).value.chgs);
      && |loaded| == |selected|
      && TotalScore(loaded) == RowScore(selected)
  {
    LoadIsJoin(t, tid);
    OwnedIsUnique(t.groups, tid);
    var rows := JoinRows(Owned(t.groups, tid), t.cases);
    JoinIsSemiJoin(Owned(t.groups, tid), t.cases);
    RowScoreOfPermutation(rows, SemiJoin(t.cases, IdSet(Owned(t.groups, tid))));
    RowScoreOf(rows);
  }

  /** No test is listed twice: the identifiers of the loaded tests are all different. */
  lemma LoadedTestsAreDistinct(t: Tables, tid: int)
    requires GroupsReadOwn(t, tid) && tid in t.tasks
    ensures LoadTask(t, tid).Success?
    ensures var loaded := Flatten(LoadTask(t, tid).value.chgs);
      forall i, j :: 0 <= i < j < |loaded| ==> loaded[i].id != loaded[j].id
  {
    LoadIsJoin(t, tid);
    OwnedIsUnique(t.groups, tid);
    JoinIsUnique(Owned(t.groups, tid), t.cases);
    JoinedIdsFit(t, Owned(t.groups, tid));
    var rows := JoinRows(Owned(t.groups, tid), t.cases);
    assert forall i :: 0 <= i < |rows| ==> ToChTests(rows)[i].id == rows[i].id;
  }

  lemma {:induction false} JoinedIdsFit(t: Tables, groups: seq<Row<GroupData>>)
    requires forall g :: g in groups ==> ReadsOwn(t, g)
    ensures IdsFit(JoinRows(groups, t.cases))
  {
    if groups != [] {
      var n := |groups| - 1;
      JoinedIdsFit(t, groups[..n]);
      assert ReadsOwn(t, groups[n]);
    }
  }

  lemma {:induction false} JoinIsUnique(groups: seq<Row<GroupData>>, cases: seq<Row<CaseData>>)
    requires UniqueIds(groups) && UniqueIds(cases)
    ensures UniqueIds(JoinRows(groups, cases))
    ensures forall x :: x in JoinRows(groups, cases) ==> x in cases && x.owner in IdSet(groups)
  {
    if groups != [] {
      var n := |groups| - 1;
      JoinIsUnique(groups[..n], cases);
      OwnedIsUnique(cases, groups[n].id);
      OwnedMembers(cases, groups[n].id);
      var front, last := JoinRows(groups[..n], cases), Owned(cases, groups[n].id);
      forall i, j | 0 <= i < |front| && 0 <= j < |last|
        ensures front[i].id != last[j].id
      {
        assert front[i].owner in IdSet(groups[..n]) && last[j].owner == groups[n].id;
        assert front[i].owner != last[j].owner;
        var p :| 0 <= p < |cases| && cases[p] == front[i];
        var q :| 0 <= q < |cases| && cases[q] == last[j];
        assert p != q;
      }
      forall x | x in JoinRows(groups, cases)
        ensures x in cases && x.owner in IdSet(groups)
      {
        if x in front {
          var i :| 0 <= i < n && groups[..n][i].id == x.owner;
          assert groups[i].id == x.owner;
        } else {
          assert groups[n].id == x.owner;
        }
      }
    }
  }

  // ------------------------------------------------------------ how many queries

  /** Constructing a solution takes five queries, two more for each group of its task, and
      one for each checker test and each test result. */
  lemma QueriesOfLoaded(t: Tables, id: int)
    requires LoadSolution(t, id).Success?
    ensures var sol := LoadSolution(t, id).value;
      SolutionQueries(t, id) == 5 + 2 * |sol.pt.chgs| + |Flatten(sol.pt.chgs)| + |sol.tsts|
  {
    hide GroupsQueries, LoadGroups, Flatten, FetchAll, FetchAllQueries, OwnedIds;
    KeepsFound(t, id);
    AllQueried(t.tests, OwnedIds(t.tests, id));
    GroupsQueried(t, OwnedIds(t.groups, ToInt32(t.solutions[id].tid)));
  }

  lemma {:induction false} AllQueried<D>(rows: seq<Row<D>>, ids: seq<int>)
    requires FetchAll(rows, ids).Success?
    ensures FetchAllQueries(rows, ids) == |ids| == |FetchAll(rows, ids).value|
  {
    if ids != [] {
      AllQueried(rows, ids[..|ids| - 1]);
    }
  }

  lemma {:induction false} GroupsQueried(t: Tables, ids: seq<int>)
    requires LoadGroups(t, ids).Success?
    ensures var chgs := LoadGroups(t, ids).value;
      GroupsQueries(t, ids) == 2 * |chgs| + |Flatten(chgs)|
  {
    hide FetchAll, FetchAllQueries, OwnedIds;
    if ids != [] {
      var n := |ids| - 1;
      GroupsQueried(t, ids[..n]);
      LoadGroupRows(t, ids[n]);
      AllQueried(t.cases, OwnedIds(t.cases, ids[n]));
      FlattenAppend(LoadGroups(t, ids[..n]).value, LoadGroup(t, ids[n]).value);
    }
  }
}
