/** Constructing a solution with everything it refers to: its task with the task's groups
    and their tests, its language, and its own test results. The functions say what one
    stable snapshot of the tables gives; the methods are the constructors, query by query,
    any of which the server may refuse. */
module Loading {
  import opened CInts
  import opened Wrappers
  import opened Tables

  datatype ChTest = ChTest(id: Int32, gid: Int32, scores: Int32, input: string, output: string)

  datatype ChGroup = ChGroup(
    id: int, tid: int, kind: int, scores: int, name: string, chts: seq<ChTest>)

  datatype Task = Task(
    id: int, cid: int, timeLimit: nat, memoryLimit: nat, title: string, content: string,
    input: string, output: string, checker: string, chgs: seq<ChGroup>)

  datatype Lang = Lang(
    id: int, name: string, compiler: string, extension: string, identifier: string)

  datatype Test = Test(id: int, sid: int, num: int, res: int, cid: int)

  /** The task and language are owned by the solution alone, so they are parts of it. */
  datatype Solution = Solution(
    id: int, uid: int, tid: int, lid: int, createdAt: int, status: int, score: int,
    code: string, file: string, hash: string, result: string,
    pt: Task, pl: Lang, tsts: seq<Test>)

  /** The exceptions a constructor can throw. */
  datatype LoadError =
    | NoSolution(id: int) | NoTask(id: int) | NoGroup(id: int) | NoCase(id: int)
    | NoLang(id: int) | NoTest(id: int) | QueryFailed

  // ------------------------------------------------------- rows to objects

  function ToChTest(row: Row<CaseData>): ChTest {
    ChTest(ToInt32(row.id), ToInt32(row.owner), ToInt32(row.data.scores),
           CStr(row.data.input), CStr(row.data.output))
  }

  function ToChTests(rows: seq<Row<CaseData>>): (r: seq<ChTest>)
    ensures |r| == |rows| && forall i :: 0 <= i < |rows| ==> r[i] == ToChTest(rows[i])
  {
    seq(|rows|, i requires 0 <= i < |rows| => ToChTest(rows[i]))
  }

  function ToTest(row: Row<TestData>): Test {
    Test(ToInt32(row.id), ToInt32(row.owner), ToInt32(row.data.num),
         ToInt32(row.data.res), ToInt32(row.data.cid))
  }

  function ToTests(rows: seq<Row<TestData>>): (r: seq<Test>)
    ensures |r| == |rows| && forall i :: 0 <= i < |rows| ==> r[i] == ToTest(rows[i])
  {
    seq(|rows|, i requires 0 <= i < |rows| => ToTest(rows[i]))
  }

  function ToChGroup(row: Row<GroupData>, chts: seq<ChTest>): ChGroup {
    ChGroup(ToInt32(row.id), ToInt32(row.owner), ToInt32(row.data.kind),
            ToInt32(row.data.scores), CStr(row.data.name), chts)
  }

  function ToTask(id: int, row: TaskRow, chgs: seq<ChGroup>): Task {
    Task(ToInt32(id), ToInt32(row.cid), row.timeLimit % U64, row.memoryLimit % U64,
         CStr(row.title), CStr(row.content), CStr(row.input), CStr(row.output),
         CStr(row.checker), chgs)
  }

  function ToLang(id: int, row: LangRow): Lang {
    Lang(ToInt32(id), CStr(row.name), CStr(row.compiler), CStr(row.extension),
         CStr(row.identifier))
  }

  function ToSolution(id: int, row: SolutionRow, pt: Task, pl: Lang, tsts: seq<Test>): Solution {
    Solution(ToInt32(id), ToInt32(row.uid), ToInt32(row.tid), ToInt32(row.lid),
             ToInt32(row.createdAt), ToInt32(row.status), ToInt32(row.score),
             CStr(row.code), CStr(row.file), CStr(row.hash), CStr(row.result), pt, pl, tsts)
  }

  // ------------------------------------------- what a snapshot of the tables gives

  function LoadGroup(t: Tables, id: int): Result<ChGroup, LoadError> {
    match Fetch(t.groups, id)
    case None => Failure(NoGroup(id))
    case Some(row) =>
      match FetchAll(t.cases, OwnedIds(t.cases, id))
      case Failure(missing) => Failure(NoCase(missing))
      case Success(rows) => Success(ToChGroup(row, ToChTests(rows)))
  }

  function LoadGroups(t: Tables, ids: seq<int>): Result<seq<ChGroup>, LoadError> {
    if ids == [] then Success([])
    else
      var n := |ids| - 1;
      var front :- LoadGroups(t, ids[..n]);
      var last :- LoadGroup(t, ids[n]);
      Success(front + [last])
  }

  function LoadTask(t: Tables, id: int): Result<Task, LoadError> {
    if id !in t.tasks then Failure(NoTask(id))
    else
      var chgs :- LoadGroups(t, OwnedIds(t.groups, id));
      Success(ToTask(id, t.tasks[id], chgs))
  }

  function LoadLang(t: Tables, id: int): Result<Lang, LoadError> {
    if id !in t.langs then Failure(NoLang(id)) else Success(ToLang(id, t.langs[id]))
  }

  function LoadSolution(t: Tables, id: int): Result<Solution, LoadError> {
    if id !in t.solutions then Failure(NoSolution(id))
    else
      var row := t.solutions[id];
      var pt :- LoadTask(t, ToInt32(row.tid));
      var pl :- LoadLang(t, ToInt32(row.lid));
      match FetchAll(t.tests, OwnedIds(t.tests, id))
      case Failure(missing) => Failure(NoTest(missing))
      case Success(rows) => Success(ToSolution(id, row, pt, pl, ToTests(rows)))
  }

  // --------------------------------------------------- how many queries that takes

  /** The lookups that are made: up to the first one that finds no row. */
  function FetchAllQueries<D>(rows: seq<Row<D>>, ids: seq<int>): nat {
    if ids == [] then 0
    else
      var n := |ids| - 1;
      FetchAllQueries(rows, ids[..n]) + if FetchAll(rows, ids[..n]).Success? then 1 else 0
  }

  /** Its row, and, if there is one, the listing of its tests and each of these. */
  function GroupQueries(t: Tables, id: int): nat {
    match Fetch(t.groups, id)
    case None => 1
    case Some(_) => 2 + FetchAllQueries(t.cases, OwnedIds(t.cases, id))
  }

  function GroupsQueries(t: Tables, ids: seq<int>): nat {
    if ids == [] then 0
    else
      var n := |ids| - 1;
      GroupsQueries(t, ids[..n]) + if LoadGroups(t, ids[..n]).Success? then GroupQueries(t, ids[n]) else 0
  }

  function TaskQueries(t: Tables, id: int): nat {
    if id !in t.tasks then 1 else 2 + GroupsQueries(t, OwnedIds(t.groups, id))
  }

  /** The solution's row, its task, its language, the listing of its tests and each of
      these, as far as nothing is missing. */
  function SolutionQueries(t: Tables, id: int): nat {
    if id !in t.solutions then 1
    else
      var row := t.solutions[id];
      1 + TaskQueries(t, ToInt32(row.tid)) +
      if LoadTask(t, ToInt32(row.tid)).Failure? then 0
      else if LoadLang(t, ToInt32(row.lid)).Failure? then 1
      else 2 + FetchAllQueries(t.tests, OwnedIds(t.tests, id))
  }

  // -------------------------------------------------- the constructors themselves

  /** How many more queries the server answers before it refuses one; `None`: it refuses
      none. */
  type Patience = Option<nat>

  predicate Suffices(p: Patience, queries: nat) {
    p.None? || queries <= p.value
  }

  function Remaining(p: Patience, queries: nat): Patience
    requires Suffices(p, queries)
  {
    if p.None? then None else Some(p.value - queries)
  }

  /** A query gives the answer the tables hold, or throws when the server refuses it. */
  method Query<T>(p: Patience, answer: T) returns (r: Result<T, LoadError>, left: Patience)
    ensures Suffices(p, 1) ==> r == Success(answer) && left == Remaining(p, 1)
    ensures !Suffices(p, 1) ==> r == Failure(QueryFailed)
  {
    if p == Some(0) {
      return Failure(QueryFailed), p;
    }
    return Success(answer), Remaining(p, 1);
  }

  method ReadCase(t: Tables, id: int, p: Patience) returns (r: Result<ChTest, LoadError>, left: Patience)
    ensures Suffices(p, 1) ==> left == Remaining(p, 1)
    ensures Suffices(p, 1) ==>
      r == match Fetch(t.cases, id)
           case None => Failure(NoCase(id))
           case Some(row) => Success(ToChTest(row))
    ensures !Suffices(p, 1) ==> r == Failure(QueryFailed)
  {
    var found;
    found, left :- Query(p, Fetch(t.cases, id));
    match found {
      case None => return Failure(NoCase(id)), left;
      case Some(row) => return Success(ToChTest(row)), left;
    }
  }

  method ReadTest(t: Tables, id: int, p: Patience) returns (r: Result<Test, LoadError>, left: Patience)
    ensures Suffices(p, 1) ==> left == Remaining(p, 1)
    ensures Suffices(p, 1) ==>
      r == match Fetch(t.tests, id)
           case None => Failure(NoTest(id))
           case Some(row) => Success(ToTest(row))
    ensures !Suffices(p, 1) ==> r == Failure(QueryFailed)
  {
    var found;
    found, left :- Query(p, Fetch(t.tests, id));
    match found {
      case None => return Failure(NoTest(id)), left;
      case Some(row) => return Success(ToTest(row)), left;
    }
  }

  method ReadGroup(t: Tables, id: int, p: Patience) returns (r: Result<ChGroup, LoadError>, left: Patience)
    ensures Suffices(p, GroupQueries(t, id)) ==> r == LoadGroup(t, id) && left == Remaining(p, GroupQueries(t, id))
    ensures !Suffices(p, GroupQueries(t, id)) ==> r == Failure(QueryFailed)
  {
    var found, inds;
    found, left :- Query(p, Fetch(t.groups, id));
    if found.None? {
      return Failure(NoGroup(id)), left;
    }
    inds, left :- Query(left, OwnedIds(t.cases, id));
    var chts: seq<ChTest> := [];
    for i := 0 to |inds|
      invariant FetchAll(t.cases, inds[..i]).Success? && FetchAllQueries(t.cases, inds[..i]) == i
      invariant chts == ToChTests(FetchAll(t.cases, inds[..i]).value)
      invariant Suffices(p, 2 + i) && left == Remaining(p, 2 + i)
    {
      FetchAllStep(t.cases, inds, i);
      var cht;
      cht, left :- ReadCase(t, inds[i], left);
      chts := chts + [cht];
    }
    assert inds[..|inds|] == inds;
    return Success(ToChGroup(found.value, chts)), left;
  }

  /** One more lookup: either it extends what was found, or it decides the whole. */
  lemma FetchAllStep<D>(rows: seq<Row<D>>, ids: seq<int>, i: nat)
    requires i < |ids| && FetchAll(rows, ids[..i]).Success?
    ensures match Fetch(rows, ids[i])
            case None => FetchAll(rows, ids) == Failure(ids[i])
                         && FetchAllQueries(rows, ids) == FetchAllQueries(rows, ids[..i]) + 1
            case Some(row) => FetchAll(rows, ids[..i + 1]) == Success(FetchAll(rows, ids[..i]).value + [row])
    ensures FetchAllQueries(rows, ids[..i + 1]) == FetchAllQueries(rows, ids[..i]) + 1
    ensures FetchAllQueries(rows, ids) > FetchAllQueries(rows, ids[..i])
  {
    assert ids[..i + 1][..i] == ids[..i];
    if Fetch(rows, ids[i]).None? {
      FetchAllFailure(rows, ids, i + 1);
    }
    FetchAllQueriesGrow(rows, ids, i + 1);
  }

  lemma {:induction false} FetchAllQueriesGrow<D>(rows: seq<Row<D>>, ids: seq<int>, n: nat)
    requires n <= |ids|
    ensures FetchAllQueries(rows, ids) >= FetchAllQueries(rows, ids[..n])
  {
    if n < |ids| {
      assert ids[..|ids| - 1][..n] == ids[..n];
      FetchAllQueriesGrow(rows, ids[..|ids| - 1], n);
    } else {
      assert ids[..n] == ids;
    }
  }

  /** The same for one more group. */
  lemma LoadGroupsStep(t: Tables, ids: seq<int>, i: nat)
    requires i < |ids| && LoadGroups(t, ids[..i]).Success?
    ensures match LoadGroup(t, ids[i])
            case Failure(error) => LoadGroups(t, ids) == Failure(error)
                                   && GroupsQueries(t, ids) == GroupsQueries(t, ids[..i + 1])
            case Success(group) => LoadGroups(t, ids[..i + 1]) == Success(LoadGroups(t, ids[..i]).value + [group])
    ensures GroupsQueries(t, ids[..i + 1]) == GroupsQueries(t, ids[..i]) + GroupQueries(t, ids[i])
    ensures GroupsQueries(t, ids) >= GroupsQueries(t, ids[..i + 1])
  {
    hide LoadGroup, GroupQueries;
    assert ids[..i + 1][..i] == ids[..i];
    if LoadGroup(t, ids[i]).Failure? {
      LoadGroupsFailure(t, ids, i + 1);
    }
    GroupsQueriesGrow(t, ids, i + 1);
  }

  lemma {:induction false} GroupsQueriesGrow(t: Tables, ids: seq<int>, n: nat)
    requires n <= |ids|
    ensures GroupsQueries(t, ids) >= GroupsQueries(t, ids[..n])
  {
    if n < |ids| {
      assert ids[..|ids| - 1][..n] == ids[..n];
      GroupsQueriesGrow(t, ids[..|ids| - 1], n);
    } else {
      assert ids[..n] == ids;
    }
  }

  lemma {:induction false} FetchAllFailure<D>(rows: seq<Row<D>>, ids: seq<int>, n: nat)
    requires n <= |ids| && FetchAll(rows, ids[..n]).Failure?
    ensures FetchAll(rows, ids) == FetchAll(rows, ids[..n])
    ensures FetchAllQueries(rows, ids) == FetchAllQueries(rows, ids[..n])
  {
    if n < |ids| {
      assert ids[..|ids| - 1][..n] == ids[..n];
      FetchAllFailure(rows, ids[..|ids| - 1], n);
    } else {
      assert ids[..n] == ids;
    }
  }

  lemma {:induction false} LoadGroupsFailure(t: Tables, ids: seq<int>, n: nat)
    requires n <= |ids| && LoadGroups(t, ids[..n]).Failure?
    ensures LoadGroups(t, ids) == LoadGroups(t, ids[..n])
    ensures GroupsQueries(t, ids) == GroupsQueries(t, ids[..n])
  {
    if n < |ids| {
      assert ids[..|ids| - 1][..n] == ids[..n];
      LoadGroupsFailure(t, ids[..|ids| - 1], n);
    } else {
      assert ids[..n] == ids;
    }
  }

  method ReadTask(t: Tables, id: int, p: Patience) returns (r: Result<Task, LoadError>, left: Patience)
    ensures Suffices(p, TaskQueries(t, id)) ==> r == LoadTask(t, id) && left == Remaining(p, TaskQueries(t, id))
    ensures !Suffices(p, TaskQueries(t, id)) ==> r == Failure(QueryFailed)
  {
    hide LoadGroup, GroupQueries, OwnedIds, ToTask, ToLang, CStr;
    var present, inds;
    present, left :- Query(p, id in t.tasks);
    if !present {
      return Failure(NoTask(id)), left;
    }
    inds, left :- Query(left, OwnedIds(t.groups, id));
    var chgs: seq<ChGroup> := [];
    for i := 0 to |inds|
      invariant LoadGroups(t, inds[..i]) == Success(chgs)
      invariant Suffices(p, 2 + GroupsQueries(t, inds[..i])) && left == Remaining(p, 2 + GroupsQueries(t, inds[..i]))
    {
      LoadGroupsStep(t, inds, i);
      var chg;
      chg, left :- ReadGroup(t, inds[i], left);
      chgs := chgs + [chg];
    }
    assert inds[..|inds|] == inds;
    return Success(ToTask(id, t.tasks[id], chgs)), left;
  }

  method ReadLang(t: Tables, id: int, p: Patience) returns (r: Result<Lang, LoadError>, left: Patience)
    ensures Suffices(p, 1) ==> r == LoadLang(t, id) && left == Remaining(p, 1)
    ensures !Suffices(p, 1) ==> r == Failure(QueryFailed)
  {
    var present;
    present, left :- Query(p, id in t.langs);
    if !present {
      return Failure(NoLang(id)), left;
    }
    return Success(ToLang(id, t.langs[id])), left;
  }

  method ReadSolution(t: Tables, id: int, p: Patience) returns (r: Result<Solution, LoadError>)
    ensures r == if Suffices(p, SolutionQueries(t, id)) then LoadSolution(t, id) else Failure(QueryFailed)
  {
    hide LoadGroups, GroupsQueries, OwnedIds, ToSolution, ToTask, CStr;
    var present, left :- Query(p, id in t.solutions);
    if !present {
      return Failure(NoSolution(id));
    }
    var row := t.solutions[id];
    var pt, pl, tis;
    pt, left :- ReadTask(t, ToInt32(row.tid), left);
    pl, left :- ReadLang(t, ToInt32(row.lid), left);
    tis, left :- Query(left, OwnedIds(t.tests, id));
    var tsts: seq<Test> := [];
    ghost var before := 3 + TaskQueries(t, ToInt32(row.tid));
    for i := 0 to |tis|
      invariant FetchAll(t.tests, tis[..i]).Success? && FetchAllQueries(t.tests, tis[..i]) == i
      invariant tsts == ToTests(FetchAll(t.tests, tis[..i]).value)
      invariant Suffices(p, before + i) && left == Remaining(p, before + i)
    {
      FetchAllStep(t.tests, tis, i);
      var tst;
      tst, left :- ReadTest(t, tis[i], left);
      tsts := tsts + [tst];
    }
    assert tis[..|tis|] == tis;
    return Success(ToSolution(id, row, pt, pl, tsts));
  }
}
