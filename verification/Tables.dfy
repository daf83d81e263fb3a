/** The database tables the contester reads, as its queries deliver them.

    Integer cells are 64-bit values. Tables looked up by primary key alone are maps. The
    tables that are also listed by a foreign key are sequences, in the order in which the
    server lists their rows. */
module Tables {
  import opened CInts
  import opened Wrappers

  datatype SolutionRow = SolutionRow(
    uid: Int64, tid: Int64, lid: Int64, createdAt: Int64, status: Int64, score: Int64,
    code: string, file: string, hash: string, result: string)

  datatype TaskRow = TaskRow(
    cid: Int64, timeLimit: Int64, memoryLimit: Int64, title: string, content: string,
    input: string, output: string, checker: string)

  datatype LangRow = LangRow(
    name: string, compiler: string, extension: string, identifier: string)

  /** A row of a table listed by the foreign key `owner`. */
  datatype Row<+D> = Row(id: Int64, owner: Int64, data: D)

  /** `checkergroups`, owned by a task. */
  datatype GroupData = GroupData(kind: Int64, scores: Int64, name: string)

  /** `checkertests`, owned by a group. */
  datatype CaseData = CaseData(scores: Int64, input: string, output: string)

  /** `tests`, owned by a solution. */
  datatype TestData = TestData(num: Int64, res: Int64, cid: Int64)

  datatype Tables = Tables(
    solutions: map<Int64, SolutionRow>,
    tasks: map<Int64, TaskRow>,
    langs: map<Int64, LangRow>,
    groups: seq<Row<GroupData>>,
    cases: seq<Row<CaseData>>,
    tests: seq<Row<TestData>>)

  const STATUS_NOT_CHECKED: int := 0
  const STATUS_CHECKED: int := 1

  // ------------------------------------------------------------------ queries

  /** SELECT ... WHERE id = `id`, first row. */
  function Fetch<D>(rows: seq<Row<D>>, id: int): Option<Row<D>> {
    if rows == [] then None
    else if rows[0].id == id then Some(rows[0])
    else Fetch(rows[1..], id)
  }

  /** The rows with the given foreign key, in listing order. */
  function Owned<D>(rows: seq<Row<D>>, owner: int): seq<Row<D>> {
    if rows == [] then []
    else (if rows[0].owner == owner then [rows[0]] else []) + Owned(rows[1..], owner)
  }

  /** Where in the listing the `i`-th selected row is. */
  function OwnedIndex<D>(rows: seq<Row<D>>, owner: int, i: nat): (k: nat)
    requires i < |Owned(rows, owner)|
    ensures k < |rows| && rows[k] == Owned(rows, owner)[i]
  {
    if rows[0].owner != owner then 1 + OwnedIndex(rows[1..], owner, i)
    else if i == 0 then 0
    else 1 + OwnedIndex(rows[1..], owner, i - 1)
  }

  lemma {:induction false} OwnedMembers<D>(rows: seq<Row<D>>, owner: int)
    ensures forall x :: x in Owned(rows, owner) <==> x in rows && x.owner == owner
  {
    if rows != [] {
      OwnedMembers(rows[1..], owner);
      assert rows == [rows[0]] + rows[1..];
    }
  }

  /** SELECT id ... WHERE <foreign key> = `owner`: each identifier is put into an `int`. */
  function OwnedIds<D>(rows: seq<Row<D>>, owner: int): seq<int> {
    if rows == [] then []
    else (if rows[0].owner == owner then [ToInt32(rows[0].id)] else []) + OwnedIds(rows[1..], owner)
  }

  /** One lookup for each listed identifier, in order; the first that finds no row stops
      it and is the error. */
  function FetchAll<D>(rows: seq<Row<D>>, ids: seq<int>): Result<seq<Row<D>>, int> {
    if ids == [] then Success([])
    else
      var n := |ids| - 1;
      var front :- FetchAll(rows, ids[..n]);
      match Fetch(rows, ids[n])
      case None => Failure(ids[n])
      case Some(row) => Success(front + [row])
  }

  // -------------------------------------------------- what makes listing lossless

  ghost predicate UniqueIds<D>(rows: seq<Row<D>>) {
    forall i, j :: 0 <= i < j < |rows| ==> rows[i].id != rows[j].id
  }

  /** The identifiers fit the `int` they are read into. */
  predicate IdsFit<D>(rows: seq<Row<D>>) {
    forall i :: 0 <= i < |rows| ==> FitsInt32(rows[i].id)
  }

  lemma FetchFinds<D>(rows: seq<Row<D>>, i: nat)
    requires i < |rows|
    ensures Fetch(rows, rows[i].id).Some?
    ensures UniqueIds(rows) ==> Fetch(rows, rows[i].id) == Some(rows[i])
  {
    if i > 0 && rows[0].id != rows[i].id {
      FetchFinds(rows[1..], i - 1);
    }
  }

  /** A lookup of several identifiers fails exactly when one of them has no row. */
  lemma {:induction false} FetchAllSucceeds<D>(rows: seq<Row<D>>, ids: seq<int>)
    ensures FetchAll(rows, ids).Success? <==> forall k :: 0 <= k < |ids| ==> Fetch(rows, ids[k]).Some?
  {
    if ids != [] {
      var n := |ids| - 1;
      FetchAllSucceeds(rows, ids[..n]);
      assert forall k :: 0 <= k < n ==> ids[..n][k] == ids[k];
    }
  }

  /** The error is the first identifier that has no row. */
  lemma {:induction false} FetchAllFailsAtFirst<D>(rows: seq<Row<D>>, ids: seq<int>) returns (k: nat)
    requires FetchAll(rows, ids).Failure?
    ensures k < |ids| && FetchAll(rows, ids).error == ids[k] && Fetch(rows, ids[k]).None?
    ensures forall j :: 0 <= j < k ==> Fetch(rows, ids[j]).Some?
  {
    var n := |ids| - 1;
    if FetchAll(rows, ids[..n]).Failure? {
      k := FetchAllFailsAtFirst(rows, ids[..n]);
      assert forall j :: 0 <= j < n ==> ids[..n][j] == ids[j];
    } else {
      k := n;
      FetchAllSucceeds(rows, ids[..n]);
      assert forall j :: 0 <= j < n ==> ids[..n][j] == ids[j];
    }
  }

  lemma {:induction false} OwnedIdsOf<D>(rows: seq<Row<D>>, owner: int)
    ensures |OwnedIds(rows, owner)| == |Owned(rows, owner)|
    ensures forall k :: 0 <= k < |Owned(rows, owner)| ==>
      OwnedIds(rows, owner)[k] == ToInt32(Owned(rows, owner)[k].id)
  {
    if rows != [] {
      OwnedIdsOf(rows[1..], owner);
    }
  }

  /** What a lookup finds has the identifier asked for. */
  lemma FetchedId<D>(rows: seq<Row<D>>, id: int)
    ensures Fetch(rows, id).Some? ==> Fetch(rows, id).value in rows && Fetch(rows, id).value.id == id
  {
    if rows != [] && rows[0].id != id {
      FetchedId(rows[1..], id);
    }
  }

  /** Identifiers are looked up to these rows of the table exactly when they are, in order,
      the identifiers of these rows. */
  lemma FetchesExactly<D>(rows: seq<Row<D>>, ids: seq<int>, found: seq<Row<D>>)
    requires UniqueIds(rows) && forall k :: 0 <= k < |found| ==> found[k] in rows
    ensures FetchAll(rows, ids) == Success(found)
            <==> |ids| == |found| && forall k :: 0 <= k < |ids| ==> ids[k] == found[k].id
  {
    if FetchAll(rows, ids) == Success(found) {
      FetchAllFetches(rows, ids);
      forall k | 0 <= k < |ids|
        ensures ids[k] == found[k].id
      {
        FetchedId(rows, ids[k]);
      }
    }
    if |ids| == |found| && forall k :: 0 <= k < |ids| ==> ids[k] == found[k].id {
      forall k | 0 <= k < |ids|
        ensures Fetch(rows, ids[k]) == Some(found[k])
      {
        assert found[k] in rows;
        var i :| 0 <= i < |rows| && rows[i] == found[k];
        FetchFinds(rows, i);
      }
      FetchAllGives(rows, ids, found);
    }
  }

  /** Listing identifiers and then looking each one up gives back the listed rows themselves
      exactly when their identifiers fit. */
  lemma ListThenFetch<D>(rows: seq<Row<D>>, owner: int)
    requires UniqueIds(rows)
    ensures FetchAll(rows, OwnedIds(rows, owner)) == Success(Owned(rows, owner))
            <==> IdsFit(Owned(rows, owner))
  {
    OwnedIdsOf(rows, owner);
    forall k | 0 <= k < |Owned(rows, owner)|
      ensures Owned(rows, owner)[k] in rows
    {
      assert rows[OwnedIndex(rows, owner, k)] == Owned(rows, owner)[k];
    }
    FetchesExactly(rows, OwnedIds(rows, owner), Owned(rows, owner));
  }

  lemma {:induction false} FetchAllFetches<D>(rows: seq<Row<D>>, ids: seq<int>)
    requires FetchAll(rows, ids).Success?
    ensures var found := FetchAll(rows, ids).value;
      |found| == |ids| && forall k :: 0 <= k < |ids| ==> Fetch(rows, ids[k]) == Some(found[k])
  {
    if ids != [] {
      var n := |ids| - 1;
      FetchAllFetches(rows, ids[..n]);
      assert forall k :: 0 <= k < n ==> ids[..n][k] == ids[k];
    }
  }

  lemma {:induction false} FetchAllGives<D>(rows: seq<Row<D>>, ids: seq<int>, found: seq<Row<D>>)
    requires |found| == |ids|
    requires forall k :: 0 <= k < |ids| ==> Fetch(rows, ids[k]) == Some(found[k])
    ensures FetchAll(rows, ids) == Success(found)
  {
    if ids == [] {
    } else {
      var n := |ids| - 1;
      FetchAllGives(rows, ids[..n], found[..n]);
      assert found == found[..n] + [found[n]];
    }
  }

  lemma ListedArePresent<D>(rows: seq<Row<D>>, owner: int)
    requires IdsFit(Owned(rows, owner))
    ensures FetchAll(rows, OwnedIds(rows, owner)).Success?
  {
    OwnedIdsOf(rows, owner);
    var owned := Owned(rows, owner);
    forall k | 0 <= k < |owned|
      ensures Fetch(rows, OwnedIds(rows, owner)[k]).Some?
    {
      FetchFinds(rows, OwnedIndex(rows, owner, k));
    }
    FetchAllSucceeds(rows, OwnedIds(rows, owner));
  }

  // ------------------------------------------------------------------- texts

  /** What survives of a text when it passes through a C string. */
  function CStr(s: string): (r: string)
    ensures '\0' !in r
    ensures r <= s && (r != s ==> s[|r|] == '\0')
  {
    if s == [] || s[0] == '\0' then [] else [s[0]] + CStr(s[1..])
  }

  lemma CStrFixed(s: string)
    requires '\0' !in s
    ensures CStr(s) == s
  {
  }
}
