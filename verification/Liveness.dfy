/** Which solutions get their turn: which can be judged at all, which can be kept waiting for
    any number of rounds, and when the whole queue can stand still. */
module Liveness {
  import opened CInts
  import opened Tables
  import opened Loading
  import opened Join
  import opened Judging
  import opened Queue
  import opened Safety
  import opened Progress

  // ------------------------------------------------------- who can be judged at all

  ghost predicate CanBeJudged(s: State, p: Int64) {
    exists es :: CanRun(s, es) && p !in Pending(After(s, es).tables)
  }

  ghost predicate CanBeJudgedAlone(s: State, p: Int64) {
    exists es :: CanRun(s, es) && Quiet(es) && p !in Pending(After(s, es).tables)
  }

  lemma {:induction false} QuietSavesLoad(s: State, es: seq<Event>)
    requires CanRun(s, es) && Quiet(es)
    ensures forall x :: Loadable(After(s, es).tables, x) <==> Loadable(s.tables, x)
    ensures forall x :: Saved(Saves(s, es), x) ==> Loadable(s.tables, x)
  {
    hide LoadSolution, NextOutcome;
    if es != [] {
      var n := |es| - 1;
      assert forall k :: 0 <= k < n ==> es[..n][k] == es[k];
      QuietSavesLoad(s, es[..n]);
      var before, e := After(s, es[..n]), es[n];
      if e.Judged? {
        var id, text := before.todo[0], NextOutcome(before, e.j).result;
        LoadedId(before.tables, id);
        assert Loadable(before.tables, id);
        SavedAppend(Saves(s, es[..n]), id, text);
        forall x
          ensures Loadable(SaveResult(before.tables, id, text), x) <==> Loadable(before.tables, x)
        {
          SaveKeepsLoading(before.tables, id, text, x);
        }
      }
      assert !e.Judged? || !e.saved ==> Saves(s, es) == Saves(s, es[..n]);
    }
  }

  /** Without outside changes a pending solution can be judged exactly when its identifier
      fits an `int` and it can be constructed. */
  lemma CanBeJudgedAloneExactlyWhen(s: State, p: Int64)
    requires s.running && s.todo == [] && p in Pending(s.tables)
    ensures CanBeJudgedAlone(s, p) <==> FitsInt32(p) && Loadable(s.tables, p)
  {
    hide LoadSolution;
    if FitsInt32(p) && Loadable(s.tables, p) {
      var es := JudgeFirst(s, p);
    } else {
      forall es | CanRun(s, es) && Quiet(es)
        ensures p in Pending(After(s, es).tables)
      {
        RunsAttributed(s, es);
        QuietSavesLoad(s, es);
        SavesFit(s, es);
      }
    }
  }

  lemma JudgeFirst(s: State, p: Int64) returns (es: seq<Event>)
    requires s.running && s.todo == [] && p in Pending(s.tables)
    requires FitsInt32(p) && Loadable(s.tables, p)
    ensures CanRun(s, es) && Quiet(es) && p !in Pending(After(s, es).tables)
  {
    hide LoadSolution;
    var ids := SelectionWith(s.tables, p);
    var poll, judged := Poll(ids), Judged(JudgeRun(Untouched, map[], true, true, true), true);
    var polled := Step(s, poll);
    assert polled.todo[0] == p;
    TwoSteps(s, poll, judged);
    LoadedId(polled.tables, p);
    SaveIsLocal(polled.tables, p, NextOutcome(polled, judged.j).result);
    es := [poll, judged];
  }

  /** With others adding what is missing, exactly when its identifier fits. */
  lemma CanBeJudgedExactlyWhen(s: State, p: Int64)
    requires s.running && s.todo == [] && p in Pending(s.tables)
    ensures CanBeJudged(s, p) <==> FitsInt32(p)
  {
    hide LoadSolution;
    if FitsInt32(p) {
      var t := OthersMakeLoadable(s.tables, p);
      var edit := Outside(t);
      RunAppend(s, [], edit);
      assert [] + [edit] == [edit];
      var more := JudgeFirst(Step(s, edit), p);
      RunConcat(s, [edit], more);
    } else {
      forall es | CanRun(s, es)
        ensures p in Pending(After(s, es).tables)
      {
        UnfitIsNeverJudged(s, es, p);
      }
    }
  }

  /** A queue of one solution, with its task and language, that is never judged. */
  lemma NeverJudged() returns (s: State, p: Int64)
    ensures s.running && s.todo == [] && Pending(s.tables) == {p} == s.tables.solutions.Keys
    ensures RowsPresent(s.tables, p) && ListedRowsExist(s.tables, p, ToInt32(s.tables.solutions[p].tid))
    ensures forall es :: CanRun(s, es) ==> p in Pending(After(s, es).tables)
  {
    p := 0x1_0000_0001;
    var t := Tables(
      map[p := SolutionRow(0, 2, 3, 0, STATUS_NOT_CHECKED, 0, "", "", "", "")],
      map[2 := TaskRow(0, 0, 0, "", "", "", "", "")],
      map[3 := LangRow("", "", "", "")],
      [], [], []);
    s := State(t, map[], map[], "", [], true);
    forall es | CanRun(s, es)
      ensures p in Pending(After(s, es).tables)
    {
      UnfitIsNeverJudged(s, es, p);
    }
  }

  // ------------------------------------------------------------- who can be starved

  /** The solutions that can be selected again and again without `c` being judged. */
  ghost function Others(t: Tables, c: Int64): set<Int64> {
    set p | p in Bad(t) && ToInt32(p) != c
  }

  /** Some fault-free run of `n` complete rounds leaves `c` unjudged. */
  ghost predicate CanWait(s: State, c: Int64, n: nat) {
    exists end :: Reaches(s, end, n) && end.todo == [] && c in Good(end.tables)
  }

  /** `c` is judged or selected, or each round so far has taken its quota of other good ones. */
  ghost predicate Waits(first: State, now: State, c: Int64, n: nat) {
    && Bad(now.tables) == Bad(first.tables)
    && (c in Good(now.tables) && c !in now.todo ==>
        Unselected(now) <= Left(|Good(first.tables)|, RoundQuota(|Others(first.tables, c)|), n))
  }

  /** A poll that leaves `c` out selects many good solutions. */
  lemma PollWithout(s: State, ids: seq<Int64>, c: Int64)
    requires Enabled(s, Poll(ids)) && c in Good(s.tables) && c !in ToInts(ids)
    ensures |GoodTodo(Step(s, Poll(ids)))| >= RoundQuota(|Others(s.tables, c)|)
  {
    hide LoadSolution, Good;
    forall i | 0 <= i < |ids|
      ensures ids[i] in Good(s.tables) || ids[i] in Others(s.tables, c)
    {
      assert ids[i] in SetOf(ids);
      assert ToInts(ids)[i] != c;
    }
    PollSelectsAllBut(s, ids, Others(s.tables, c));
    if |ids| < LIMIT {
      DistinctSize(ids);
      SubsetCard(SetOf(ids), Pending(s.tables));
      GoodIsPending(s.tables, c);
    }
  }

  lemma GoodIsPending(t: Tables, c: Int64)
    requires c in Good(t)
    ensures c in Pending(t) && FitsInt32(c) && Loadable(t, c)
  {
  }

  lemma StepWaits(first: State, s: State, c: Int64, n: nat, e: Event)
    requires Waits(first, s, c, n) && Enabled(s, e) && FaultFree(s, e)
    ensures Waits(first, Step(s, e), c, if e.Poll? then n + 1 else n)
  {
    hide LoadSolution, Good, Bad;
    var now := Step(s, e);
    StepDrains(s, e);
    if c in Good(now.tables) && c !in now.todo {
      GoodIsPending(s.tables, c);
      match e {
        case Poll(ids) =>
          PollWithout(s, ids, c);
          NothingSelected(s);
          LeftStep(|Good(first.tables)|, RoundQuota(|Others(first.tables, c)|), n, Unselected(s));
        case LoadThrows => TodoTail(s.todo);
        case Judged(j, _) =>
          JudgedKeepsUnselected(s, j);
          TodoTail(s.todo);
        case _ =>
      }
    }
  }

  lemma {:induction false} RunWaits(s: State, es: seq<Event>, c: Int64)
    requires s.todo == [] && FaultFreeRun(s, es)
    ensures Waits(s, After(s, es), c, Polls(es)) && Good(After(s, es).tables) <= Good(s.tables)
  {
    hide LoadSolution, Good, Bad, Enabled, Step, FaultFree, Waits;
    if es == [] {
      WaitsAtFirst(s, c);
    } else {
      var n := |es| - 1;
      RunWaits(s, es[..n], c);
      StepWaits(s, After(s, es[..n]), c, Polls(es[..n]), es[n]);
      StepDrains(After(s, es[..n]), es[n]);
    }
  }

  lemma WaitsAtFirst(s: State, c: Int64)
    requires s.todo == []
    ensures Waits(s, s, c, 0)
  {
    NothingSelected(s);
  }

  /** With o other solutions that need not give way, `c` is judged within n rounds when
      g <= n * max(0, 10 - o). */
  lemma JudgedWithin(s: State, c: Int64, n: nat)
    requires s.todo == [] && |Good(s.tables)| <= n * RoundQuota(|Others(s.tables, c)|)
    ensures !CanWait(s, c, n)
  {
    hide LoadSolution, Good, Bad, Others, After, CanRun, Polls, Left, RoundQuota;
    if CanWait(s, c, n) {
      var end :| Reaches(s, end, n) && end.todo == [] && c in Good(end.tables);
      var es :| FaultFreeRun(s, es) && Polls(es) == n && After(s, es) == end;
      RunWaits(s, es, c);
      LeftIs(|Good(s.tables)|, RoundQuota(|Others(s.tables, c)|), n);
      NothingSelected(end);
    }
  }

  /** Ten of the others can be selected in every round. */
  lemma {:induction false} KeptWaiting(s: State, c: Int64, n: nat) returns (end: State)
    requires s.running && s.todo == [] && c in Good(s.tables) && |Others(s.tables, c)| >= LIMIT
    ensures Reaches(s, end, n) && end.running && end.todo == []
    ensures c in Good(end.tables) && Bad(end.tables) == Bad(s.tables)
  {
    hide LoadSolution, Good, Bad;
    if n == 0 {
      ReachesItself(s);
      end := s;
    } else {
      var now := KeptWaiting(s, c, n - 1);
      var ids := PollOthers(now, c);
      ReachesNext(s, now, n - 1, Poll(ids));
      end := FinishRound(s, Step(now, Poll(ids)), n);
    }
  }

  lemma PollOthers(s: State, c: Int64) returns (ids: seq<Int64>)
    requires s.running && s.todo == [] && |Others(s.tables, c)| >= LIMIT
    ensures Enabled(s, Poll(ids)) && c !in ToInts(ids)
  {
    hide LoadSolution, Good;
    ids := SomeOf(Others(s.tables, c), LIMIT);
    SubsetCard(Others(s.tables, c), Pending(s.tables));
    forall i | 0 <= i < |ids|
      ensures ToInts(ids)[i] != c && ids[i] in Pending(s.tables)
    {
      assert ids[i] in SetOf(ids);
    }
  }

  /** A good solution can be kept waiting for any number of fault-free rounds exactly when
      ten solutions that cannot be judged have identifiers that are not cut to its own. */
  lemma StarvableExactlyWhen(s: State, c: Int64)
    requires s.running && s.todo == [] && c in Good(s.tables)
    ensures (forall n: nat :: CanWait(s, c, n)) <==> |Others(s.tables, c)| >= LIMIT
  {
    hide LoadSolution, Good, Bad, Reaches;
    if |Others(s.tables, c)| >= LIMIT {
      forall n: nat
        ensures CanWait(s, c, n)
      {
        var end := KeptWaiting(s, c, n);
      }
    } else {
      var n := |Good(s.tables)|;
      AtLeastOnce(n, RoundQuota(|Others(s.tables, c)|));
      JudgedWithin(s, c, n);
    }
  }

  lemma AtLeastOnce(n: nat, q: nat)
    requires q >= 1
    ensures n <= n * q
  {
  }

  /** All that can be judged is judged within some number of fault-free rounds exactly when
      none of it can be starved: always when fewer than ten pending solutions cannot be
      judged. */
  lemma DrainsAtAllExactlyWhen(s: State)
    requires s.running && s.todo == []
    ensures (exists n: nat :: DrainedAfter(s, n))
            <==> forall c :: c in Good(s.tables) ==> |Others(s.tables, c)| < LIMIT
    ensures |Bad(s.tables)| < LIMIT ==> exists n: nat :: DrainedAfter(s, n)
  {
    hide LoadSolution, Good, Reaches, RoundQuota;
    if exists n: nat :: DrainedAfter(s, n) {
      var n: nat :| DrainedAfter(s, n);
      forall c | c in Good(s.tables)
        ensures |Others(s.tables, c)| < LIMIT
      {
        if |Others(s.tables, c)| >= LIMIT {
          var end := KeptWaiting(s, c, n);
        }
      }
    }
    if forall c :: c in Good(s.tables) ==> |Others(s.tables, c)| < LIMIT {
      DrainedWhenNoneStarves(s);
    }
    forall c
      ensures |Others(s.tables, c)| <= |Bad(s.tables)|
    {
      SubsetCard(Others(s.tables, c), Bad(s.tables));
    }
  }

  lemma DrainedWhenNoneStarves(s: State)
    requires s.todo == [] && forall c :: c in Good(s.tables) ==> |Others(s.tables, c)| < LIMIT
    ensures DrainedAfter(s, |Good(s.tables)|)
  {
    hide LoadSolution, Good;
    var n := |Good(s.tables)|;
    forall end | Reaches(s, end, n) && end.todo == []
      ensures Good(end.tables) == {}
    {
      var es :| FaultFreeRun(s, es) && Polls(es) == n && After(s, es) == end;
      forall c
        ensures c !in Good(end.tables)
      {
        RunWaits(s, es, c);
        if c in Good(end.tables) {
          AtLeastOnce(n, RoundQuota(|Others(s.tables, c)|));
          JudgedWithin(s, c, n);
        }
      }
    }
  }

  /** Being cut to the last good solution's identifier only helps it: it is judged in the
      first round, however many such solutions are pending. */
  lemma CutsToTheLastGood(s: State, c: Int64)
    requires s.todo == [] && Good(s.tables) == {c} && Others(s.tables, c) == {}
    ensures DrainedAfter(s, 1)
  {
    hide LoadSolution, Good, Others;
    DrainedWhenNoneStarves(s);
  }

  lemma TenCutToOne() returns (cut: set<Int64>)
    ensures |cut| == 10 && forall p :: p in cut ==> ToInt32(p) == 1 && !FitsInt32(p)
  {
    cut := {0x1_0000_0001, 0x2_0000_0001, 0x3_0000_0001, 0x4_0000_0001, 0x5_0000_0001,
            0x6_0000_0001, 0x7_0000_0001, 0x8_0000_0001, 0x9_0000_0001, 0xA_0000_0001};
  }

  lemma OneIsGood(t: Tables, cut: set<Int64>)
    requires Pending(t) == cut + {1} && Loadable(t, 1)
    requires forall p :: p in cut ==> ToInt32(p) == 1 && !FitsInt32(p)
    ensures Good(t) == {1} && Bad(t) == cut && Others(t, 1) == {}
  {
    hide LoadSolution, ToInt32;
  }

  /** So g <= n * max(0, 10 - b) is not necessary without a condition on cut identifiers:
      here g is 1 and b is 10, and one round is enough. */
  lemma CutsCanHelp() returns (s: State)
    ensures s.running && s.todo == [] && |Good(s.tables)| == 1 && |Bad(s.tables)| == 10
    ensures DrainedAfter(s, 1) && !(|Good(s.tables)| <= 1 * RoundQuota(|Bad(s.tables)|))
  {
    hide Good, Bad, Others, DrainedAfter;
    var cut := TenCutToOne();
    var row := SolutionRow(0, 2, 3, 0, STATUS_NOT_CHECKED, 0, "", "", "", "");
    var t := Tables(
      map id: Int64 | id in cut + {1} :: row,
      map[2 := TaskRow(0, 0, 0, "", "", "", "", "")],
      map[3 := LangRow("", "", "", "")],
      [], [], []);
    s := State(t, map[], map[], "", [], true);
    assert Loadable(t, 1);
    OneIsGood(t, cut);
    CutsToTheLastGood(s, 1);
  }

  // ------------------------------------------------------------- standing still

  /** The pending solutions that are skipped whenever they are selected. */
  ghost function Dead(t: Tables): set<Int64> {
    set p | p in Pending(t) && !Loadable(t, ToInt32(p))
  }

  /** A fault-free run with `n` polls leads from `s` to `now` and saves nothing. */
  ghost predicate Idles(s: State, now: State, n: nat) {
    exists es :: FaultFreeRun(s, es) && Polls(es) == n && After(s, es) == now && Saves(s, es) == []
  }

  /** Some fault-free run of `n` complete rounds saves nothing. */
  ghost predicate CanIdle(s: State, n: nat) {
    exists end :: Idles(s, end, n) && end.todo == []
  }

  /** Nothing has been saved, and if there was a poll, either dead solutions can fill one or
      a solution is still selected that will be judged. */
  ghost predicate Idled(first: State, now: State, n: nat) {
    && now.tables == first.tables
    && (n > 0 ==>
        || |Dead(first.tables)| >= Min(LIMIT, |Pending(first.tables)|)
        || exists i :: 0 <= i < |now.todo| && Loadable(now.tables, now.todo[i]))
  }

  lemma StepIdles(first: State, s: State, n: nat, e: Event)
    requires Idled(first, s, n) && Enabled(s, e) && FaultFree(s, e) && SavesOf(s, e) == []
    ensures Idled(first, Step(s, e), if e.Poll? then n + 1 else n)
  {
    hide LoadSolution;
    match e {
      case Poll(ids) =>
        if forall i :: 0 <= i < |ids| ==> !Loadable(s.tables, ToInts(ids)[i]) {
          forall p | p in SetOf(ids)
            ensures p in Dead(s.tables)
          {
            var i :| 0 <= i < |ids| && ids[i] == p;
            assert ToInts(ids)[i] == ToInt32(p);
          }
          DistinctSize(ids);
          SubsetCard(SetOf(ids), Dead(s.tables));
        }
      case LoadThrows =>
        if n > 0 && |Dead(first.tables)| < Min(LIMIT, |Pending(first.tables)|) {
          var i :| 0 <= i < |s.todo| && Loadable(s.tables, s.todo[i]);
          assert s.todo[1..][i - 1] == s.todo[i];
        }
      case _ =>
    }
  }

  lemma {:induction false} RunIdles(s: State, es: seq<Event>)
    requires FaultFreeRun(s, es) && Saves(s, es) == []
    ensures Idled(s, After(s, es), Polls(es))
  {
    hide LoadSolution, Enabled, Step, FaultFree, SavesOf, Idled;
    if es == [] {
      assert Idled(s, s, 0) by { IdledAtFirst(s); }
    } else {
      var n := |es| - 1;
      RunIdles(s, es[..n]);
      StepIdles(s, After(s, es[..n]), Polls(es[..n]), es[n]);
    }
  }

  lemma IdledAtFirst(s: State)
    ensures Idled(s, s, 0)
  {
  }

  lemma IdlesNext(s: State, now: State, n: nat, e: Event)
    requires Idles(s, now, n) && Enabled(now, e) && FaultFree(now, e) && SavesOf(now, e) == []
    ensures Idles(s, Step(now, e), if e.Poll? then n + 1 else n)
  {
    hide LoadSolution, Step, Enabled, FaultFree, SavesOf;
    var es :| FaultFreeRun(s, es) && Polls(es) == n && After(s, es) == now && Saves(s, es) == [];
    RunAppend(s, es, e);
    SavesAppend(s, es, e);
    FaultFreeAppend(s, es, e);
    assert (es + [e])[..|es|] == es;
  }

  /** A run that ends where it began, in `n` rounds that skip dead solutions only. */
  lemma {:induction false} StandStill(s: State, n: nat)
    requires s.running && s.todo == [] && |Dead(s.tables)| >= Min(LIMIT, |Pending(s.tables)|)
    ensures Idles(s, s, n)
  {
    hide LoadSolution;
    if n == 0 {
      assert FaultFreeRun(s, []) && Polls([]) == 0 && After(s, []) == s && Saves(s, []) == [];
    } else {
      StandStill(s, n - 1);
      var ids := PollDead(s);
      IdlesNext(s, s, n - 1, Poll(ids));
      SkipAll(s, Step(s, Poll(ids)), n);
    }
  }

  lemma PollDead(s: State) returns (ids: seq<Int64>)
    requires s.running && s.todo == [] && |Dead(s.tables)| >= Min(LIMIT, |Pending(s.tables)|)
    ensures Enabled(s, Poll(ids))
    ensures forall i :: 0 <= i < |ids| ==> !Loadable(s.tables, ToInts(ids)[i])
  {
    hide LoadSolution;
    ids := SomeOf(Dead(s.tables), Min(LIMIT, |Pending(s.tables)|));
    forall i | 0 <= i < |ids|
      ensures ids[i] in Dead(s.tables)
    {
      assert ids[i] in SetOf(ids);
    }
  }

  lemma {:induction false} SkipAll(s: State, now: State, n: nat)
    requires Idles(s, now, n) && now.running
    requires forall i :: 0 <= i < |now.todo| ==> !Loadable(now.tables, now.todo[i])
    ensures Idles(s, now.(todo := []), n)
    decreases |now.todo|
  {
    hide LoadSolution, Idles;
    if now.todo == [] {
      assert now.(todo := []) == now;
    } else {
      IdlesNext(s, now, n, LoadThrows);
      var next := Step(now, LoadThrows);
      SkipAll(s, next, n);
      assert next.(todo := []) == now.(todo := []);
    }
  }

  /** Fault-free rounds without a single save are possible exactly when dead solutions can
      fill a whole answer of the poll; any number of rounds can then pass and leave the
      state as it was. */
  lemma CanIdleExactlyWhen(s: State, n: nat)
    requires s.running && s.todo == [] && n > 0
    ensures CanIdle(s, n) <==> |Dead(s.tables)| >= Min(LIMIT, |Pending(s.tables)|)
    ensures CanIdle(s, n) ==> forall m: nat :: Idles(s, s, m)
  {
    hide LoadSolution, Dead, Pending;
    if CanIdle(s, n) {
      var end :| Idles(s, end, n) && end.todo == [];
      var es :| FaultFreeRun(s, es) && Polls(es) == n && After(s, es) == end && Saves(s, es) == [];
      RunIdles(s, es);
    }
    if |Dead(s.tables)| >= Min(LIMIT, |Pending(s.tables)|) {
      forall m: nat
        ensures Idles(s, s, m)
      {
        StandStill(s, m);
      }
    }
  }

  /** Those that cannot be judged are dead, when no pending identifier is cut to that of a
      solution that can be constructed; so ten of them then stop the queue. */
  lemma DeadAreBad(s: State)
    requires CutsAreUnloadable(s.tables)
    ensures Dead(s.tables) == Bad(s.tables)
    ensures s.running && s.todo == [] && |Bad(s.tables)| >= LIMIT ==> forall n: nat :: Idles(s, s, n)
  {
    hide LoadSolution, Idles;
    assert Dead(s.tables) == Bad(s.tables);
    if s.running && s.todo == [] && |Bad(s.tables)| >= LIMIT {
      forall n: nat
        ensures Idles(s, s, n)
      {
        StandStill(s, n);
      }
    }
  }
}
