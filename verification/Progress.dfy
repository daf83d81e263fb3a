/** How fast the queue drains. A solution that cannot be judged, because its construction
    always throws or because its identifier is cut, stays pending and can be selected again
    in every round; up to ten of them use up a round. */
module Progress {
  import opened CInts
  import opened Tables
  import opened Loading
  import opened Judging
  import opened Queue
  import opened Safety

  /** Pending solutions that can be judged: they can be constructed and are found by their
      identifier put into an `int`. */
  ghost function Good(t: Tables): set<Int64> {
    set id | id in Pending(t) && FitsInt32(id) && Loadable(t, id)
  }

  /** The other pending solutions. */
  ghost function Bad(t: Tables): set<Int64> {
    Pending(t) - Good(t)
  }

  /** The solutions that will be judged when what is selected is attended to. */
  ghost function GoodTodo(s: State): set<Int64> {
    set id | id in Good(s.tables) && id in s.todo
  }

  /** No pending identifier is cut to that of a solution that can be judged. */
  ghost predicate CutsMissGood(t: Tables) {
    forall p :: p in Pending(t) && !FitsInt32(p) ==> ToInt32(p) !in Good(t)
  }

  /** Solutions a round gets through for certain. */
  function RoundQuota(bad: nat): nat {
    Max(0, LIMIT - bad)
  }

  /** Nothing arrives, queries work, and results are stored: a construction throws only
      when rows are missing. */
  ghost predicate FaultFree(s: State, e: Event)
    requires Enabled(s, e)
  {
    match e
    case Poll(_) => true
    case LoadThrows => !Loadable(s.tables, s.todo[0])
    case Judged(_, saved) => saved
    case PollThrows => false
    case Outside(_) => false
  }

  ghost predicate FaultFreeRun(s: State, es: seq<Event>)
    decreases |es|
  {
    CanRun(s, es) &&
    (es != [] ==>
      FaultFreeRun(s, es[..|es| - 1]) && FaultFree(After(s, es[..|es| - 1]), es[|es| - 1]))
  }

  lemma FaultFreeAppend(s: State, es: seq<Event>, e: Event)
    requires FaultFreeRun(s, es) && Enabled(After(s, es), e) && FaultFree(After(s, es), e)
    ensures FaultFreeRun(s, es + [e])
  {
    hide LoadSolution, Step, Enabled, FaultFree;
    RunAppend(s, es, e);
    assert (es + [e])[..|es|] == es;
  }

  lemma {:induction false} FaultFreeConcat(s: State, es: seq<Event>, more: seq<Event>)
    requires FaultFreeRun(s, es) && FaultFreeRun(After(s, es), more)
    ensures FaultFreeRun(s, es + more)
  {
    hide LoadSolution, Step, Enabled, FaultFree;
    if more == [] {
      assert es + more == es;
    } else {
      var m := |more| - 1;
      var front, last := more[..m], more[m];
      assert more == front + [last];
      FaultFreeConcat(s, es, front);
      RunConcat(s, es, front);
      FaultFreeAppend(s, es + front, last);
      assert es + more == es + front + [last];
    }
  }

  // ---------------------------------------------------------------- set counting

  lemma SubsetCard<T>(a: set<T>, b: set<T>)
    requires a <= b
    ensures |a| <= |b|
    ensures |a| == |b| ==> a == b
    ensures |b - a| == |b| - |a|
  {
    assert b == a + (b - a);
  }

  lemma PendingSplits(t: Tables)
    ensures |Pending(t)| == |Good(t)| + |Bad(t)|
  {
    SubsetCard(Good(t), Pending(t));
  }

  // ------------------------------------------------------------ one event's effect

  /** A poll selects at least as many good solutions as its quota, or all. */
  lemma PollSelectsQuota(s: State, ids: seq<Int64>)
    requires Enabled(s, Poll(ids))
    ensures |GoodTodo(Step(s, Poll(ids)))| >= Min(|Good(s.tables)|, RoundQuota(|Bad(s.tables)|))
  {
    hide LoadSolution;
    PendingSplits(s.tables);
    PollSelectsAllBut(s, ids, Bad(s.tables));
  }

  /** It selects at least as many as it has rows besides those of `bad`, if all other
      selected ones are good. */
  lemma PollSelectsAllBut(s: State, ids: seq<Int64>, bad: set<Int64>)
    requires Enabled(s, Poll(ids)) && forall id :: id in ids && id !in bad ==> id in Good(s.tables)
    ensures |GoodTodo(Step(s, Poll(ids)))| >= |ids| - |bad|
  {
    hide LoadSolution;
    var s', picked := Step(s, Poll(ids)), SetOf(ids);
    DistinctSize(ids);
    SubsetCard(picked * bad, bad);
    SubsetCard(picked * bad, picked);
    forall id | id in picked - picked * bad
      ensures id in GoodTodo(s')
    {
      var i :| 0 <= i < |ids| && ids[i] == id;
      assert ToInts(ids)[i] == id;
    }
    SubsetCard(picked - picked * bad, GoodTodo(s'));
  }

  lemma SaveKeepsSets(t: Tables, id: Int32, result: string)
    requires Loadable(t, id)
    ensures var t' := SaveResult(t, id, result);
      Good(t') == Good(t) - {id} && Bad(t') == Bad(t)
  {
    hide LoadSolution;
    var t' := SaveResult(t, id, result);
    SaveIsLocal(t, id, result);
    forall x
      ensures Loadable(t', x) <==> Loadable(t, x)
    {
      SaveKeepsLoading(t, id, result, x);
    }
    assert Pending(t') == Pending(t) - {id};
  }

  /** How many good solutions are not selected. */
  ghost function Unselected(s: State): (n: int)
    ensures n == |Good(s.tables) - GoodTodo(s)| >= 0
  {
    SubsetCard(GoodTodo(s), Good(s.tables));
    |Good(s.tables)| - |GoodTodo(s)|
  }

  lemma TodoTail(todo: seq<int>)
    requires todo != []
    ensures forall x :: x in todo <==> x == todo[0] || x in todo[1..]
  {
    assert todo == [todo[0]] + todo[1..];
  }

  /** Attending to the next solution takes it, and no other, from what is good. */
  lemma JudgedKeepsUnselected(s: State, j: JudgeRun)
    requires Enabled(s, Judged(j, true))
    ensures var s' := Step(s, Judged(j, true));
      && Good(s'.tables) == Good(s.tables) - {s.todo[0]} && Bad(s'.tables) == Bad(s.tables)
      && Good(s'.tables) - GoodTodo(s') == Good(s.tables) - GoodTodo(s)
  {
    hide LoadSolution;
    LoadedId(s.tables, s.todo[0]);
    SaveKeepsSets(s.tables, s.todo[0], NextOutcome(s, j).result);
    TodoTail(s.todo);
  }

  lemma SkipKeepsUnselected(s: State)
    requires Enabled(s, LoadThrows) && !Loadable(s.tables, s.todo[0])
    ensures GoodTodo(Step(s, LoadThrows)) == GoodTodo(s)
  {
    hide LoadSolution;
    TodoTail(s.todo);
  }

  lemma StepDrains(s: State, e: Event)
    requires Enabled(s, e) && FaultFree(s, e)
    ensures Bad(Step(s, e).tables) == Bad(s.tables) && Good(Step(s, e).tables) <= Good(s.tables)
    ensures Unselected(Step(s, e)) <=
      if e.Poll? then Max(0, Unselected(s) - RoundQuota(|Bad(s.tables)|)) else Unselected(s)
  {
    hide LoadSolution;
    match e {
      case Poll(ids) =>
        PollSelectsQuota(s, ids);
        NothingSelected(s);
      case LoadThrows => SkipKeepsUnselected(s);
      case Judged(j, _) => JudgedKeepsUnselected(s, j);
      case _ =>
    }
  }

  // ------------------------------------------------------------------- the bound

  /** What is left of `g` after `n` rounds of `c` each. */
  function Left(g: nat, c: nat, n: nat): nat {
    if n == 0 then g else Max(0, Left(g, c, n - 1) - c)
  }

  lemma {:induction false} LeftIs(g: nat, c: nat, n: nat)
    ensures Left(g, c, n) == Max(0, g - n * c)
  {
    if n > 0 {
      LeftIs(g, c, n - 1);
      assert n * c == (n - 1) * c + c;
    }
  }

  /** After `n` rounds without faults, however the server picks, at most
      g - n * max(0, 10 - b) of the g good solutions are left outside the round in progress;
      the b others are all still pending. */
  ghost predicate Progressed(first: State, now: State, n: nat) {
    && Bad(now.tables) == Bad(first.tables)
    && Unselected(now) <= Left(|Good(first.tables)|, RoundQuota(|Bad(first.tables)|), n)
  }

  lemma StepProgresses(first: State, s: State, n: nat, e: Event)
    requires Progressed(first, s, n)
    requires Enabled(s, e) && FaultFree(s, e)
    ensures Progressed(first, Step(s, e), if e.Poll? then n + 1 else n)
  {
    hide LoadSolution;
    StepDrains(s, e);
    var now := Step(s, e);
    var g, c := |Good(first.tables)|, RoundQuota(|Bad(first.tables)|);
    assert Bad(now.tables) == Bad(first.tables);
    LeftStep(g, c, n, Unselected(s));
    assert Unselected(now) <= if e.Poll? then Max(0, Unselected(s) - c) else Unselected(s);
  }

  lemma LeftStep(g: nat, c: nat, n: nat, u: int)
    requires u <= Left(g, c, n)
    ensures Max(0, u - c) <= Left(g, c, n + 1)
  {
  }

  lemma NothingSelected(s: State)
    requires s.todo == []
    ensures Unselected(s) == |Good(s.tables)|
  {
    assert GoodTodo(s) == {};
  }

  lemma ProgressedAtFirst(s: State)
    requires s.todo == []
    ensures Progressed(s, s, 0)
  {
    NothingSelected(s);
  }

  lemma {:induction false} Drains(s: State, es: seq<Event>)
    requires s.todo == [] && FaultFreeRun(s, es)
    ensures Progressed(s, After(s, es), Polls(es))
  {
    hide LoadSolution, Good, Bad, Enabled, Step, FaultFree, Progressed;
    if es == [] {
      ProgressedAtFirst(s);
    } else {
      var n := |es| - 1;
      Drains(s, es[..n]);
      StepProgresses(s, After(s, es[..n]), Polls(es[..n]), es[n]);
    }
  }

  lemma DrainedAtEnd(s: State, es: seq<Event>)
    requires s.todo == [] && FaultFreeRun(s, es) && After(s, es).todo == []
    ensures |Good(After(s, es).tables)| <= Left(|Good(s.tables)|, RoundQuota(|Bad(s.tables)|), Polls(es))
  {
    hide LoadSolution;
    Drains(s, es);
    NothingSelected(After(s, es));
  }

  // ------------------------------------------------- a run that is no faster

  lemma {:induction false} SubsetOfSize<T>(a: set<T>, n: nat) returns (b: set<T>)
    requires n <= |a|
    ensures b <= a && |b| == n
  {
    if n == 0 {
      b := {};
    } else {
      var x :| x in a;
      b := SubsetOfSize(a - {x}, n - 1);
      b := b + {x};
    }
  }

  lemma {:induction false} Listed<T>(a: set<T>) returns (r: seq<T>)
    ensures Distinct(r) && SetOf(r) == a && |r| == |a|
  {
    if a == {} {
      r := [];
    } else {
      var x :| x in a;
      var rest := Listed(a - {x});
      r := rest + [x];
      assert x !in SetOf(rest);
      forall y
        ensures y in SetOf(r) <==> y in a
      {
        assert y in r <==> y in rest || y == x;
        assert y in rest <==> y in SetOf(rest);
      }
    }
  }

  /** The server may answer with as many bad solutions as fit. */
  lemma SlowPoll(s: State) returns (ids: seq<Int64>)
    requires CutsMissGood(s.tables) && s.running && s.todo == []
    ensures Enabled(s, Poll(ids))
    ensures |GoodTodo(Step(s, Poll(ids)))| == Min(|Good(s.tables)|, RoundQuota(|Bad(s.tables)|))
  {
    hide LoadSolution, Good;
    var g, b := |Good(s.tables)|, |Bad(s.tables)|;
    PendingSplits(s.tables);
    var bad := SubsetOfSize(Bad(s.tables), Min(b, LIMIT));
    var good := SubsetOfSize(Good(s.tables), Min(g, RoundQuota(b)));
    assert bad !! good;
    ids := Listed(bad + good);
    assert |bad + good| == |bad| + |good|;
    GoodAmong(s, ids, bad, good);
  }

  /** Of an answer, the solutions that will be judged are its good ones. */
  lemma GoodAmong(s: State, ids: seq<Int64>, bad: set<Int64>, good: set<Int64>)
    requires CutsMissGood(s.tables) && Enabled(s, Poll(ids)) && SetOf(ids) == bad + good
    requires bad <= Bad(s.tables) && good <= Good(s.tables)
    ensures GoodTodo(Step(s, Poll(ids))) == good
  {
    hide LoadSolution;
    var s' := Step(s, Poll(ids));
    forall id | id in GoodTodo(s')
      ensures id in good
    {
      var i :| 0 <= i < |ids| && ToInts(ids)[i] == id;
      assert ids[i] in SetOf(ids);
    }
    forall id | id in good
      ensures id in GoodTodo(s')
    {
      assert id in SetOf(ids);
      var i :| 0 <= i < |ids| && ids[i] == id;
      assert ToInts(ids)[i] == id;
    }
  }

  /** An event that attends to the next solution without a fault. */
  ghost function Attend(s: State): Event
    requires s.todo != []
  {
    if Loadable(s.tables, s.todo[0]) then Judged(JudgeRun(Untouched, map[], true, true, true), true)
    else LoadThrows
  }

  /** A fault-free run with `n` polls leads from `s` to `s'`. */
  ghost predicate Reaches(s: State, s': State, n: nat) {
    exists es :: FaultFreeRun(s, es) && Polls(es) == n && After(s, es) == s'
  }

  lemma ReachesItself(s: State)
    ensures Reaches(s, s, 0)
  {
    assert FaultFreeRun(s, []) && Polls([]) == 0 && After(s, []) == s;
  }

  lemma ReachesNext(s: State, now: State, n: nat, e: Event)
    requires Reaches(s, now, n) && Enabled(now, e) && FaultFree(now, e)
    ensures Reaches(s, Step(now, e), if e.Poll? then n + 1 else n)
  {
    hide LoadSolution, Step, Enabled, FaultFree;
    var es :| FaultFreeRun(s, es) && Polls(es) == n && After(s, es) == now;
    RunAppend(s, es, e);
    FaultFreeAppend(s, es, e);
    assert (es + [e])[..|es|] == es;
  }

  /** Any round can be finished, and judges the good solutions selected. */
  lemma {:induction false} FinishRound(s: State, now: State, n: nat) returns (end: State)
    requires Reaches(s, now, n) && now.running
    ensures Reaches(s, end, n) && end.running && end.todo == []
    ensures Good(end.tables) == Good(now.tables) - GoodTodo(now) && Bad(end.tables) == Bad(now.tables)
    decreases |now.todo|
  {
    hide LoadSolution;
    if now.todo == [] {
      end := now;
    } else {
      var e := Attend(now);
      if e.Judged? {
        JudgedKeepsUnselected(now, e.j);
      } else {
        SkipKeepsUnselected(now);
      }
      ReachesNext(s, now, n, e);
      end := FinishRound(s, Step(now, e), n);
    }
  }

  lemma SlowRound(s: State, now: State, n: nat) returns (end: State)
    requires Reaches(s, now, n) && CutsMissGood(now.tables) && now.running && now.todo == []
    ensures Reaches(s, end, n + 1) && CutsMissGood(end.tables) && end.running && end.todo == []
    ensures Bad(end.tables) == Bad(now.tables)
    ensures |Good(end.tables)| == Max(0, |Good(now.tables)| - RoundQuota(|Bad(now.tables)|))
  {
    hide LoadSolution, Good;
    var ids := SlowPoll(now);
    ReachesNext(s, now, n, Poll(ids));
    var polled := Step(now, Poll(ids));
    end := FinishRound(s, polled, n + 1);
    assert Unselected(polled) == |Good(end.tables)|;
    CutsStillMissGood(now.tables, end.tables);
  }

  lemma CutsStillMissGood(t: Tables, t': Tables)
    requires CutsMissGood(t) && Good(t') <= Good(t) && Bad(t') == Bad(t)
    ensures CutsMissGood(t')
  {
    hide LoadSolution;
    forall p | p in Pending(t') && !FitsInt32(p)
      ensures ToInt32(p) !in Good(t')
    {
      assert p in Bad(t');
    }
  }

  /** Some fault-free run of `n` complete rounds ends with exactly as many good solutions
      pending as the bound of `Drains` allows. */
  ghost predicate BoundIsMet(s: State, n: nat) {
    exists end :: Reaches(s, end, n) && MeetsBound(s, end, n)
  }

  ghost predicate MeetsBound(s: State, end: State, n: nat) {
    && CutsMissGood(end.tables) && end.running && end.todo == []
    && Bad(end.tables) == Bad(s.tables)
    && |Good(end.tables)| == Left(|Good(s.tables)|, RoundQuota(|Bad(s.tables)|), n)
  }

  lemma SlowRoundMeetsBound(s: State, n: nat)
    requires BoundIsMet(s, n)
    ensures BoundIsMet(s, n + 1)
  {
    hide LoadSolution, Good, Bad, Reaches, CutsMissGood;
    var now :| Reaches(s, now, n) && MeetsBound(s, now, n);
    var end := SlowRound(s, now, n);
    assert Reaches(s, end, n + 1) && MeetsBound(s, end, n + 1);
  }

  lemma {:induction false} SlowRun(s: State, n: nat)
    requires CutsMissGood(s.tables) && s.running && s.todo == []
    ensures BoundIsMet(s, n)
  {
    hide LoadSolution;
    if n == 0 {
      ReachesItself(s);
      assert Reaches(s, s, 0) && MeetsBound(s, s, 0);
    } else {
      SlowRun(s, n - 1);
      SlowRoundMeetsBound(s, n - 1);
    }
  }

  // ------------------------------------------------------------------ the theorem

  /** Every fault-free run of `n` complete rounds has judged all that can be judged. */
  ghost predicate DrainedAfter(s: State, n: nat) {
    forall end :: Reaches(s, end, n) && end.todo == [] ==> Good(end.tables) == {}
  }

  /** When g <= n * max(0, 10 - b), all are judged within n rounds; and when no pending
      identifier is cut to that of a good solution, exactly then. */
  lemma DrainedExactlyWhen(s: State, n: nat)
    requires s.running && s.todo == []
    ensures |Good(s.tables)| <= n * RoundQuota(|Bad(s.tables)|) ==> DrainedAfter(s, n)
    ensures CutsMissGood(s.tables) ==>
      (DrainedAfter(s, n) <==> |Good(s.tables)| <= n * RoundQuota(|Bad(s.tables)|))
  {
    hide LoadSolution;
    LeftIs(|Good(s.tables)|, RoundQuota(|Bad(s.tables)|), n);
    if Left(|Good(s.tables)|, RoundQuota(|Bad(s.tables)|), n) == 0 {
      Drained(s, n);
    } else if CutsMissGood(s.tables) {
      SlowRun(s, n);
      var end :| Reaches(s, end, n) && MeetsBound(s, end, n);
      assert Good(end.tables) != {};
    }
  }

  lemma Drained(s: State, n: nat)
    requires s.todo == [] && Left(|Good(s.tables)|, RoundQuota(|Bad(s.tables)|), n) == 0
    ensures DrainedAfter(s, n)
  {
    hide LoadSolution;
    forall end | Reaches(s, end, n) && end.todo == []
      ensures Good(end.tables) == {}
    {
      var es :| FaultFreeRun(s, es) && Polls(es) == n && After(s, es) == end;
      DrainedAtEnd(s, es);
    }
  }

  /** Without faults exactly the saved solutions leave the good ones, and nothing is added. */
  lemma {:induction false} SavedLeaveGood(s: State, es: seq<Event>)
    requires FaultFreeRun(s, es)
    ensures forall x :: x in Good(After(s, es).tables) <==> x in Good(s.tables) && !Saved(Saves(s, es), x)
    ensures Bad(After(s, es).tables) == Bad(s.tables)
    ensures After(s, es).tables.solutions.Keys == s.tables.solutions.Keys
  {
    hide LoadSolution, Good, Bad;
    if es != [] {
      var n := |es| - 1;
      SavedLeaveGood(s, es[..n]);
      var before, e, saves := After(s, es[..n]), es[n], Saves(s, es[..n]);
      if e.Judged? {
        JudgedKeepsUnselected(before, e.j);
        LoadedId(before.tables, before.todo[0]);
        SavedAppend(saves, before.todo[0], NextOutcome(before, e.j).result);
      } else {
        assert Saves(s, es) == saves;
      }
    }
  }

  /** If, moreover, no pending identifier is cut to that of a solution that can be
      constructed, each save takes one. */
  lemma {:induction false} SavesShrinkGood(s: State, es: seq<Event>)
    requires FaultFreeRun(s, es) && QuietInv(s)
    ensures QuietInv(After(s, es))
    ensures |Good(After(s, es).tables)| == |Good(s.tables)| - |Saves(s, es)|
  {
    hide LoadSolution;
    if es != [] {
      var n := |es| - 1;
      SavesShrinkGood(s, es[..n]);
      var before, e := After(s, es[..n]), es[n];
      QuietStep(before, e);
      if e.Judged? {
        JudgedKeepsUnselected(before, e.j);
        assert Loadable(before.tables, before.todo[0]);
        assert before.todo[0] in Good(before.tables);
      }
    }
  }
}
