/** The program's main loop: poll, attend to each selected solution, poll again. Each pass
    is shown to be a run of the queue's transition system, and which run it is, is up to the
    server, the judge and others alone. */
module Contester {
  import opened CInts
  import opened Wrappers
  import opened Tables
  import opened Loading
  import opened Judging
  import opened Queue
  import opened Progress

  /** What the outside does while one solution is attended to: how many queries of its
      construction the server answers before it refuses one, what the judge and the calls of
      `remove` do, and whether the update is made. */
  datatype Attempt = Attempt(patience: Patience, judge: JudgeRun, update: bool)

  /** The server refuses nothing. */
  predicate Willing(a: Attempt) {
    a.patience.None? && a.update
  }

  /** The outside over a run: what others make of the tables before each pass, how the poll
      is answered (`None`: it is refused), and each pass's attempts. */
  datatype World = World(
    others: (nat, Tables) -> Tables,
    answer: (nat, Tables) -> Option<seq<Int64>>,
    attempt: (nat, nat) -> Attempt)

  ghost predicate Possible(w: World) {
    forall i: nat, t: Tables ::
      OutsideChange(t, w.others(i, t)) && (w.answer(i, t).Some? ==> IsSelection(t, w.answer(i, t).value))
  }

  /** Nobody else changes the tables, and the server refuses nothing. */
  ghost predicate Calm(w: World) {
    && (forall i: nat, t: Tables :: w.others(i, t) == t && w.answer(i, t).Some?)
    && (forall i: nat, k: nat :: Willing(w.attempt(i, k)))
  }

  ghost function SomeSelection(t: Tables): (ids: seq<Int64>)
    ensures IsSelection(t, ids)
  {
    SelectionExists(t);
    var ids :| IsSelection(t, ids);
    ids
  }

  /** There is such an outside. */
  lemma CalmIsPossible() returns (w: World)
    ensures Possible(w) && Calm(w)
  {
    w := World(
      (i: nat, t: Tables) => t,
      (i: nat, t: Tables) => Some(SomeSelection(t)),
      (i: nat, k: nat) => Attempt(None, JudgeRun(Untouched, map[], true, true, true), true));
  }

  /** The program's state as a state of the queue. */
  ghost function StateOf(host: Host, todo: seq<Int32>, running: bool): State
    reads host
  {
    State(host.tables, host.files, host.clngs, host.testsDir, todo, running)
  }

  /** `get_not_checked_ids`: the identifiers answered are put into an `int`; they are those of
      rows with status 0, ten of them or all. `None` when the query throws. */
  method GetNotCheckedIds(host: Host, answer: Option<seq<Int64>>) returns (ids: Option<seq<Int32>>)
    requires answer.Some? ==> IsSelection(host.tables, answer.value)
    ensures ids.Some? <==> answer.Some?
    ensures ids.Some? ==>
      && |ids.value| == |answer.value| <= 10
      && forall i :: 0 <= i < |ids.value| ==>
        && answer.value[i] in host.tables.solutions
        && host.tables.solutions[answer.value[i]].status == 0
        && ids.value[i] == ToInt32(answer.value[i])
  {
    if answer.None? {
      return None;
    }
    var result: seq<Int32> := [];
    for i := 0 to |answer.value|
      invariant |result| == i && forall k :: 0 <= k < i ==> result[k] == ToInt32(answer.value[k])
    {
      result := result + [ToInt32(answer.value[i])];
    }
    SelectionInNumbers(host.tables, answer.value);
    return Some(result);
  }

  /** The body of the try block for one solution, and its catch. The event says what
      happened: the solution is judged exactly when it can be constructed and the server
      answers all the queries of its construction. */
  method AttendOne(host: Host, todo: seq<Int32>, a: Attempt) returns (e: Event)
    requires todo != []
    modifies host`tables, host`files, host`clngs
    ensures var t := old(host.tables);
      e == if Loadable(t, todo[0]) && Suffices(a.patience, SolutionQueries(t, todo[0]))
           then Judged(a.judge, a.update) else LoadThrows
    ensures Enabled(old(StateOf(host, todo, true)), e)
    ensures StateOf(host, todo[1..], true) == Step(old(StateOf(host, todo, true)), e)
    ensures Willing(a) ==> FaultFree(old(StateOf(host, todo, true)), e)
  {
    var loaded := ReadSolution(host.tables, todo[0], a.patience);
    if loaded.Failure? {
      return LoadThrows;
    }
    var ch := new Checker(loaded.value, host);
    var saved, doc := ch.Run(host, a.judge, a.update);
    e := Judged(a.judge, saved);
  }

  /** A poll with this answer, and what the outside lets happen in the first `n` attempts. */
  ghost predicate Follows(es: seq<Event>, answer: seq<Int64>, attempt: nat -> Attempt, n: nat) {
    && |es| == 1 + n && es[0] == Poll(answer) && Polls(es) == 1
    && forall i: nat :: i < n ==> es[1 + i] == LoadThrows || es[1 + i] == Judged(attempt(i).judge, attempt(i).update)
  }

  lemma PollFollows(s: State, answer: seq<Int64>, attempt: nat -> Attempt)
    requires s.running && s.todo == [] && IsSelection(s.tables, answer)
    ensures FaultFreeRun(s, [Poll(answer)]) && After(s, [Poll(answer)]) == s.(todo := ToInts(answer))
    ensures Follows([Poll(answer)], answer, attempt, 0)
  {
    RunAppend(s, [], Poll(answer));
    FaultFreeAppend(s, [], Poll(answer));
    assert [] + [Poll(answer)] == [Poll(answer)];
  }

  lemma AttemptFollows(s: State, es: seq<Event>, e: Event, answer: seq<Int64>, attempt: nat -> Attempt, n: nat)
    requires CanRun(s, es) && Follows(es, answer, attempt, n) && Enabled(After(s, es), e)
    requires e == LoadThrows || e == Judged(attempt(n).judge, attempt(n).update)
    ensures CanRun(s, es + [e]) && After(s, es + [e]) == Step(After(s, es), e)
    ensures Follows(es + [e], answer, attempt, n + 1)
    ensures FaultFreeRun(s, es) && FaultFree(After(s, es), e) ==> FaultFreeRun(s, es + [e])
  {
    hide LoadSolution, Step, Enabled, FaultFree;
    RunAppend(s, es, e);
    assert (es + [e])[..|es|] == es;
  }

  /** One pass of the loop, without the waiting. When the poll throws, nothing catches it
      and the program ends. */
  method Round(host: Host, answer: Option<seq<Int64>>, attempt: nat -> Attempt)
    returns (es: seq<Event>, running: bool)
    requires answer.Some? ==> IsSelection(host.tables, answer.value)
    modifies host`tables, host`files, host`clngs
    ensures CanRun(old(StateOf(host, [], true)), es)
    ensures After(old(StateOf(host, [], true)), es) == StateOf(host, [], running)
    ensures running <==> answer.Some?
    ensures answer.None? ==> es == [PollThrows]
    ensures answer.Some? ==> Follows(es, answer.value, attempt, |answer.value|)
    ensures answer.Some? && (forall i: nat :: Willing(attempt(i))) ==>
      FaultFreeRun(old(StateOf(host, [], true)), es)
  {
    hide LoadSolution, Step, FaultFree, CanRun, FaultFreeRun, Follows, Loadable, SolutionQueries, IsSelection;
    ghost var s := StateOf(host, [], true);
    var polled := GetNotCheckedIds(host, answer);
    if polled.None? {
      PollRefused(s);
      return [PollThrows], false;
    }
    var ids := polled.value;
    assert ids == ToInts(answer.value);
    PollFollows(s, answer.value, attempt);
    es := [Poll(answer.value)];
    for i := 0 to |ids|
      invariant CanRun(s, es) && After(s, es) == StateOf(host, ids[i..], true)
      invariant Follows(es, answer.value, attempt, i)
      invariant (forall k: nat :: Willing(attempt(k))) ==> FaultFreeRun(s, es)
    {
      var e := AttendOne(host, ids[i..], attempt(i));
      AttemptFollows(s, es, e, answer.value, attempt, i);
      assert ids[i..][1..] == ids[i + 1..];
      es := es + [e];
    }
    assert ids[|ids|..] == [];
    running := true;
  }

  lemma PollRefused(s: State)
    requires s.running && s.todo == []
    ensures CanRun(s, [PollThrows]) && After(s, [PollThrows]) == s.(running := false)
  {
    RunAppend(s, [], PollThrows);
    assert [] + [PollThrows] == [PollThrows];
  }

  /** What others do before a pass, if anything, and the pass. */
  method ChangeAndRound(host: Host, w: World, pass: nat) returns (es: seq<Event>, running: bool)
    requires Possible(w)
    modifies host`tables, host`files, host`clngs
    ensures CanRun(old(StateOf(host, [], true)), es)
    ensures After(old(StateOf(host, [], true)), es) == StateOf(host, [], running)
    ensures running ==> Polls(es) == 1
    ensures Calm(w) ==> running && FaultFreeRun(old(StateOf(host, [], true)), es)
  {
    hide LoadSolution, Step, Enabled, FaultFree, CanRun, FaultFreeRun, Loadable, IsSelection;
    ghost var s := StateOf(host, [], true);
    var others := w.others(pass, host.tables);
    if others == host.tables {
      es, running := Round(host, w.answer(pass, host.tables), (k: nat) => w.attempt(pass, k));
      return;
    }
    ChangeHappens(s, others);
    host.tables := others;
    var rest;
    rest, running := Round(host, w.answer(pass, host.tables), (k: nat) => w.attempt(pass, k));
    RunConcat(s, [Outside(others)], rest);
    es := [Outside(others)] + rest;
  }

  lemma ChangeHappens(s: State, others: Tables)
    requires s.running && OutsideChange(s.tables, others)
    ensures CanRun(s, [Outside(others)]) && After(s, [Outside(others)]) == s.(tables := others)
    ensures Polls([Outside(others)]) == 0
  {
    RunAppend(s, [], Outside(others));
    assert [] + [Outside(others)] == [Outside(others)];
  }

  /** What follows of the tables after such a run. */
  lemma ServedWell(s: State, es: seq<Event>)
    requires CanRun(s, es) && s.todo == []
    ensures var saves := Saves(s, es);
      && Attributed(s.tables.solutions, After(s, es).tables.solutions, saves)
      && (PendingIdsFit(s.tables) ==> Explained(s.tables.solutions, After(s, es).tables.solutions, saves))
    ensures FaultFreeRun(s, es) && After(s, es).todo == [] ==>
      var t, t' := s.tables, After(s, es).tables;
      && Bad(t') == Bad(t)
      && |Good(t')| <= Max(0, |Good(t)| - Polls(es) * RoundQuota(|Bad(t)|))
  {
    hide LoadSolution, Good, Bad, Enabled, Step, FaultFree, CanRun, Attributed, Explained, Saves;
    RunsAttributed(s, es);
    if PendingIdsFit(s.tables) {
      RunsExplained(s, es);
    }
    if FaultFreeRun(s, es) && After(s, es).todo == [] {
      Drains(s, es);
      DrainedAtEnd(s, es);
      LeftIs(|Good(s.tables)|, RoundQuota(|Bad(s.tables)|), Polls(es));
    }
  }

  /** `n` passes of the endless loop, or fewer if the program ends; between passes others
      may have changed the tables. The whole is one run of the queue. When nothing is refused
      and nobody else changes anything, it is a fault-free run of `n` complete rounds. */
  method Serve(host: Host, n: nat, w: World) returns (es: seq<Event>, running: bool)
    requires Possible(w)
    modifies host`tables, host`files, host`clngs
    ensures CanRun(old(StateOf(host, [], true)), es)
    ensures After(old(StateOf(host, [], true)), es) == StateOf(host, [], running)
    ensures running ==> Polls(es) == n
    ensures var saves := Saves(old(StateOf(host, [], true)), es);
      && Attributed(old(host.tables).solutions, host.tables.solutions, saves)
      && (PendingIdsFit(old(host.tables)) ==>
          Explained(old(host.tables).solutions, host.tables.solutions, saves))
    ensures Calm(w) ==>
      && running && FaultFreeRun(old(StateOf(host, [], true)), es)
      && Bad(host.tables) == Bad(old(host.tables))
      && |Good(host.tables)| <= Max(0, |Good(old(host.tables))| - n * RoundQuota(|Bad(old(host.tables))|))
  {
    hide LoadSolution, Step, Enabled, FaultFree, CanRun, FaultFreeRun, Loadable, Good, Bad, Saves,
      Attributed, Explained, Possible, Calm, RoundQuota, PendingIdsFit, Polls;
    ghost var s := StateOf(host, [], true);
    es, running := [], true;
    ServedNothing(s);
    for i := 0 to n
      invariant CanRun(s, es) && After(s, es) == StateOf(host, [], running)
      invariant running ==> Polls(es) == i
      invariant Calm(w) ==> running && FaultFreeRun(s, es)
    {
      if running {
        var more;
        more, running := ChangeAndRound(host, w, i);
        RunConcat(s, es, more);
        if Calm(w) {
          FaultFreeConcat(s, es, more);
        }
        es := es + more;
      }
    }
    ServedWell(s, es);
  }

  lemma ServedNothing(s: State)
    ensures FaultFreeRun(s, []) && CanRun(s, []) && After(s, []) == s && Polls([]) == 0
  {
  }
}
