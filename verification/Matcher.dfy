/** Comparing a program's output with the accepted answers. */
module Matcher {

  /** ALL compares the whole strings; WNL overlooks one final newline on either side. */
  datatype CheckingMap = ALL | WNL

  predicate EndsInNewline(s: string) {
    s != [] && s[|s| - 1] == '\n'
  }

  function DropNewline(s: string): string {
    if EndsInNewline(s) then s[..|s| - 1] else s
  }

  /** The relation that `strings_match` decides. */
  predicate Matches(output: string, answer: string, mode: CheckingMap) {
    match mode
    case ALL => output == answer
    case WNL => output != "" && DropNewline(output) == DropNewline(answer)
  }

  method StringsMatch(output: string, answer: string, mode: CheckingMap) returns (r: bool)
    ensures r <==> Matches(output, answer, mode)
  {
    var str1, str2 := output, answer;
    match mode {
      case ALL =>
        if str2 == str1 {
          return true;
        }
      case WNL =>
        if str1 != "" {
          if str1[|str1| - 1] == '\n' {
            str1 := str1[..|str1| - 1];
          }
          if str2 != "" {
            if str2[|str2| - 1] == '\n' {
              str2 := str2[..|str2| - 1];
            }
          }
          if str2 == str1 {
            return true;
          }
        }
    }
    return false;
  }

  /** Some answer of the list matches. */
  ghost predicate Accepted(output: string, answers: seq<string>, mode: CheckingMap) {
    exists i :: 0 <= i < |answers| && Matches(output, answers[i], mode)
  }

  method AnswersMatch(output: string, answers: seq<string>, mode: CheckingMap) returns (result: bool)
    ensures result <==> Accepted(output, answers, mode)
  {
    result := false;
    for i := 0 to |answers|
      invariant !result
      invariant forall j :: 0 <= j < i ==> !Matches(output, answers[j], mode)
    {
      var m := StringsMatch(output, answers[i], mode);
      if m {
        result := true;
        break;
      }
    }
  }

  /** Only which answers occur matters: more of them accept more outputs, so the verdict
      does not depend on their order or on repetitions. */
  lemma AcceptedIsMonotone(output: string, few: seq<string>, many: seq<string>, mode: CheckingMap)
    requires forall a :: a in few ==> a in many
    ensures Accepted(output, few, mode) ==> Accepted(output, many, mode)
  {
    if Accepted(output, few, mode) {
      var i :| 0 <= i < |few| && Matches(output, few[i], mode);
      assert few[i] in many;
      var j :| 0 <= j < |many| && many[j] == few[i];
    }
  }

  /** ALL accepts exactly the outputs that are among the answers; with no answer nothing is
      accepted in either mode. */
  lemma AllIsMembership(output: string, answers: seq<string>)
    ensures Accepted(output, answers, ALL) <==> output in answers
    ensures Matches(output, output, ALL)
    ensures !Accepted(output, [], ALL) && !Accepted(output, [], WNL)
  {
    if output in answers {
      var i :| 0 <= i < |answers| && answers[i] == output;
      assert Matches(output, answers[i], ALL);
    }
  }

  /** WNL in terms of the strings alone: equal, or one is the other followed by a newline
      and the shorter does not itself end in one. Two newlines are not overlooked. */
  lemma WnlCharacterised(output: string, answer: string)
    ensures Matches(output, answer, WNL) <==>
      && output != ""
      && (|| output == answer
          || (output == answer + "\n" && !EndsInNewline(answer))
          || (answer == output + "\n" && !EndsInNewline(output)))
  {
    assert EndsInNewline(output) ==> output == DropNewline(output) + "\n";
    assert EndsInNewline(answer) ==> answer == DropNewline(answer) + "\n";
  }

  /** On non-empty strings WNL is an equivalence. */
  lemma WnlIsEquivalence(a: string, b: string, c: string)
    requires a != "" && b != "" && c != ""
    ensures Matches(a, a, WNL)
    ensures Matches(a, b, WNL) ==> Matches(b, a, WNL)
    ensures Matches(a, b, WNL) && Matches(b, c, WNL) ==> Matches(a, c, WNL)
  {
  }

  /** The empty output is what breaks it: it matches nothing, not even itself, although a
      lone newline matches it. Exactly then does ALL accept what WNL refuses. */
  lemma WnlOnEmptyOutput(output: string, answer: string)
    ensures Matches(output, output, WNL) <==> output != ""
    ensures Matches("\n", "", WNL) && !Matches("", "\n", WNL)
    ensures (Matches(output, answer, ALL) ==> Matches(output, answer, WNL))
            <==> !(output == "" && answer == "")
  {
    assert DropNewline("\n") == "";
  }
}
