/** The judge's configuration file: how the contester writes it from a loaded solution,
    and how the judge reads it. */
module Config {
  import opened CInts
  import opened Wrappers
  import opened Tables
  import opened Loading
  import opened Json
  import opened Join

  /** A configured language: file extension and compiler command template. */
  datatype Clng = Clng(ext: string, cmd: string)

  /** `clngs[identifier]`: a key that is not there reads as two empty strings. */
  function Lookup(clngs: map<string, Clng>, identifier: string): Clng {
    if identifier in clngs then clngs[identifier] else Clng("", "")
  }

  // ------------------------------------------------------------ decimal numbers

  function Digit(d: nat): char
    requires d < 10
  {
    '0' + d as char
  }

  function Digits(n: nat): (s: string)
    ensures s != [] && forall c :: c in s ==> '0' <= c <= '9'
  {
    if n < 10 then [Digit(n)] else Digits(n / 10) + [Digit(n % 10)]
  }

  /** `std::to_string`. */
  function ToString(n: int): (s: string)
    ensures '\\' !in s
  {
    if n < 0 then "-" + Digits(-n) else Digits(n)
  }

  /** The number that a text of decimal digits stands for. */
  function DecimalValue(s: string): int {
    if s == [] then 0 else 10 * DecimalValue(s[..|s| - 1]) + (s[|s| - 1] as int - '0' as int)
  }

  /** The decimal text of `n`: a minus sign if it is negative, and digits, without a zero in
      front of others. */
  ghost predicate IsDecimal(text: string, n: int) {
    if n < 0 then text != [] && text[0] == '-' && IsDecimal(text[1..], -n)
    else
      && text != [] && (forall c :: c in text ==> '0' <= c <= '9')
      && (|text| > 1 ==> text[0] != '0') && DecimalValue(text) == n
  }

  lemma {:induction false} DigitsAreDecimal(n: nat)
    ensures IsDecimal(Digits(n), n)
    ensures n > 0 ==> Digits(n)[0] != '0'
  {
    var s := Digits(n);
    assert s[|s| - 1] == Digit(n % 10);
    if n >= 10 {
      DigitsAreDecimal(n / 10);
      assert s[..|s| - 1] == Digits(n / 10);
    } else {
      assert s[..|s| - 1] == [];
    }
  }

  lemma ToStringIsDecimal(n: int)
    ensures IsDecimal(ToString(n), n)
  {
    if n < 0 {
      DigitsAreDecimal(-n);
      assert ToString(n)[1..] == Digits(-n);
    } else {
      DigitsAreDecimal(n);
    }
  }

  /** A text is the decimal text of at most one number. */
  lemma DecimalIsUnambiguous(text: string, m: int, n: int)
    requires IsDecimal(text, m) && IsDecimal(text, n)
    ensures m == n
  {
    if m < 0 || n < 0 {
      assert text[0] in text;
    }
  }

  /** The directory with a task's tests. */
  function TestsDir(testsDir: string, cid: int, tid: int): string {
    testsDir + ToString(cid) + "\\" + ToString(tid)
  }

  /** It is the base followed by the contest's number in decimal, a backslash, and the
      task's. */
  lemma TestsDirText(testsDir: string, cid: int, tid: int) returns (contest: string, task: string)
    ensures TestsDir(testsDir, cid, tid) == testsDir + contest + "\\" + task
    ensures IsDecimal(contest, cid) && IsDecimal(task, tid) && '\\' !in contest
  {
    contest, task := ToString(cid), ToString(tid);
    ToStringIsDecimal(cid);
    ToStringIsDecimal(tid);
  }

  /** Two tasks, or the same task number in two contests, never share a directory. */
  lemma TestsDirInjective(testsDir: string, cid: int, tid: int, cid': int, tid': int)
    requires TestsDir(testsDir, cid, tid) == TestsDir(testsDir, cid', tid')
    ensures cid == cid' && tid == tid'
  {
    var contest, task := TestsDirText(testsDir, cid, tid);
    var contest', task' := TestsDirText(testsDir, cid', tid');
    DropPrefix(testsDir, contest, task, contest', task');
    SplitAtBackslash(contest, task, contest', task');
    DecimalIsUnambiguous(contest, cid, cid');
    DecimalIsUnambiguous(task, tid, tid');
  }

  lemma DropPrefix(p: string, a: string, b: string, c: string, d: string)
    requires p + a + "\\" + b == p + c + "\\" + d
    ensures a + "\\" + b == c + "\\" + d
  {
    var s, t := a + "\\" + b, c + "\\" + d;
    assert p + a + "\\" + b == p + s && p + c + "\\" + d == p + t;
    assert s == (p + s)[|p|..] && t == (p + t)[|p|..];
  }

  lemma SplitAtBackslash(a: string, b: string, c: string, d: string)
    requires '\\' !in a && '\\' !in c
    requires a + "\\" + b == c + "\\" + d
    ensures a == c && b == d
  {
    var s, t := a + "\\" + b, c + "\\" + d;
    assert s[|a|] == '\\' && t[|c|] == '\\';
    assert |a| == |c|;
    assert a == s[..|a|] == t[..|c|] == c;
    assert b == s[|a| + 1..] == t[|c| + 1..] == d;
  }

  // ---------------------------------------------------------------- the writer

  /** The document, as a tree. Strings pass through `c_str()`; identifiers are widened
      from `int` to an unsigned 64-bit number. */
  function TestJson(cht: ChTest): Json {
    JObj([
      Member("id", JNum(cht.id % U64)),
      Member("scores", JNum(cht.scores)),
      Member("input", JStr(CStr(cht.input))),
      Member("outputs", JArr([JStr(CStr(cht.output))]))])
  }

  function TestsJson(chts: seq<ChTest>): (r: seq<Json>)
    ensures |r| == |chts| && forall i :: 0 <= i < |chts| ==> r[i] == TestJson(chts[i])
  {
    seq(|chts|, i requires 0 <= i < |chts| => TestJson(chts[i]))
  }

  function ConfigJson(sol: Solution, testsDir: string): Json {
    JObj([
      Member("time_limit", JNum(sol.pt.timeLimit)),
      Member("memory_limit", JNum(sol.pt.memoryLimit)),
      Member("input", JStr(CStr(sol.pt.input))),
      Member("output", JStr(CStr(sol.pt.output))),
      Member("test_dir", JStr(CStr(TestsDir(testsDir, sol.pt.cid, sol.tid)))),
      Member("checker", JStr(CStr(sol.pt.checker))),
      Member("tests", JArr(TestsJson(Flatten(sol.pt.chgs))))])
  }

  function LanguageJson(sol: Solution, clngs: map<string, Clng>): Json {
    JObj([
      Member("name", JStr(CStr(sol.pl.identifier))),
      Member("template", JStr(CStr(Lookup(clngs, sol.pl.identifier).cmd)))])
  }

  function ProblemJson(sol: Solution, testsDir: string): Json {
    JObj([
      Member("name", JStr(CStr(sol.pt.title))),
      Member("config", ConfigJson(sol, testsDir))])
  }

  function DocumentJson(sol: Solution, clngs: map<string, Clng>, testsDir: string): Json {
    JObj([
      Member("problem", ProblemJson(sol, testsDir)),
      Member("language", LanguageJson(sol, clngs))])
  }

  /** The tokens of one test, and of a list of tests. */
  function TestTokens(cht: ChTest): seq<Token> {
    [StartObject,
     Str("id"), Num(cht.id % 0x1_0000_0000_0000_0000),
     Str("scores"), Num(cht.scores),
     Str("input"), Str(CStr(cht.input)),
     Str("outputs"), StartArray, Str(CStr(cht.output)), EndArray,
     EndObject]
  }

  function TestsTokens(chts: seq<ChTest>): seq<Token> {
    if chts == [] then [] else TestsTokens(chts[..|chts| - 1]) + TestTokens(chts[|chts| - 1])
  }

  /** The tokens of the configuration. */
  function ConfigTokens(sol: Solution, dir: string): seq<Token> {
    [StartObject,
     Str("time_limit"), Num(sol.pt.timeLimit), Str("memory_limit"), Num(sol.pt.memoryLimit),
     Str("input"), Str(CStr(sol.pt.input)), Str("output"), Str(CStr(sol.pt.output)),
     Str("test_dir"), Str(CStr(dir)), Str("checker"), Str(CStr(sol.pt.checker)),
     Str("tests"), StartArray] + TestsTokens(Flatten(sol.pt.chgs)) + [EndArray,
     EndObject]
  }

  /** The tokens of the whole document. */
  function DocumentTokens(sol: Solution, dir: string, template: string): seq<Token> {
    [StartObject,
     Str("problem"), StartObject, Str("name"), Str(CStr(sol.pt.title)), Str("config")]
    + ConfigTokens(sol, dir)
    + [EndObject,
     Str("language"), StartObject,
     Str("name"), Str(CStr(sol.pl.identifier)), Str("template"), Str(CStr(template)),
     EndObject,
     EndObject]
  }

  lemma EmitTest(cht: ChTest)
    ensures Emit(TestJson(cht)) == TestTokens(cht)
  {
    hide Emit, EmitMembers, CStr;
    var ms := TestJson(cht).members;
    var input, output := JStr(CStr(cht.input)), JStr(CStr(cht.output));
    EmitLone(CStr(cht.output));
    EmitObject(ms);
    EmitNumbers("id", cht.id % U64, "scores", cht.scores);
    EmitOne(ms[2]);
    EmitArray("outputs", [output]);
    assert Emit(input) == [Str(CStr(cht.input))] by { EmitLone(CStr(cht.input)); }
    EmitMembersConcat(ms[..2], [ms[2]]);
    EmitMembersConcat(ms[..3], [ms[3]]);
    assert ms == ms[..3] + [ms[3]] && ms[..3] == ms[..2] + [ms[2]] && ms[..2] == [ms[0], ms[1]];
  }

  lemma EmitLone(s: string)
    ensures Emit(JStr(s)) == [Str(s)] && EmitItems([JStr(s)]) == [Str(s)]
  {
    assert [JStr(s)][1..] == [];
  }

  lemma {:induction false} EmitTests(chts: seq<ChTest>)
    ensures EmitItems(TestsJson(chts)) == TestsTokens(chts)
  {
    hide TestJson, TestTokens;
    if chts != [] {
      var n := |chts| - 1;
      EmitTests(chts[..n]);
      EmitTest(chts[n]);
      EmitItemsAppend(TestsJson(chts[..n]), TestJson(chts[n]));
      assert TestsJson(chts) == TestsJson(chts[..n]) + [TestJson(chts[n])];
    }
  }

  lemma EmitConfig(sol: Solution, testsDir: string)
    ensures Emit(ConfigJson(sol, testsDir)) == ConfigTokens(sol, TestsDir(testsDir, sol.pt.cid, sol.tid))
  {
    hide TestsDir, CStr, TestsJson, TestsTokens, Flatten, Emit, EmitMembers, EmitItems;
    var ms := ConfigJson(sol, testsDir).members;
    EmitObject(ms);
    EmitTests(Flatten(sol.pt.chgs));
    EmitNumbers("time_limit", sol.pt.timeLimit, "memory_limit", sol.pt.memoryLimit);
    EmitStrings("input", CStr(sol.pt.input), "output", CStr(sol.pt.output));
    EmitStrings("test_dir", CStr(TestsDir(testsDir, sol.pt.cid, sol.tid)), "checker", CStr(sol.pt.checker));
    EmitArray("tests", TestsJson(Flatten(sol.pt.chgs)));
    EmitSeven(ms);
  }

  lemma EmitSeven(ms: seq<Member>)
    requires |ms| == 7
    ensures EmitMembers(ms) ==
      EmitMembers([ms[0], ms[1]]) + EmitMembers([ms[2], ms[3]]) + EmitMembers([ms[4], ms[5]]) + EmitMembers([ms[6]])
  {
    hide EmitMembers;
    var a, b, c, d := [ms[0], ms[1]], [ms[2], ms[3]], [ms[4], ms[5]], [ms[6]];
    EmitMembersConcat(a, b);
    EmitMembersConcat(a + b, c);
    EmitMembersConcat(a + b + c, d);
    assert ms == a + b + c + d;
  }

  lemma EmitDocument(sol: Solution, clngs: map<string, Clng>, testsDir: string)
    ensures Emit(DocumentJson(sol, clngs, testsDir)) ==
      DocumentTokens(sol, TestsDir(testsDir, sol.pt.cid, sol.tid), Lookup(clngs, sol.pl.identifier).cmd)
  {
    hide ConfigJson, ConfigTokens, TestsDir, Lookup, CStr, Emit, EmitMembers, ProblemJson, LanguageJson;
    var ms := DocumentJson(sol, clngs, testsDir).members;
    EmitProblem(sol, testsDir);
    EmitLanguage(sol, clngs);
    EmitTwo(ms[0], ms[1]);
    EmitObject(ms);
  }

  lemma EmitProblem(sol: Solution, testsDir: string)
    ensures Emit(ProblemJson(sol, testsDir)) ==
      [StartObject, Str("name"), Str(CStr(sol.pt.title)), Str("config")]
      + ConfigTokens(sol, TestsDir(testsDir, sol.pt.cid, sol.tid)) + [EndObject]
  {
    hide ConfigJson, ConfigTokens, TestsDir, CStr, Emit, EmitMembers;
    var ms := ProblemJson(sol, testsDir).members;
    EmitConfig(sol, testsDir);
    EmitLone(CStr(sol.pt.title));
    EmitTwo(ms[0], ms[1]);
    EmitObject(ms);
  }

  lemma EmitLanguage(sol: Solution, clngs: map<string, Clng>)
    ensures Emit(LanguageJson(sol, clngs)) ==
      [StartObject, Str("name"), Str(CStr(sol.pl.identifier)),
       Str("template"), Str(CStr(Lookup(clngs, sol.pl.identifier).cmd)), EndObject]
  {
    hide Lookup, CStr, Emit, EmitMembers;
    EmitStrings("name", CStr(sol.pl.identifier), "template", CStr(Lookup(clngs, sol.pl.identifier).cmd));
    EmitObject(LanguageJson(sol, clngs).members);
  }

  /** The stateful writer. Ghost arguments name the members of the object that is open:
      `base` was written before its first member. */
  class Writer {
    var tokens: seq<Token>

    constructor ()
      ensures tokens == []
    {
      tokens := [];
    }

    method Put(t: Token)
      modifies this
      ensures tokens == old(tokens) + [t]
    {
      tokens := tokens + [t];
    }

    method StringMember(key: string, s: string, ghost base: seq<Token>, ghost ms: seq<Member>)
      returns (ghost ms': seq<Member>)
      requires tokens == base + EmitMembers(ms)
      modifies this
      ensures ms' == ms + [Member(key, JStr(s))]
      ensures tokens == base + EmitMembers(ms')
    {
      Put(Str(key));
      Put(Str(s));
      EmitMembersAppend(ms, Member(key, JStr(s)));
      ms' := ms + [Member(key, JStr(s))];
    }

    method NumberMember(key: string, n: int, ghost base: seq<Token>, ghost ms: seq<Member>)
      returns (ghost ms': seq<Member>)
      requires tokens == base + EmitMembers(ms)
      modifies this
      ensures ms' == ms + [Member(key, JNum(n))]
      ensures tokens == base + EmitMembers(ms')
    {
      Put(Str(key));
      Put(Num(n));
      EmitMembersAppend(ms, Member(key, JNum(n)));
      ms' := ms + [Member(key, JNum(n))];
    }

    method OpenObject() returns (ghost base: seq<Token>, ghost ms: seq<Member>)
      modifies this
      ensures ms == [] && base == old(tokens) + [StartObject]
      ensures tokens == base + EmitMembers(ms)
    {
      Put(StartObject);
      base, ms := tokens, [];
    }

    method CloseObject(ghost before: seq<Token>, ghost ms: seq<Member>)
      requires tokens == before + [StartObject] + EmitMembers(ms)
      modifies this
      ensures tokens == before + Emit(JObj(ms))
    {
      Put(EndObject);
    }
  }

  /** The value of `key` has been written after the members `ms`. */
  lemma MemberDone(tokens: seq<Token>, base: seq<Token>, ms: seq<Member>, m: Member)
    requires tokens == base + EmitMembers(ms) + [Str(m.key)] + Emit(m.value)
    ensures tokens == base + EmitMembers(ms + [m])
  {
    EmitMembersAppend(ms, m);
  }

  method WriteTest(writer: Writer, cht: ChTest)
    modifies writer
    ensures writer.tokens == old(writer.tokens) + Emit(TestJson(cht))
  {
    ghost var base, ms := writer.OpenObject();
    ms := writer.NumberMember("id", cht.id % U64, base, ms);
    ms := writer.NumberMember("scores", cht.scores, base, ms);
    ms := writer.StringMember("input", CStr(cht.input), base, ms);
    writer.Put(Str("outputs"));
    WriteOutputs(writer, cht);
    MemberDone(writer.tokens, base, ms, Member("outputs", JArr([JStr(CStr(cht.output))])));
    ms := ms + [Member("outputs", JArr([JStr(CStr(cht.output))]))];
    writer.CloseObject(old(writer.tokens), ms);
    assert ms == TestJson(cht).members;
  }

  method WriteOutputs(writer: Writer, cht: ChTest)
    modifies writer
    ensures writer.tokens == old(writer.tokens) + Emit(JArr([JStr(CStr(cht.output))]))
  {
    writer.Put(StartArray);
    writer.Put(Str(CStr(cht.output)));
    writer.Put(EndArray);
    assert EmitItems([JStr(CStr(cht.output))]) == [Str(CStr(cht.output))];
  }

  /** The nested loops over groups and their tests. */
  method WriteTests(writer: Writer, chgs: seq<ChGroup>)
    modifies writer
    ensures writer.tokens == old(writer.tokens) + Emit(JArr(TestsJson(Flatten(chgs))))
  {
    hide EmitMembers;
    writer.Put(StartArray);
    ghost var base := writer.tokens;
    for g := 0 to |chgs|
      invariant writer.tokens == base + EmitItems(TestsJson(Flatten(chgs[..g])))
    {
      WriteGroup(writer, chgs[g].chts, base, Flatten(chgs[..g]));
      assert chgs[..g + 1][..g] == chgs[..g];
    }
    assert chgs[..|chgs|] == chgs;
    writer.Put(EndArray);
  }

  method WriteGroup(writer: Writer, chts: seq<ChTest>, ghost base: seq<Token>, ghost before: seq<ChTest>)
    requires writer.tokens == base + EmitItems(TestsJson(before))
    modifies writer
    ensures writer.tokens == base + EmitItems(TestsJson(before + chts))
  {
    assert before + chts[..0] == before;
    for c := 0 to |chts|
      invariant writer.tokens == base + EmitItems(TestsJson(before + chts[..c]))
    {
      WriteTest(writer, chts[c]);
      EmitTestsStep(before + chts[..c], chts[c]);
      assert before + chts[..c + 1] == before + chts[..c] + [chts[c]];
    }
    assert chts[..|chts|] == chts;
  }

  lemma EmitTestsStep(done: seq<ChTest>, next: ChTest)
    ensures EmitItems(TestsJson(done + [next])) == EmitItems(TestsJson(done)) + Emit(TestJson(next))
  {
    EmitItemsAppend(TestsJson(done), TestJson(next));
    assert TestsJson(done + [next]) == TestsJson(done) + [TestJson(next)];
  }

  method WritePaths(writer: Writer, sol: Solution, testsDir: string,
                    ghost base: seq<Token>, ghost before: seq<Member>)
    returns (ghost ms: seq<Member>)
    requires writer.tokens == base + EmitMembers(before)
    modifies writer
    ensures ms == before + [
      Member("input", JStr(CStr(sol.pt.input))),
      Member("output", JStr(CStr(sol.pt.output))),
      Member("test_dir", JStr(CStr(TestsDir(testsDir, sol.pt.cid, sol.tid)))),
      Member("checker", JStr(CStr(sol.pt.checker)))]
    ensures writer.tokens == base + EmitMembers(ms)
  {
    ms := before;
    ms := writer.StringMember("input", CStr(sol.pt.input), base, ms);
    ms := writer.StringMember("output", CStr(sol.pt.output), base, ms);
    ms := writer.StringMember("test_dir", CStr(TestsDir(testsDir, sol.pt.cid, sol.tid)), base, ms);
    ms := writer.StringMember("checker", CStr(sol.pt.checker), base, ms);
  }

  method WriteConfig(writer: Writer, sol: Solution, testsDir: string)
    modifies writer
    ensures writer.tokens == old(writer.tokens) + Emit(ConfigJson(sol, testsDir))
  {
    hide Emit, EmitMembers, EmitItems;
    ghost var base, ms := writer.OpenObject();
    ms := writer.NumberMember("time_limit", sol.pt.timeLimit, base, ms);
    ms := writer.NumberMember("memory_limit", sol.pt.memoryLimit, base, ms);
    ms := WritePaths(writer, sol, testsDir, base, ms);
    writer.Put(Str("tests"));
    WriteTests(writer, sol.pt.chgs);
    MemberDone(writer.tokens, base, ms, Member("tests", JArr(TestsJson(Flatten(sol.pt.chgs)))));
    ms := ms + [Member("tests", JArr(TestsJson(Flatten(sol.pt.chgs))))];
    writer.CloseObject(old(writer.tokens), ms);
    assert ms == ConfigJson(sol, testsDir).members;
  }

  method WriteProblem(writer: Writer, sol: Solution, testsDir: string)
    modifies writer
    ensures writer.tokens == old(writer.tokens) + Emit(ProblemJson(sol, testsDir))
  {
    ghost var base, ms := writer.OpenObject();
    ms := writer.StringMember("name", CStr(sol.pt.title), base, ms);
    writer.Put(Str("config"));
    WriteConfig(writer, sol, testsDir);
    MemberDone(writer.tokens, base, ms, Member("config", ConfigJson(sol, testsDir)));
    ms := ms + [Member("config", ConfigJson(sol, testsDir))];
    writer.CloseObject(old(writer.tokens), ms);
    assert ms == ProblemJson(sol, testsDir).members;
  }

  method WriteLanguage(writer: Writer, sol: Solution, clngs: map<string, Clng>)
    modifies writer
    ensures writer.tokens == old(writer.tokens) + Emit(LanguageJson(sol, clngs))
  {
    ghost var base, ms := writer.OpenObject();
    ms := writer.StringMember("name", CStr(sol.pl.identifier), base, ms);
    ms := writer.StringMember("template", CStr(Lookup(clngs, sol.pl.identifier).cmd), base, ms);
    writer.CloseObject(old(writer.tokens), ms);
    assert ms == LanguageJson(sol, clngs).members;
  }

  /** What `create_cfg_json` puts into the file: a document that parses back to the tree. */
  method CreateCfgJson(sol: Solution, clngs: map<string, Clng>, testsDir: string)
    returns (tokens: seq<Token>)
    ensures tokens == Emit(DocumentJson(sol, clngs, testsDir))
    ensures Parse(tokens) == Some(DocumentJson(sol, clngs, testsDir))
    ensures tokens == DocumentTokens(sol, TestsDir(testsDir, sol.pt.cid, sol.tid),
                                     if sol.pl.identifier in clngs then clngs[sol.pl.identifier].cmd else "")
  {
    var writer := new Writer();
    ghost var base, ms := writer.OpenObject();
    writer.Put(Str("problem"));
    WriteProblem(writer, sol, testsDir);
    MemberDone(writer.tokens, base, ms, Member("problem", ProblemJson(sol, testsDir)));
    ms := ms + [Member("problem", ProblemJson(sol, testsDir))];
    writer.Put(Str("language"));
    WriteLanguage(writer, sol, clngs);
    MemberDone(writer.tokens, base, ms, Member("language", LanguageJson(sol, clngs)));
    ms := ms + [Member("language", LanguageJson(sol, clngs))];
    writer.CloseObject([], ms);
    assert ms == DocumentJson(sol, clngs, testsDir).members;
    tokens := writer.tokens;
    EmitDocument(sol, clngs, testsDir);
    ParseIsInverseOfEmit(tokens, DocumentJson(sol, clngs, testsDir));
  }

  // ---------------------------------------------------------------- the reader

  /** A failed `checker_assert`, or an access that the JSON library asserts against: the
      judge exits. */
  datatype ReadError = AssertionFailed

  datatype TestPath = TestPath(id: nat, scores: int, questFile: string, answerPaths: seq<string>)

  datatype ProblemStore = ProblemStore(
    timeLimit: nat, memoryLimit: nat, inputFileName: string, outputFileName: string,
    checkerFilePath: string, tests: seq<TestPath>)

  datatype JudgeConfig = JudgeConfig(
    problem: ProblemStore, compilerName: string, commandTemplate: string)

  function FindMember(members: seq<Member>, key: string): Result<Json, ReadError> {
    if members == [] then Failure(AssertionFailed)
    else if members[0].key == key then Success(members[0].value)
    else FindMember(members[1..], key)
  }

  /** The first member of that name; the value must be an object that has one. */
  function Get(j: Json, key: string): Result<Json, ReadError> {
    if j.JObj? then FindMember(j.members, key) else Failure(AssertionFailed)
  }

  function GetObject(j: Json, key: string): Result<Json, ReadError> {
    var v :- Get(j, key);
    if v.JObj? then Success(v) else Failure(AssertionFailed)
  }

  function GetArray(j: Json, key: string): Result<seq<Json>, ReadError> {
    var v :- Get(j, key);
    if v.JArr? then Success(v.items) else Failure(AssertionFailed)
  }

  function GetString(j: Json, key: string): Result<string, ReadError> {
    var v :- Get(j, key);
    if v.JStr? then Success(CStr(v.s)) else Failure(AssertionFailed)
  }

  /** A number in the range `low`..`high`, exclusive: `IsUint`, `IsInt`, `IsUint64`. */
  function GetNumber(j: Json, key: string, low: int, high: int): (r: Result<int, ReadError>)
    ensures r.Success? ==> low <= r.value < high
  {
    var v :- Get(j, key);
    if v.JNum? && low <= v.n < high then Success(v.n) else Failure(AssertionFailed)
  }

  function RestorePath(dir: string, name: string): string {
    dir + "\\" + name
  }

  function ReadOutputs(dir: string, outs: seq<Json>): Result<seq<string>, ReadError> {
    if outs == [] then Success([])
    else
      var front :- ReadOutputs(dir, outs[..|outs| - 1]);
      var last := outs[|outs| - 1];
      if last.JStr? then Success(front + [RestorePath(dir, CStr(last.s))]) else Failure(AssertionFailed)
  }

  /** The identifier becomes a `size_t`, which has 32 bits in the project's build. */
  function ReadTest(dir: string, tv: Json): Result<TestPath, ReadError> {
    var id :- GetNumber(tv, "id", 0, U64);
    var scores :- GetNumber(tv, "scores", -0x8000_0000, 0x8000_0000);
    var input :- GetString(tv, "input");
    var outs :- GetArray(tv, "outputs");
    var paths :- ReadOutputs(dir, outs);
    Success(TestPath(id % U32, scores, RestorePath(dir, input), paths))
  }

  function ReadTests(dir: string, tests: seq<Json>): Result<seq<TestPath>, ReadError> {
    if tests == [] then Success([])
    else
      var front :- ReadTests(dir, tests[..|tests| - 1]);
      var last :- ReadTest(dir, tests[|tests| - 1]);
      Success(front + [last])
  }

  function ReadProblem(cv: Json): Result<ProblemStore, ReadError> {
    var timeLimit :- GetNumber(cv, "time_limit", 0, U32);
    var memoryLimit :- GetNumber(cv, "memory_limit", 0, U32);
    var input :- GetString(cv, "input");
    var output :- GetString(cv, "output");
    var dir :- GetString(cv, "test_dir");
    var checker :- GetString(cv, "checker");
    var items :- GetArray(cv, "tests");
    var tests :- ReadTests(dir, items);
    Success(ProblemStore(timeLimit, memoryLimit, input, output, RestorePath(dir, checker), tests))
  }

  /** What the judge makes of a parsed document. */
  function ReadConfig(document: Json): Result<JudgeConfig, ReadError> {
    var pv :- GetObject(document, "problem");
    var _ :- GetString(pv, "name");
    var cv :- GetObject(pv, "config");
    var problem :- ReadProblem(cv);
    var lv :- GetObject(document, "language");
    var name :- GetString(lv, "name");
    var template :- GetString(lv, "template");
    Success(JudgeConfig(problem, name, template))
  }

  /** The problem's name, which the judge checks for and does not keep. */
  function ReadTitle(document: Json): Result<string, ReadError> {
    var pv :- GetObject(document, "problem");
    GetString(pv, "name")
  }

  lemma {:induction false} ReadTestsFailure(dir: string, tests: seq<Json>, n: nat)
    requires n <= |tests| && ReadTests(dir, tests[..n]).Failure?
    ensures ReadTests(dir, tests) == ReadTests(dir, tests[..n])
  {
    if n < |tests| {
      assert tests[..|tests| - 1][..n] == tests[..n];
      ReadTestsFailure(dir, tests[..|tests| - 1], n);
    } else {
      assert tests[..n] == tests;
    }
  }

  lemma {:induction false} ReadOutputsFailure(dir: string, outs: seq<Json>, n: nat)
    requires n <= |outs| && ReadOutputs(dir, outs[..n]).Failure?
    ensures ReadOutputs(dir, outs) == ReadOutputs(dir, outs[..n])
  {
    if n < |outs| {
      assert outs[..|outs| - 1][..n] == outs[..n];
      ReadOutputsFailure(dir, outs[..|outs| - 1], n);
    } else {
      assert outs[..n] == outs;
    }
  }

  /** The loop over the answer files of one test. */
  method ReadOutputList(dir: string, outs: seq<Json>) returns (r: Result<seq<string>, ReadError>)
    ensures r == ReadOutputs(dir, outs)
  {
    var paths: seq<string> := [];
    for j := 0 to |outs|
      invariant ReadOutputs(dir, outs[..j]) == Success(paths)
    {
      assert outs[..j + 1][..j] == outs[..j];
      if !outs[j].JStr? {
        ReadOutputsFailure(dir, outs, j + 1);
        return Failure(AssertionFailed);
      }
      paths := paths + [RestorePath(dir, CStr(outs[j].s))];
    }
    assert outs[..|outs|] == outs;
    return Success(paths);
  }

  /** The loop over the tests. */
  method ReadTestList(dir: string, tests: seq<Json>) returns (r: Result<seq<TestPath>, ReadError>)
    ensures r == ReadTests(dir, tests)
  {
    var list: seq<TestPath> := [];
    for i := 0 to |tests|
      invariant ReadTests(dir, tests[..i]) == Success(list)
    {
      assert tests[..i + 1][..i] == tests[..i];
      var e := ReadOneTest(dir, tests[i]);
      if e.Failure? {
        ReadTestsFailure(dir, tests, i + 1);
        return Failure(e.error);
      }
      list := list + [e.value];
    }
    assert tests[..|tests|] == tests;
    return Success(list);
  }

  method ReadOneTest(dir: string, tv: Json) returns (r: Result<TestPath, ReadError>)
    ensures r == ReadTest(dir, tv)
  {
    var id :- GetNumber(tv, "id", 0, U64);
    var scores :- GetNumber(tv, "scores", -0x8000_0000, 0x8000_0000);
    var input :- GetString(tv, "input");
    var outs :- GetArray(tv, "outputs");
    var paths :- ReadOutputList(dir, outs);
    return Success(TestPath(id % U32, scores, RestorePath(dir, input), paths));
  }

  /** `read_main_config`, from the parsed document on. */
  method ReadMainConfig(document: Json) returns (r: Result<JudgeConfig, ReadError>)
    ensures r == ReadConfig(document)
  {
    var pv :- GetObject(document, "problem");
    var _ :- GetString(pv, "name");
    var cv :- GetObject(pv, "config");
    var timeLimit :- GetNumber(cv, "time_limit", 0, U32);
    var memoryLimit :- GetNumber(cv, "memory_limit", 0, U32);
    var input :- GetString(cv, "input");
    var output :- GetString(cv, "output");
    var dir :- GetString(cv, "test_dir");
    var checker :- GetString(cv, "checker");
    var items :- GetArray(cv, "tests");
    var tests :- ReadTestList(dir, items);
    var problem := ProblemStore(timeLimit, memoryLimit, input, output, RestorePath(dir, checker), tests);
    var lv :- GetObject(document, "language");
    var name :- GetString(lv, "name");
    var template :- GetString(lv, "template");
    return Success(JudgeConfig(problem, name, template));
  }

  // ------------------------------------------------- which documents are accepted

  /** `v` is the value of the first member named `key` of an object. */
  ghost predicate Holds(j: Json, key: string, v: Json) {
    j.JObj? && exists i :: 0 <= i < |j.members| && FirstAt(j.members, i, key) && j.members[i].value == v
  }

  ghost predicate FirstAt(members: seq<Member>, i: nat, key: string) {
    i < |members| && members[i].key == key && forall k :: 0 <= k < i ==> members[k].key != key
  }

  lemma {:induction false} FoundFirst(members: seq<Member>, key: string) returns (i: nat)
    requires FindMember(members, key).Success?
    ensures FirstAt(members, i, key) && members[i].value == FindMember(members, key).value
  {
    if members[0].key == key {
      i := 0;
    } else {
      i := FoundFirst(members[1..], key);
      i := i + 1;
    }
  }

  lemma GetIsHolds(j: Json, key: string, v: Json)
    ensures Get(j, key) == Success(v) <==> Holds(j, key, v)
  {
    if Get(j, key) == Success(v) {
      var i := FoundFirst(j.members, key);
    }
    if Holds(j, key, v) {
      var i :| 0 <= i < |j.members| && FirstAt(j.members, i, key) && j.members[i].value == v;
      FindAt(j.members, i);
    }
  }

  /** The judge's reading of one test: all four members are there and of their types, the
      numbers in range, every answer file a string. */
  ghost predicate TestReadsAs(dir: string, tv: Json, e: TestPath) {
    exists id: nat, input: string, outs: seq<Json> :: TestParts(dir, tv, e, id, input, outs)
  }

  ghost predicate TestParts(dir: string, tv: Json, e: TestPath, id: nat, input: string, outs: seq<Json>) {
    && Holds(tv, "id", JNum(id)) && id < 0x1_0000_0000_0000_0000 && e.id == id % 0x1_0000_0000
    && Holds(tv, "scores", JNum(e.scores)) && -0x8000_0000 <= e.scores < 0x8000_0000
    && Holds(tv, "input", JStr(input)) && e.questFile == dir + "\\" + CStr(input)
    && Holds(tv, "outputs", JArr(outs)) && OutputsReadAs(dir, outs, e.answerPaths)
  }

  ghost predicate OutputsReadAs(dir: string, outs: seq<Json>, paths: seq<string>) {
    && |paths| == |outs|
    && forall j :: 0 <= j < |outs| ==> outs[j].JStr? && paths[j] == dir + "\\" + CStr(outs[j].s)
  }

  lemma {:induction false} ReadOutputsExactly(dir: string, outs: seq<Json>, paths: seq<string>)
    ensures ReadOutputs(dir, outs) == Success(paths) <==> OutputsReadAs(dir, outs, paths)
  {
    if outs != [] {
      var n := |outs| - 1;
      if |paths| == |outs| {
        ReadOutputsExactly(dir, outs[..n], paths[..n]);
        assert paths == paths[..n] + [paths[n]];
        assert forall j :: 0 <= j < n ==> outs[..n][j] == outs[j] && paths[..n][j] == paths[j];
      }
      if ReadOutputs(dir, outs).Success? {
        var front := ReadOutputs(dir, outs[..n]).value;
        ReadOutputsExactly(dir, outs[..n], front);
      }
    }
  }

  lemma ReadTestExactly(dir: string, tv: Json, e: TestPath)
    ensures ReadTest(dir, tv) == Success(e) <==> TestReadsAs(dir, tv, e)
  {
    hide FindMember, CStr, Holds, ReadOutputs, OutputsReadAs;
    if ReadTest(dir, tv) == Success(e) {
      var id, input, outs := Get(tv, "id").value, Get(tv, "input").value, Get(tv, "outputs").value;
      GetIsHolds(tv, "id", id);
      GetIsHolds(tv, "scores", Get(tv, "scores").value);
      GetIsHolds(tv, "input", input);
      GetIsHolds(tv, "outputs", outs);
      ReadOutputsExactly(dir, outs.items, e.answerPaths);
      assert TestParts(dir, tv, e, id.n, input.s, outs.items);
    }
    if TestReadsAs(dir, tv, e) {
      var id: nat, input: string, outs: seq<Json> :| TestParts(dir, tv, e, id, input, outs);
      GetIsHolds(tv, "id", JNum(id));
      GetIsHolds(tv, "scores", JNum(e.scores));
      GetIsHolds(tv, "input", JStr(input));
      GetIsHolds(tv, "outputs", JArr(outs));
      ReadOutputsExactly(dir, outs, e.answerPaths);
    }
  }

  ghost predicate AllReadAs(dir: string, items: seq<Json>, tests: seq<TestPath>) {
    |tests| == |items| && forall i :: 0 <= i < |items| ==> TestReadsAs(dir, items[i], tests[i])
  }

  lemma {:induction false} ReadTestsExactly(dir: string, items: seq<Json>, tests: seq<TestPath>)
    ensures ReadTests(dir, items) == Success(tests) <==> AllReadAs(dir, items, tests)
  {
    hide ReadTest, TestReadsAs;
    if items != [] {
      var n := |items| - 1;
      if |tests| == |items| {
        ReadTestsExactly(dir, items[..n], tests[..n]);
        ReadTestExactly(dir, items[n], tests[n]);
        assert tests == tests[..n] + [tests[n]];
        assert forall j :: 0 <= j < n ==> items[..n][j] == items[j] && tests[..n][j] == tests[j];
      }
      if ReadTests(dir, items).Success? {
        ReadTestsExactly(dir, items[..n], ReadTests(dir, items[..n]).value);
      }
    }
  }

  /** The same for the configuration, and for the whole document. */
  ghost predicate ConfigReadsAs(cv: Json, p: ProblemStore) {
    exists input: string, output: string, dir: string, checker: string, items: seq<Json> ::
      ConfigParts(cv, p, input, output, dir, checker, items)
  }

  ghost predicate ConfigParts(cv: Json, p: ProblemStore, input: string, output: string, dir: string,
                              checker: string, items: seq<Json>) {
    && Holds(cv, "time_limit", JNum(p.timeLimit)) && p.timeLimit < 0x1_0000_0000
    && Holds(cv, "memory_limit", JNum(p.memoryLimit)) && p.memoryLimit < 0x1_0000_0000
    && Holds(cv, "input", JStr(input)) && p.inputFileName == CStr(input)
    && Holds(cv, "output", JStr(output)) && p.outputFileName == CStr(output)
    && Holds(cv, "test_dir", JStr(dir))
    && Holds(cv, "checker", JStr(checker)) && p.checkerFilePath == CStr(dir) + "\\" + CStr(checker)
    && Holds(cv, "tests", JArr(items)) && AllReadAs(CStr(dir), items, p.tests)
  }

  lemma ReadProblemExactly(cv: Json, p: ProblemStore)
    ensures ReadProblem(cv) == Success(p) <==> ConfigReadsAs(cv, p)
  {
    hide FindMember, CStr, Holds, ReadTests, AllReadAs;
    if ReadProblem(cv) == Success(p) {
      ReadProblemParts(cv, p);
    }
    if ConfigReadsAs(cv, p) {
      var input: string, output: string, dir: string, checker: string, items: seq<Json> :|
        ConfigParts(cv, p, input, output, dir, checker, items);
      GetIsHolds(cv, "time_limit", JNum(p.timeLimit));
      GetIsHolds(cv, "memory_limit", JNum(p.memoryLimit));
      GetIsHolds(cv, "input", JStr(input));
      GetIsHolds(cv, "output", JStr(output));
      GetIsHolds(cv, "test_dir", JStr(dir));
      GetIsHolds(cv, "checker", JStr(checker));
      GetIsHolds(cv, "tests", JArr(items));
      ReadTestsExactly(CStr(dir), items, p.tests);
    }
  }

  lemma ReadProblemParts(cv: Json, p: ProblemStore)
    requires ReadProblem(cv) == Success(p)
    ensures ConfigReadsAs(cv, p)
  {
    hide FindMember, CStr, Holds, ReadTests, AllReadAs;
    var input, output := Get(cv, "input").value, Get(cv, "output").value;
    var dir, checker, items := Get(cv, "test_dir").value, Get(cv, "checker").value, Get(cv, "tests").value;
    GetIsHolds(cv, "time_limit", Get(cv, "time_limit").value);
    GetIsHolds(cv, "memory_limit", Get(cv, "memory_limit").value);
    GetIsHolds(cv, "input", input);
    GetIsHolds(cv, "output", output);
    GetIsHolds(cv, "test_dir", dir);
    GetIsHolds(cv, "checker", checker);
    GetIsHolds(cv, "tests", items);
    ReadTestsExactly(CStr(dir.s), items.items, p.tests);
    assert ConfigParts(cv, p, input.s, output.s, dir.s, checker.s, items.items);
  }

  ghost predicate DocumentParts(document: Json, c: JudgeConfig, pv: Json, cv: Json, lv: Json,
                                title: string, name: string, template: string) {
    && Holds(document, "problem", pv) && pv.JObj? && Holds(pv, "name", JStr(title))
    && Holds(pv, "config", cv) && cv.JObj? && ConfigReadsAs(cv, c.problem)
    && Holds(document, "language", lv) && lv.JObj?
    && Holds(lv, "name", JStr(name)) && c.compilerName == CStr(name)
    && Holds(lv, "template", JStr(template)) && c.commandTemplate == CStr(template)
  }

  /** On every document, whoever wrote it: the judge accepts it exactly when all members are
      there and of their types and the numbers are in range, and then with these values. */
  lemma ReadConfigExactly(document: Json, c: JudgeConfig)
    ensures ReadConfig(document) == Success(c) <==>
      exists pv, cv, lv, title, name, template :: DocumentParts(document, c, pv, cv, lv, title, name, template)
  {
    hide FindMember, CStr, Holds, ReadProblem, ConfigReadsAs;
    if ReadConfig(document) == Success(c) {
      var pv, lv := Get(document, "problem").value, Get(document, "language").value;
      var title, cv := Get(pv, "name").value, Get(pv, "config").value;
      var name, template := Get(lv, "name").value, Get(lv, "template").value;
      GetIsHolds(document, "problem", pv);
      GetIsHolds(document, "language", lv);
      GetIsHolds(pv, "name", title);
      GetIsHolds(pv, "config", cv);
      GetIsHolds(lv, "name", name);
      GetIsHolds(lv, "template", template);
      ReadProblemExactly(cv, c.problem);
      assert DocumentParts(document, c, pv, cv, lv, title.s, name.s, template.s);
    }
    if exists pv, cv, lv, title, name, template :: DocumentParts(document, c, pv, cv, lv, title, name, template) {
      var pv, cv, lv, title, name, template :| DocumentParts(document, c, pv, cv, lv, title, name, template);
      PartsAreRead(document, c, pv, cv, lv, title, name, template);
    }
  }

  lemma PartsAreRead(document: Json, c: JudgeConfig, pv: Json, cv: Json, lv: Json,
                     title: string, name: string, template: string)
    requires DocumentParts(document, c, pv, cv, lv, title, name, template)
    ensures ReadConfig(document) == Success(c)
  {
    hide FindMember, CStr, Holds, ReadProblem, ConfigReadsAs;
    GetIsHolds(document, "problem", pv);
    GetIsHolds(document, "language", lv);
    GetIsHolds(pv, "name", JStr(title));
    GetIsHolds(pv, "config", cv);
    GetIsHolds(lv, "name", JStr(name));
    GetIsHolds(lv, "template", JStr(template));
    ReadProblemExactly(cv, c.problem);
  }

  // ------------------------------------------------------- writing, then reading

  /** What a loaded test means to the judge. */
  function TestPathOf(dir: string, cht: ChTest): TestPath {
    TestPath(cht.id % U32, cht.scores, RestorePath(dir, CStr(cht.input)),
             [RestorePath(dir, CStr(cht.output))])
  }

  function TestPathsOf(dir: string, chts: seq<ChTest>): (r: seq<TestPath>)
    ensures |r| == |chts| && forall i :: 0 <= i < |chts| ==> r[i] == TestPathOf(dir, chts[i])
  {
    seq(|chts|, i requires 0 <= i < |chts| => TestPathOf(dir, chts[i]))
  }

  function ProblemOf(sol: Solution, testsDir: string): ProblemStore {
    var dir := CStr(TestsDir(testsDir, sol.pt.cid, sol.tid));
    ProblemStore(
      sol.pt.timeLimit, sol.pt.memoryLimit, CStr(sol.pt.input), CStr(sol.pt.output),
      RestorePath(dir, CStr(sol.pt.checker)), TestPathsOf(dir, Flatten(sol.pt.chgs)))
  }

  /** The reader gives back what the solution holds. */
  function JudgeConfigOf(sol: Solution, clngs: map<string, Clng>, testsDir: string): JudgeConfig {
    JudgeConfig(ProblemOf(sol, testsDir), CStr(sol.pl.identifier),
                CStr(Lookup(clngs, sol.pl.identifier).cmd))
  }

  lemma CStrTwice(s: string)
    ensures CStr(CStr(s)) == CStr(s)
  {
    CStrFixed(CStr(s));
  }

  lemma ReadWrittenTest(dir: string, cht: ChTest)
    ensures ReadTest(dir, TestJson(cht)) == Success(TestPathOf(dir, cht))
  {
    hide CStr, RestorePath, FindMember, ReadOutputs;
    var ms := TestJson(cht).members;
    CStrTwice(cht.input);
    CStrTwice(cht.output);
    FindAt(ms, 0);
    FindAt(ms, 1);
    FindAt(ms, 2);
    FindAt(ms, 3);
    ReadOneOutput(dir, CStr(cht.output));
    assert cht.id % U64 % U32 == cht.id % U32;
  }

  lemma ReadOneOutput(dir: string, name: string)
    ensures ReadOutputs(dir, [JStr(name)]) == Success([RestorePath(dir, CStr(name))])
  {
    var outs := [JStr(name)];
    assert outs[..|outs| - 1] == [];
    assert ReadOutputs(dir, []) == Success([]);
    assert [] + [RestorePath(dir, CStr(name))] == [RestorePath(dir, CStr(name))];
  }

  /** A member is found under its name when no earlier one has that name. */
  lemma {:induction false} FindAt(ms: seq<Member>, i: nat)
    requires i < |ms| && forall j :: 0 <= j < i ==> ms[j].key != ms[i].key
    ensures FindMember(ms, ms[i].key) == Success(ms[i].value)
  {
    if i > 0 {
      FindAt(ms[1..], i - 1);
    }
  }

  lemma {:induction false} ReadWrittenTests(dir: string, chts: seq<ChTest>)
    ensures ReadTests(dir, TestsJson(chts)) == Success(TestPathsOf(dir, chts))
  {
    hide ReadTest, TestJson, TestPathOf, TestsJson, TestPathsOf;
    if chts != [] {
      var n := |chts| - 1;
      ReadWrittenTests(dir, chts[..n]);
      ReadWrittenTest(dir, chts[n]);
      assert TestsJson(chts)[..n] == TestsJson(chts[..n]);
      assert TestPathsOf(dir, chts) == TestPathsOf(dir, chts[..n]) + [TestPathOf(dir, chts[n])];
    }
  }

  lemma ConfigLimits(sol: Solution, testsDir: string)
    ensures var cv := ConfigJson(sol, testsDir);
      && Get(cv, "time_limit") == Success(JNum(sol.pt.timeLimit))
      && Get(cv, "memory_limit") == Success(JNum(sol.pt.memoryLimit))
      && Get(cv, "input") == Success(JStr(CStr(sol.pt.input)))
      && Get(cv, "output") == Success(JStr(CStr(sol.pt.output)))
  {
    var ms := ConfigJson(sol, testsDir).members;
    FindAt(ms, 0);
    FindAt(ms, 1);
    FindAt(ms, 2);
    FindAt(ms, 3);
  }

  lemma ConfigPaths(sol: Solution, testsDir: string)
    ensures var cv := ConfigJson(sol, testsDir);
      && Get(cv, "test_dir") == Success(JStr(CStr(TestsDir(testsDir, sol.pt.cid, sol.tid))))
      && Get(cv, "checker") == Success(JStr(CStr(sol.pt.checker)))
      && Get(cv, "tests") == Success(JArr(TestsJson(Flatten(sol.pt.chgs))))
  {
    var ms := ConfigJson(sol, testsDir).members;
    FindAt(ms, 4);
    FindAt(ms, 5);
    FindAt(ms, 6);
  }

  lemma ReadProblemFrom(cv: Json, timeLimit: nat, memoryLimit: nat, input: string, output: string,
                        dir: string, checker: string, chts: seq<ChTest>)
    requires Get(cv, "time_limit") == Success(JNum(timeLimit))
    requires Get(cv, "memory_limit") == Success(JNum(memoryLimit))
    requires Get(cv, "input") == Success(JStr(input))
    requires Get(cv, "output") == Success(JStr(output))
    requires Get(cv, "test_dir") == Success(JStr(dir))
    requires Get(cv, "checker") == Success(JStr(checker))
    requires Get(cv, "tests") == Success(JArr(TestsJson(chts)))
    ensures ReadProblem(cv) ==
      if timeLimit < U32 && memoryLimit < U32
      then Success(ProblemStore(timeLimit, memoryLimit, CStr(input), CStr(output),
                                RestorePath(CStr(dir), CStr(checker)), TestPathsOf(CStr(dir), chts)))
      else Failure(AssertionFailed)
  {
    hide Get, ReadTests, CStr;
    ReadWrittenTests(CStr(dir), chts);
  }

  lemma ReadWrittenProblem(sol: Solution, testsDir: string)
    ensures ReadProblem(ConfigJson(sol, testsDir)) ==
      if sol.pt.timeLimit < U32 && sol.pt.memoryLimit < U32 then Success(ProblemOf(sol, testsDir))
      else Failure(AssertionFailed)
  {
    var dir := TestsDir(testsDir, sol.pt.cid, sol.tid);
    ConfigLimits(sol, testsDir);
    ConfigPaths(sol, testsDir);
    ReadProblemFrom(ConfigJson(sol, testsDir), sol.pt.timeLimit, sol.pt.memoryLimit,
                    CStr(sol.pt.input), CStr(sol.pt.output), CStr(dir), CStr(sol.pt.checker),
                    Flatten(sol.pt.chgs));
    CStrTwice(dir);
    CStrTwice(sol.pt.input);
    CStrTwice(sol.pt.output);
    CStrTwice(sol.pt.checker);
  }

  /** Reading the written document gives back all that the solution holds of it: limits,
      paths, checker, language and the full test list. The judge accepts it exactly when
      both limits fit the 32 bits it reads them into. */
  lemma ReadWrittenDocument(sol: Solution, clngs: map<string, Clng>, testsDir: string)
    ensures ReadTitle(DocumentJson(sol, clngs, testsDir)) == Success(CStr(sol.pt.title))
    ensures ReadConfig(DocumentJson(sol, clngs, testsDir)) ==
      if sol.pt.timeLimit < U32 && sol.pt.memoryLimit < U32
      then Success(JudgeConfigOf(sol, clngs, testsDir))
      else Failure(AssertionFailed)
  {
    ReadWrittenProblem(sol, testsDir);
    CStrTwice(sol.pt.title);
    CStrTwice(sol.pl.identifier);
    CStrTwice(Lookup(clngs, sol.pl.identifier).cmd);
    FindAt(DocumentJson(sol, clngs, testsDir).members, 0);
    FindAt(DocumentJson(sol, clngs, testsDir).members, 1);
    FindAt(ProblemJson(sol, testsDir).members, 0);
    FindAt(ProblemJson(sol, testsDir).members, 1);
    FindAt(LanguageJson(sol, clngs).members, 0);
    FindAt(LanguageJson(sol, clngs).members, 1);
  }

  /** What the judge is told about the tests `chts` in directory `dir`. */
  ghost predicate TestsRead(tests: seq<TestPath>, dir: string, chts: seq<ChTest>) {
    && |tests| == |chts|
    && forall i :: 0 <= i < |chts| ==>
      && tests[i].id == chts[i].id % 0x1_0000_0000
      && tests[i].scores == chts[i].scores
      && tests[i].questFile == dir + "\\" + CStr(chts[i].input)
      && tests[i].answerPaths == [dir + "\\" + CStr(chts[i].output)]
  }

  /** From any token sequence the writer produced: it parses, and to what the solution
      holds, with every path inside the tests directory. */
  lemma ConfigRoundTrip(sol: Solution, clngs: map<string, Clng>, testsDir: string, tokens: seq<Token>)
    requires tokens == Emit(DocumentJson(sol, clngs, testsDir))
    ensures Parse(tokens).Some?
    ensures ReadTitle(Parse(tokens).value) == Success(CStr(sol.pt.title))
    ensures ReadConfig(Parse(tokens).value).Success?
            <==> sol.pt.timeLimit < 0x1_0000_0000 && sol.pt.memoryLimit < 0x1_0000_0000
    ensures ReadConfig(Parse(tokens).value).Success? ==>
      var read := ReadConfig(Parse(tokens).value).value;
      var dir := CStr(TestsDir(testsDir, sol.pt.cid, sol.tid));
      && read.compilerName == CStr(sol.pl.identifier)
      && read.commandTemplate == CStr(if sol.pl.identifier in clngs then clngs[sol.pl.identifier].cmd else "")
      && read.problem.timeLimit == sol.pt.timeLimit && read.problem.memoryLimit == sol.pt.memoryLimit
      && read.problem.inputFileName == CStr(sol.pt.input)
      && read.problem.outputFileName == CStr(sol.pt.output)
      && read.problem.checkerFilePath == dir + "\\" + CStr(sol.pt.checker)
      && TestsRead(read.problem.tests, dir, Flatten(sol.pt.chgs))
  {
    ParseIsInverseOfEmit(tokens, DocumentJson(sol, clngs, testsDir));
    ReadWrittenDocument(sol, clngs, testsDir);
    TestPathsAreRead(CStr(TestsDir(testsDir, sol.pt.cid, sol.tid)), Flatten(sol.pt.chgs));
  }

  lemma TestPathsAreRead(dir: string, chts: seq<ChTest>)
    ensures TestsRead(TestPathsOf(dir, chts), dir, chts)
  {
  }

  /** A signed column read into an unsigned field is below 2^32 exactly when it was a
      32-bit natural number. */
  lemma LimitFits(x: Int64)
    ensures x % U64 < U32 <==> 0 <= x < U32
    ensures 0 <= x ==> x % U64 == x
  {
  }

  lemma LoadedParts(t: Tables, id: int)
    requires LoadSolution(t, id).Success?
    ensures var sol := LoadSolution(t, id).value;
      var row := t.solutions[id];
      && id in t.solutions && sol.tid == ToInt32(row.tid) && sol.tid in t.tasks
      && LoadTask(t, sol.tid) == Success(sol.pt)
      && sol.pt.cid == ToInt32(t.tasks[sol.tid].cid)
      && sol.pt.timeLimit == t.tasks[sol.tid].timeLimit % U64
      && sol.pt.memoryLimit == t.tasks[sol.tid].memoryLimit % U64
      && sol.pt.checker == CStr(t.tasks[sol.tid].checker)
      && LoadLang(t, ToInt32(row.lid)) == Success(sol.pl)
      && sol.code == CStr(row.code)
  {
  }

  /** A test as the judge is told, from its row. */
  ghost predicate RowRead(test: TestPath, dir: string, row: Row<CaseData>) {
    && test.id == row.id % 0x1_0000_0000
    && test.scores == ToInt32(row.data.scores)
    && test.questFile == dir + "\\" + CStr(row.data.input)
    && test.answerPaths == [dir + "\\" + CStr(row.data.output)]
  }

  lemma RowsAreRead(dir: string, rows: seq<Row<CaseData>>)
    ensures var tests := TestPathsOf(dir, ToChTests(rows));
      |tests| == |rows| && forall i :: 0 <= i < |rows| ==> RowRead(tests[i], dir, rows[i])
  {
    forall i | 0 <= i < |rows|
      ensures RowRead(TestPathsOf(dir, ToChTests(rows))[i], dir, rows[i])
    {
      CStrTwice(rows[i].data.input);
      CStrTwice(rows[i].data.output);
      assert ToInt32(rows[i].id) % U32 == rows[i].id % U32;
    }
  }

  /** From the database to the judge: when the rows listed for a solution are found by their
      `int` identifiers, its file is accepted exactly when both limit columns are in
      [0, 2^32), and then the judge gets those limits, the task's checker and exactly the
      joined test rows, in order, with their paths inside the tests directory. */
  lemma DatabaseToJudge(t: Tables, id: int, clngs: map<string, Clng>, testsDir: string)
    requires RowsPresent(t, id) && GroupsReadOwn(t, ToInt32(t.solutions[id].tid))
    requires AllFound(t.tests, OwnedIds(t.tests, id))
    ensures LoadSolution(t, id).Success?
    ensures
      var sol := LoadSolution(t, id).value;
      var tid := ToInt32(t.solutions[id].tid);
      var row := t.tasks[tid];
      var dir := CStr(TestsDir(testsDir, ToInt32(row.cid), tid));
      var rows := JoinRows(Owned(t.groups, tid), t.cases);
      var read := ReadConfig(DocumentJson(sol, clngs, testsDir));
      && (read.Success? <==> 0 <= row.timeLimit < 0x1_0000_0000 && 0 <= row.memoryLimit < 0x1_0000_0000)
      && (read.Success? ==>
          && read.value.problem.timeLimit == row.timeLimit
          && read.value.problem.memoryLimit == row.memoryLimit
          && read.value.problem.checkerFilePath == dir + "\\" + CStr(row.checker)
          && |read.value.problem.tests| == |rows|
          && forall i :: 0 <= i < |rows| ==> RowRead(read.value.problem.tests[i], dir, rows[i]))
  {
    hide Owned, OwnedIds, Fetch, FetchAll, JoinRows, DocumentJson, ReadConfig, TestsDir, TestPathsOf, Flatten;
    LoadIsJoin(t, ToInt32(t.solutions[id].tid));
    FetchAllSucceeds(t.tests, OwnedIds(t.tests, id));
    LoadedParts(t, id);
    var sol := LoadSolution(t, id).value;
    ReadWrittenDocument(sol, clngs, testsDir);
    CStrTwice(t.tasks[sol.tid].checker);
    RowsAreRead(CStr(TestsDir(testsDir, sol.pt.cid, sol.tid)), JoinRows(Owned(t.groups, sol.tid), t.cases));
    LimitFits(t.tasks[sol.tid].timeLimit);
    LimitFits(t.tasks[sol.tid].memoryLimit);
  }
}
