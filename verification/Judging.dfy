/** One solution's run: its source and configuration are written to files with fixed
    names, the judge is started, the result is read back, the files are removed and the
    result is stored. */
module Judging {
  import opened Tables
  import opened Loading
  import opened Json
  import opened Config

  /** A file holds text, or a document the contester has written. */
  datatype Content = Text(text: string) | Document(tokens: seq<Token>)

  type Files = map<string, Content>

  const SRC_NAME := "solution"
  const CFG_NAME := "solution.json"
  const RES_NAME := "result.json"

  /** What a judge does to the result file. */
  datatype Verdict = Wrote(text: string) | Untouched | Deleted

  /** What the outside does during one run: the judge's effect on the result file, the state
      it left all other files in, and which of the three `remove` calls succeeded. */
  datatype JudgeRun = JudgeRun(
    verdict: Verdict, others: Files, srcGone: bool, cfgGone: bool, resGone: bool)

  function AfterJudge(before: Files, j: JudgeRun): Files {
    var others := j.others - {RES_NAME};
    match j.verdict
    case Wrote(text) => others[RES_NAME := Text(text)]
    case Untouched => if RES_NAME in before then others[RES_NAME := before[RES_NAME]] else others
    case Deleted => others
  }

  function Removed(files: Files, name: string, gone: bool): Files {
    if gone then files - {name} else files
  }

  /** All characters of a text file; nothing when there is no such file. */
  function ReadText(files: Files, name: string): string {
    if name in files && files[name].Text? then files[name].text else ""
  }

  /** What one run does: the files the judge found, the files that remain, and the text
      that is to be stored. */
  datatype Outcome = Outcome(seen: Files, left: Files, result: string)

  function RunOutcome(files: Files, src: string, code: string, doc: seq<Token>, j: JudgeRun): Outcome {
    var seen := Prepared(files, src, code, doc);
    var judged := Cleaned(seen, src, j);
    Outcome(seen, Removed(judged, RES_NAME, j.resGone), ReadText(judged, RES_NAME))
  }

  /** The files when the judge starts. */
  function Prepared(files: Files, src: string, code: string, doc: seq<Token>): Files {
    files[src := Text(CStr(code))][CFG_NAME := Document(doc)]
  }

  /** The files when the judge has ended and its input has been removed. */
  function Cleaned(seen: Files, src: string, j: JudgeRun): Files {
    Removed(Removed(AfterJudge(seen, j), src, j.srcGone), CFG_NAME, j.cfgGone)
  }

  /** UPDATE solutions SET result, status = 1 WHERE id. */
  function SaveResult(t: Tables, id: int, result: string): Tables {
    if id in t.solutions then
      t.(solutions := t.solutions[id := t.solutions[id].(result := result, status := STATUS_CHECKED)])
    else t
  }

  /** The source file's name: the fixed stem with the language's extension. */
  function SrcName(clngs: map<string, Clng>, identifier: string): string {
    SRC_NAME + Lookup(clngs, identifier).ext
  }

  /** `clngs[identifier]` on a missing key inserts it. */
  function Touch(clngs: map<string, Clng>, identifier: string): (r: map<string, Clng>)
    ensures forall k :: Lookup(r, k) == Lookup(clngs, k)
  {
    if identifier in clngs then clngs else clngs[identifier := Clng("", "")]
  }

  // ------------------------------------------------------------- three file names

  lemma NamesDiffer(ext: string)
    ensures SRC_NAME == "solution" && CFG_NAME == "solution.json" && RES_NAME == "result.json"
    ensures SRC_NAME + ext == CFG_NAME <==> ext == ".json"
    ensures SRC_NAME + ext != RES_NAME && CFG_NAME != RES_NAME
  {
    assert CFG_NAME == SRC_NAME + ".json";
    assert (SRC_NAME + ext)[|SRC_NAME|..] == ext;
    assert CFG_NAME[|SRC_NAME|..] == ".json";
    assert (SRC_NAME + ext)[0] == 's' && CFG_NAME[0] == 's' && RES_NAME[0] == 'r';
  }

  /** The judge finds the solution's own configuration; it finds the solution's own source
      exactly when the language's extension is not ".json"; and every other file, a result
      file among them, as it was. */
  lemma JudgeSeesOwnInput(files: Files, ext: string, code: string, doc: seq<Token>, j: JudgeRun)
    ensures var src := "solution" + ext;
      var seen := RunOutcome(files, src, code, doc, j).seen;
      && "solution.json" in seen && seen["solution.json"] == Document(doc)
      && src in seen && (seen[src] == Text(CStr(code)) <==> ext != ".json")
      && (forall name :: name != src && name != "solution.json" ==>
          (name in seen <==> name in files) && (name in seen ==> seen[name] == files[name]))
      && ("result.json" in seen <==> "result.json" in files)
  {
    NamesDiffer(ext);
  }

  /** The stored text is what the judge wrote; if it left the result file alone, it is
      whatever an earlier run left in that file. */
  lemma StoredText(files: Files, ext: string, code: string, doc: seq<Token>, j: JudgeRun)
    ensures RunOutcome(files, "solution" + ext, code, doc, j).result ==
      match j.verdict
      case Wrote(text) => text
      case Untouched =>
        if "result.json" in files && files["result.json"].Text? then files["result.json"].text else ""
      case Deleted => ""
  {
    NamesDiffer(ext);
  }

  /** Each file is gone afterwards if its `remove` succeeded; the result file, exactly if it
      did or if the judge left none; all else is as the judge left it. */
  lemma FilesLeft(files: Files, ext: string, code: string, doc: seq<Token>, j: JudgeRun)
    ensures var src := "solution" + ext;
      var left := RunOutcome(files, src, code, doc, j).left;
      && (j.srcGone ==> src !in left)
      && (j.cfgGone ==> "solution.json" !in left)
      && ("result.json" !in left <==>
          j.resGone || j.verdict.Deleted? || (j.verdict.Untouched? && "result.json" !in files))
      && (forall name :: name != "result.json" ==>
          (name in left <==>
            name in j.others && !(j.srcGone && name == src) && !(j.cfgGone && name == "solution.json"))
          && (name in left ==> left[name] == j.others[name]))
  {
    NamesDiffer(ext);
  }

  /** The configured texts of a language: its extension names the source file, and its
      command template is what the judge is told; a language that is not configured has
      neither. */
  lemma LanguageIsUsed(sol: Solution, clngs: map<string, Clng>, testsDir: string)
    ensures var lang := sol.pl.identifier;
      var read := ReadConfig(DocumentJson(sol, clngs, testsDir));
      && SrcName(clngs, lang) == "solution" + (if lang in clngs then clngs[lang].ext else "")
      && (read.Success? ==>
          read.value.commandTemplate == if lang in clngs then CStr(clngs[lang].cmd) else "")
      && Touch(clngs, lang) == if lang in clngs then clngs else clngs[lang := Clng("", "")]
  {
    ReadWrittenDocument(sol, clngs, testsDir);
  }

  // ------------------------------------------------------------ the program's state

  class Host {
    var tables: Tables
    var files: Files
    var clngs: map<string, Clng>
    const testsDir: string

    constructor (tables: Tables, files: Files, clngs: map<string, Clng>, testsDir: string)
      ensures this.tables == tables && this.files == files
      ensures this.clngs == clngs && this.testsDir == testsDir
    {
      this.tables, this.files, this.clngs, this.testsDir := tables, files, clngs, testsDir;
    }

    /** Reads a file character by character. */
    method ReadFile(name: string) returns (text: string)
      ensures text == ReadText(files, name)
    {
      text := "";
      if name in files && files[name].Text? {
        var content := files[name].text;
        for i := 0 to |content|
          invariant text == content[..i]
        {
          text := text + [content[i]];
        }
      }
    }
  }

  /** Owns the solution it judges. */
  class Checker {
    var sol: Solution
    var src: string

    constructor (ps: Solution, host: Host)
      modifies host`clngs
      ensures sol == ps && src == SrcName(old(host.clngs), ps.pl.identifier)
      ensures host.clngs == Touch(old(host.clngs), ps.pl.identifier)
    {
      sol := ps;
      src := SRC_NAME + Lookup(host.clngs, ps.pl.identifier).ext;
      new;
      host.clngs := Touch(host.clngs, ps.pl.identifier);
    }

    /** `create_src` and `create_cfg_json`. */
    method CreateFiles(host: Host) returns (doc: seq<Token>)
      modifies host`files
      ensures doc == Emit(DocumentJson(sol, host.clngs, host.testsDir))
      ensures host.files == Prepared(old(host.files), src, sol.code, doc)
    {
      host.files := host.files[src := Text(CStr(sol.code))];
      doc := CreateCfgJson(sol, host.clngs, host.testsDir);
      host.files := host.files[CFG_NAME := Document(doc)];
    }

    /** `system` and the two `remove` calls after it. */
    method RunJudge(host: Host, j: JudgeRun)
      modifies host`files
      ensures host.files == Cleaned(old(host.files), src, j)
    {
      host.files := AfterJudge(host.files, j);
      host.files := Removed(host.files, src, j.srcGone);
      host.files := Removed(host.files, CFG_NAME, j.cfgGone);
    }

    /** `run`. What the judge does, which `remove` calls succeed and whether the update does
        is up to the outside; `saved` is false when the update threw. */
    method Run(host: Host, j: JudgeRun, update: bool) returns (saved: bool, ghost doc: seq<Token>)
      modifies this`sol, host`files, host`tables
      ensures doc == Emit(DocumentJson(old(sol), host.clngs, host.testsDir))
      ensures saved == update
      ensures var outcome := RunOutcome(old(host.files), src, old(sol).code, doc, j);
        && host.files == outcome.left
        && sol == old(sol).(result := outcome.result)
        && host.tables == if update then SaveResult(old(host.tables), sol.id, outcome.result)
                          else old(host.tables)
    {
      doc := CreateFiles(host);
      RunJudge(host, j);
      var text := host.ReadFile(RES_NAME);
      sol := sol.(result := text);
      host.files := Removed(host.files, RES_NAME, j.resGone);
      saved := Save(host, update);
    }

    /** `update`: it happens, or it throws and changes nothing. */
    method Save(host: Host, update: bool) returns (saved: bool)
      modifies host`tables
      ensures saved == update
      ensures host.tables == if update then SaveResult(old(host.tables), sol.id, sol.result) else old(host.tables)
    {
      if update {
        host.tables := SaveResult(host.tables, sol.id, sol.result);
      }
      saved := update;
    }
  }
}
