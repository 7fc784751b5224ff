/**
  api.go: `Run`, the entry point for callers that already hold parsed files.
  It builds a Parser with an empty path, filters the files by name, walks
  every remaining file with a visitor whose package name is empty, and turns
  the recorded strings into numbered issues.
*/
module Api {
  import opened Wrappers
  import opened GoLib
  import opened Ast
  import opened Parser
  import opened Visitor

  /** One reported string: where it is, its text, its package, and its rank
      among all strings reported by the run. */
  datatype Issue = Issue(pos: Position, str: string, packageName: string, index: int)

  /** The caller's configuration. */
  datatype Config = Config(ignoreTests: bool, invalidStrReg: string, skipFile: string, excludeTypes: map<Type, bool>)

  function ToIssue(s: InvalidString, i: int): Issue
  {
    Issue(s.position, s.str, s.packageName, i)
  }

  /** The issues for the recorded strings, numbered from zero in recording order. */
  function ToIssues(strs: seq<InvalidString>): (r: seq<Issue>)
    ensures |r| == |strs|
    decreases |strs|
  {
    if strs == [] then []
    else ToIssues(strs[..|strs| - 1]) + [ToIssue(strs[|strs| - 1], |strs| - 1)]
  }

  lemma {:induction false} ToIssuesAt(strs: seq<InvalidString>, k: int)
    requires 0 <= k < |strs|
    ensures ToIssues(strs)[k] == Issue(strs[k].position, strs[k].str, strs[k].packageName, k)
    decreases |strs|
  {
    if k < |strs| - 1 {
      var prefix := strs[..|strs| - 1];
      ToIssuesAt(prefix, k);
    }
  }

  /** The strings an issue list was made from; it exists only so that
      IssuesRoundTrip can state that numbering loses nothing. */
  function FromIssues(issues: seq<Issue>): (r: seq<InvalidString>)
    ensures |r| == |issues|
    ensures forall k | 0 <= k < |issues| :: r[k] == InvalidString(issues[k].str, issues[k].pos, issues[k].packageName)
  {
    seq(|issues|, k requires 0 <= k < |issues| => InvalidString(issues[k].str, issues[k].pos, issues[k].packageName))
  }

  /** Numbering loses nothing: every recorded string can be read back from its issue. */
  lemma IssuesRoundTrip(strs: seq<InvalidString>)
    ensures FromIssues(ToIssues(strs)) == strs
  {
    forall k | 0 <= k < |strs| ensures FromIssues(ToIssues(strs))[k] == strs[k] {
      ToIssuesAt(strs, k);
    }
  }

  /** A prefix of the strings gives a prefix of the issues. */
  lemma {:induction false} ToIssuesPrefix(a: seq<InvalidString>, b: seq<InvalidString>)
    ensures ToIssues(a) <= ToIssues(a + b)
  {
    var r, r' := ToIssues(a), ToIssues(a + b);
    forall k | 0 <= k < |a| ensures r[k] == r'[k] {
      ToIssuesAt(a, k);
      ToIssuesAt(a + b, k);
    }
  }

  /** Run skips a file when tests are ignored and its name ends in "_test.go",
      or when the skip pattern matches its name. */
  predicate Skipped(lib: Lib, cfg: Config, f: AstFile)
  {
    (cfg.ignoreTests && HasSuffix(f.filename, TestSuffix))
    || (|cfg.skipFile| != 0 && MatchString(lib, Regexp(cfg.skipFile), f.filename))
  }

  /** The files Run walks, in the order given. */
  function SelectFiles(lib: Lib, cfg: Config, files: seq<AstFile>): (r: seq<AstFile>)
    ensures |r| <= |files|
    decreases |files|
  {
    if files == [] then []
    else
      var rest := SelectFiles(lib, cfg, files[..|files| - 1]);
      var last := files[|files| - 1];
      if Skipped(lib, cfg, last) then rest else rest + [last]
  }

  /** A file is walked iff it is given and not skipped. */
  lemma {:induction false} SelectFilesMembership(lib: Lib, cfg: Config, files: seq<AstFile>, f: AstFile)
    ensures f in SelectFiles(lib, cfg, files) <==> f in files && !Skipped(lib, cfg, f)
    decreases |files|
  {
    if files != [] {
      var prefix := files[..|files| - 1];
      assert files == prefix + [files[|files| - 1]];
      SelectFilesMembership(lib, cfg, prefix, f);
    }
  }

  /** Selecting from two lists of files one after the other keeps their order. */
  lemma {:induction false} SelectFilesAppend(lib: Lib, cfg: Config, a: seq<AstFile>, b: seq<AstFile>)
    ensures SelectFiles(lib, cfg, a + b) == SelectFiles(lib, cfg, a) + SelectFiles(lib, cfg, b)
    decreases |b|
  {
    if b == [] {
      assert a + b == a;
    } else {
      var b', last := b[..|b| - 1], b[|b| - 1];
      assert (a + b)[..|a + b| - 1] == a + b';
      SelectFilesAppend(lib, cfg, a, b');
      if !Skipped(lib, cfg, last) {
        AppendAssoc(SelectFiles(lib, cfg, a), SelectFiles(lib, cfg, b'), [last]);
      }
    }
  }

  /** The settings of the visitors Run builds: the Parser's, with no package name. */
  function RunSettings(lib: Lib, cfg: Config): Settings
  {
    Settings(lib, cfg.excludeTypes, Regexp(InvalidPattern(cfg.invalidStrReg)), "")
  }

  /** What Run returns: the error of the string pattern, then the error of a
      non-empty skip pattern, otherwise the issues of every walked file. */
  function RunSpec(lib: Lib, files: seq<AstFile>, cfg: Config): (r: Result<seq<Issue>, Error>)
    ensures r.Failure? <==>
      Compile(lib, InvalidPattern(cfg.invalidStrReg)).Failure? || (|cfg.skipFile| != 0 && Compile(lib, cfg.skipFile).Failure?)
    ensures r.Failure? && Compile(lib, InvalidPattern(cfg.invalidStrReg)).Failure? ==>
      r.error == RegexpError(InvalidPattern(cfg.invalidStrReg))
    ensures r.Failure? && Compile(lib, InvalidPattern(cfg.invalidStrReg)).Success? ==>
      r.error == RegexpError(cfg.skipFile)
  {
    if Compile(lib, InvalidPattern(cfg.invalidStrReg)).Failure? then Failure(RegexpError(InvalidPattern(cfg.invalidStrReg)))
    else if |cfg.skipFile| != 0 && Compile(lib, cfg.skipFile).Failure? then Failure(RegexpError(cfg.skipFile))
    else Success(ToIssues(CollectFiles(RunSettings(lib, cfg), SelectFiles(lib, cfg, files))))
  }

  // ---------------------------------------------------------------------
  // Properties

  /** Every issue is numbered by its place, has a non-empty text that the
      pattern matches, and has an empty package name, since Run does not
      know the package. */
  lemma RunIssuesValid(lib: Lib, files: seq<AstFile>, cfg: Config, k: int)
    requires RunSpec(lib, files, cfg).Success? && 0 <= k < |RunSpec(lib, files, cfg).value|
    ensures RunSpec(lib, files, cfg).value[k].index == k
    ensures RunSpec(lib, files, cfg).value[k].packageName == ""
    ensures RunSpec(lib, files, cfg).value[k].str != []
    ensures MatchString(lib, Regexp(InvalidPattern(cfg.invalidStrReg)), RunSpec(lib, files, cfg).value[k].str)
  {
    var c := RunSettings(lib, cfg);
    var strs := CollectFiles(c, SelectFiles(lib, cfg, files));
    ToIssuesAt(strs, k);
    CollectFilesValid(c, SelectFiles(lib, cfg, files), strs[k]);
  }

  /** Issues of earlier files come first: running over more files only adds issues at the end. */
  lemma RunIsMonotone(lib: Lib, a: seq<AstFile>, b: seq<AstFile>, cfg: Config)
    requires RunSpec(lib, a, cfg).Success?
    ensures RunSpec(lib, a + b, cfg).Success?
    ensures RunSpec(lib, a, cfg).value <= RunSpec(lib, a + b, cfg).value
  {
    var c := RunSettings(lib, cfg);
    SelectFilesAppend(lib, cfg, a, b);
    CollectFilesAppend(c, SelectFiles(lib, cfg, a), SelectFiles(lib, cfg, b));
    ToIssuesPrefix(CollectFiles(c, SelectFiles(lib, cfg, a)), CollectFiles(c, SelectFiles(lib, cfg, b)));
  }

  /** When every file is skipped, Run reports nothing. */
  lemma {:induction false} RunAllSkipped(lib: Lib, files: seq<AstFile>, cfg: Config)
    requires RunSpec(lib, files, cfg).Success?
    requires forall i | 0 <= i < |files| :: Skipped(lib, cfg, files[i])
    ensures RunSpec(lib, files, cfg).value == []
  {
    if SelectFiles(lib, cfg, files) != [] {
      var f := SelectFiles(lib, cfg, files)[0];
      SelectFilesMembership(lib, cfg, files, f);
      assert false;
    }
  }

  // ---------------------------------------------------------------------
  // The method

  lemma SelectFilesPrefix(lib: Lib, cfg: Config, files: seq<AstFile>, i: int)
    requires 0 <= i < |files|
    ensures Skipped(lib, cfg, files[i]) ==> SelectFiles(lib, cfg, files[..i + 1]) == SelectFiles(lib, cfg, files[..i])
    ensures !Skipped(lib, cfg, files[i]) ==>
      SelectFiles(lib, cfg, files[..i + 1]) == SelectFiles(lib, cfg, files[..i]) + [files[i]]
  {
    assert files[..i + 1][..i] == files[..i];
  }

  /** The loop of Run over the files: skip by name, otherwise walk the file
      with a visitor that has no package or file name. */
  method WalkFiles(p: Parser, lib: Lib, cfg: Config, skipFileReg: Option<Regexp>, files: seq<AstFile>)
    requires FilesWellFormed(files)
    requires p.lib == lib && p.ignoreTests == cfg.ignoreTests && p.excludeTypes == cfg.excludeTypes
    requires p.invalidStrReg == Regexp(InvalidPattern(cfg.invalidStrReg))
    requires skipFileReg == if |cfg.skipFile| > 0 then Some(Regexp(cfg.skipFile)) else None
    modifies p`strs
    ensures p.strs == old(p.strs) + CollectFiles(RunSettings(lib, cfg), SelectFiles(lib, cfg, files))
  {
    ghost var c := RunSettings(lib, cfg);
    for i := 0 to |files|
      invariant p.strs == old(p.strs) + CollectFiles(c, SelectFiles(lib, cfg, files[..i]))
    {
      var f := files[i];
      ghost var sel := SelectFiles(lib, cfg, files[..i]);
      SelectFilesPrefix(lib, cfg, files, i);
      if p.ignoreTests {
        if HasSuffix(f.filename, TestSuffix) {
          continue;
        }
      }
      if skipFileReg.Some? {
        if MatchString(lib, skipFileReg.value, f.filename) {
          continue;
        }
      }
      var v := new TreeVisitor(p, "", "");
      Walk(v, f.root);
      CollectFilesSnoc(c, sel, f);
      AppendAssoc(old(p.strs), CollectFiles(c, sel), Collect(c, f.root));
    }
    assert files[..|files|] == files;
  }

  /** The loop of Run that numbers the recorded strings. */
  method NumberIssues(strs: seq<InvalidString>) returns (issues: seq<Issue>)
    ensures issues == ToIssues(strs)
  {
    issues := [];
    for i := 0 to |strs|
      invariant issues == ToIssues(strs[..i])
    {
      assert strs[..i + 1][..i] == strs[..i];
      issues := issues + [ToIssue(strs[i], i)];
    }
    assert strs[..|strs|] == strs;
  }

  /** Run: construct the Parser, compile the skip pattern, walk the selected
      files and number what was recorded. */
  method Run(lib: Lib, files: seq<AstFile>, cfg: Config) returns (r: Result<seq<Issue>, Error>)
    requires FilesWellFormed(files)
    ensures r == RunSpec(lib, files, cfg)
  {
    var p, err := New(lib, "", cfg.skipFile, cfg.ignoreTests, cfg.excludeTypes, cfg.invalidStrReg);
    if err.Some? {
      return Failure(err.value);
    }
    var skipFileReg: Option<Regexp> := None;
    if |p.skipFile| > 0 {
      var reg := Compile(lib, p.skipFile);
      if reg.Failure? {
        return Failure(reg.error);
      }
      skipFileReg := Some(reg.value);
    }
    WalkFiles(p, lib, cfg, skipFileReg, files);
    assert p.strs == CollectFiles(RunSettings(lib, cfg), SelectFiles(lib, cfg, files));
    var issues := NumberIssues(p.strs);
    return Success(issues);
  }
}
