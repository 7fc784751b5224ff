/**
  parser.go: the Parser object that accumulates invalid strings, its
  construction (`New`), the categories of string occurrence (`Type`), the
  result record (`InvalidString`), the test that selects a recursive walk, and
  the per-file filter handed to the directory parser.

  The walk over directories and files (`ParseTree`, `parseDir`) needs the
  visitor and is in module Scan.
*/
module Parser {
  import opened Wrappers
  import opened GoLib
  import opened Ast

  /** The name suffix of Go test files. */
  const TestSuffix: string := "_test.go"

  /** The syntactic slot a string literal occurs in. */
  datatype Type = Assignment | Binary | Case | Return | Call | Const
  {
    /** The value of the Go constant, numbered by `iota` in declaration order. */
    function Ordinal(): (k: int)
      ensures 0 <= k < 6
    {
      match this
      case Assignment => 0
      case Binary => 1
      case Case => 2
      case Return => 3
      case Call => 4
      case Const => 5
    }
  }

  /** The category with a given integer value, if there is one. */
  function TypeOf(k: int): (t: Option<Type>)
    ensures t.Some? <==> 0 <= k < 6
    ensures t.Some? ==> t.value.Ordinal() == k
  {
    if k == 0 then Some(Assignment)
    else if k == 1 then Some(Binary)
    else if k == 2 then Some(Case)
    else if k == 3 then Some(Return)
    else if k == 4 then Some(Call)
    else if k == 5 then Some(Const)
    else None
  }

  /** Distinct categories have distinct values, and every value names back its category. */
  lemma OrdinalsDistinct(a: Type, b: Type)
    ensures a.Ordinal() == b.Ordinal() <==> a == b
    ensures TypeOf(a.Ordinal()) == Some(a)
  {
  }

  /** One invalid string found: its decoded text, the position of its literal
      and the package of the file it was found in. */
  datatype InvalidString = InvalidString(str: string, position: Position, packageName: string)

  /** The checker's state.  Only `strs` changes after construction. */
  class Parser {
    const path: string
    const skipFile: string
    const ignoreTests: bool
    const excludeTypes: map<Type, bool>
    const invalidStrReg: Regexp
    /** The regexp and strconv packages the compiled pattern belongs to. */
    const lib: Lib
    var strs: seq<InvalidString>

    constructor (path: string, skipFile: string, ignoreTests: bool, excludeTypes: map<Type, bool>,
                 invalidStrReg: Regexp, lib: Lib)
      ensures this.path == path && this.skipFile == skipFile && this.ignoreTests == ignoreTests
      ensures this.excludeTypes == excludeTypes && this.invalidStrReg == invalidStrReg && this.lib == lib
      ensures strs == []
    {
      this.path := path;
      this.skipFile := skipFile;
      this.ignoreTests := ignoreTests;
      this.excludeTypes := excludeTypes;
      this.invalidStrReg := invalidStrReg;
      this.lib := lib;
      strs := [];
    }

    /** The filter closure of parseDir, for file `name` in directory `dir`. */
    method Accept(dir: string, name: string) returns (r: Result<bool, Error>)
      ensures r == Accepts(lib, ignoreTests, skipFile, dir, name)
    {
      var valid := true;
      if ignoreTests {
        if HasSuffix(name, TestSuffix) {
          valid := false;
        }
      }
      if |skipFile| != 0 {
        var m := MatchPattern(lib, skipFile, dir + name);
        if m.Failure? {
          return Failure(Fatal(m.error));
        }
        if m.value {
          valid := false;
        }
      }
      return Success(valid);
    }
  }

  /** The pattern New compiles: the given one, or the default when it is empty. */
  function InvalidPattern(invalidStrExp: string): (expr: string)
    ensures |expr| > 0
    ensures invalidStrExp != [] ==> expr == invalidStrExp
  {
    if |invalidStrExp| == 0 then DefaultPattern else invalidStrExp
  }

  /** With no pattern configured, a string is invalid iff it has a code point above U+00FF. */
  lemma DefaultPatternFlagsAboveLatin1(lib: Lib, s: string)
    ensures Compile(lib, InvalidPattern("")) == Success(Regexp(DefaultPattern))
    ensures MatchString(lib, Regexp(DefaultPattern), s) <==> exists i :: 0 <= i < |s| && s[i] as int > 0xFF
  {
    AboveLatin1Iff(s);
  }

  /** `New`: compile the pattern; on failure return nil and the error, otherwise a fresh Parser. */
  method New(lib: Lib, path: string, skipFile: string, ignoreTests: bool, excludeTypes: map<Type, bool>,
             invalidStrExp: string) returns (p: Parser?, err: Option<Error>)
    ensures (p == null) <==> err.Some?
    ensures err.Some? <==> Compile(lib, InvalidPattern(invalidStrExp)).Failure?
    ensures err.Some? ==> err.value == RegexpError(InvalidPattern(invalidStrExp))
    ensures p != null ==> fresh(p) && p.strs == [] && p.lib == lib
    ensures p != null ==> p.path == path && p.skipFile == skipFile && p.ignoreTests == ignoreTests
    ensures p != null ==> p.excludeTypes == excludeTypes
    ensures p != null ==> p.invalidStrReg == Regexp(InvalidPattern(invalidStrExp))
  {
    var expr := invalidStrExp;
    if |expr| == 0 {
      expr := DefaultPattern;
    }
    var reg := Compile(lib, expr);
    if reg.Failure? {
      return null, Some(reg.error);
    }
    p := new Parser(path, skipFile, ignoreTests, excludeTypes, reg.value, lib);
    err := None;
  }

  /** ParseTree walks recursively iff the path is at least five bytes long and ends in "...". */
  predicate IsRecursive(path: string)
  {
    Utf8Len(path) >= 5 && HasSuffix(path, "...")
  }

  /** The directory a recursive walk starts from: the path without its "...". */
  function WalkRoot(path: string): (root: string)
    requires IsRecursive(path)
    ensures root + "..." == path
    ensures Utf8Len(root) >= 2
  {
    var root := path[..|path| - 3];
    assert root + "..." == path;
    Utf8LenAppend(root, "...");
    root
  }

  /** A path ending in "..." is recursive iff what precedes it is at least two bytes long,
      and the walk then starts at exactly that prefix. */
  lemma RecursivePathRoundTrip(root: string)
    ensures IsRecursive(root + "...") <==> Utf8Len(root) >= 2
    ensures IsRecursive(root + "...") ==> WalkRoot(root + "...") == root
  {
    var path := root + "...";
    assert path[|path| - 3..] == "...";
    assert path[..|path| - 3] == root;
    Utf8LenAppend(root, "...");
  }

  /** What the filter closure answers for one file: Failure for the log.Fatal
      taken when the skip pattern does not compile, else whether to parse it. */
  function Accepts(lib: Lib, ignoreTests: bool, skipFile: string, dir: string, name: string): (r: Result<bool, Error>)
    ensures r.Failure? <==> |skipFile| != 0 && Compile(lib, skipFile).Failure?
    ensures r.Failure? ==> r.error == Fatal(RegexpError(skipFile))
    ensures r.Success? ==>
      (r.value <==> !(ignoreTests && HasSuffix(name, TestSuffix))
                    && !(|skipFile| != 0 && MatchString(lib, Regexp(skipFile), dir + name)))
  {
    var isTest := ignoreTests && HasSuffix(name, TestSuffix);
    if |skipFile| == 0 then Success(!isTest)
    else match MatchPattern(lib, skipFile, dir + name)
      case Failure(e) => Failure(Fatal(e))
      case Success(skip) => Success(!isTest && !skip)
  }

  /** The filter applied by the directory parser to the directory's Go files,
      in listing order; the first fatal answer stops everything. */
  function FilterNames(lib: Lib, ignoreTests: bool, skipFile: string, dir: string, names: seq<string>)
    : (r: Result<seq<string>, Error>)
    ensures r.Success? <==> forall k | 0 <= k < |names| :: Accepts(lib, ignoreTests, skipFile, dir, names[k]).Success?
    ensures r.Failure? ==> r.error == Fatal(RegexpError(skipFile))
    ensures r.Success? ==> |r.value| <= |names|
    ensures r.Success? ==> forall k | 0 <= k < |r.value| ::
      r.value[k] in names && Accepts(lib, ignoreTests, skipFile, dir, r.value[k]) == Success(true)
    ensures r.Success? ==> forall k | 0 <= k < |names| ::
      Accepts(lib, ignoreTests, skipFile, dir, names[k]) == Success(true) ==> names[k] in r.value
    decreases |names|
  {
    if names == [] then Success([])
    else
      var prefix, last := names[..|names| - 1], names[|names| - 1];
      assert forall k | 0 <= k < |prefix| :: prefix[k] == names[k];
      match FilterNames(lib, ignoreTests, skipFile, dir, prefix)
      case Failure(e) => Failure(e)
      case Success(kept) =>
        match Accepts(lib, ignoreTests, skipFile, dir, last)
        case Failure(e) => Failure(e)
        case Success(keep) => Success(if keep then kept + [last] else kept)
  }
}
