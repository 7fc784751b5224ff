/**
  parser.go, second half: `ParseTree` and `parseDir`, which decide which
  directories and files are visited and walk every accepted file with a fresh
  visitor that records into the Parser.

  The file system, `filepath.Walk` and `go/parser.ParseDir` are foreign; they
  are the fields of an `Fs` value.  `ParseDir` returns its packages, and each
  package its files, by iterating over Go maps, whose order is unspecified:
  `Fs.parse` returns them in some order, and the model walks them in that
  order.  Nothing here depends on which order it is.
*/
module Scan {
  import opened Wrappers
  import opened GoLib
  import opened Ast
  import opened Parser
  import opened Visitor

  /** A package as go/parser returns it: its name and its parsed files. */
  datatype Package = Package(name: string, files: seq<AstFile>)

  /** One call that filepath.Walk makes to the callback: an error it reports,
      or a path it reached and whether that path is a directory. */
  datatype WalkItem = WalkError(err: Error) | Reached(path: string, isDir: bool)

  /** The file system and the Go parser, as the checker uses them. */
  datatype Fs = Fs(
    walk: string -> seq<WalkItem>,                               // the callbacks of filepath.Walk(root, ...)
    goFiles: string -> Result<seq<string>, Error>,               // the names of the .go files in a directory
    parse: (string, seq<string>) -> Result<seq<Package>, Error>  // parse the named files of a directory
  )

  predicate PackagesWellFormed(pkgs: seq<Package>)
  {
    forall i | 0 <= i < |pkgs| :: FilesWellFormed(pkgs[i].files)
  }

  /** go/parser only builds well-formed trees. */
  ghost predicate ParsesWellFormed(fs: Fs)
  {
    forall dir, names :: fs.parse(dir, names).Success? ==> PackagesWellFormed(fs.parse(dir, names).value)
  }

  /** The settings of a visitor that parseDir builds for package `name`. */
  function VisitorSettings(p: Parser, name: string): Settings
  {
    Settings(p.lib, p.excludeTypes, p.invalidStrReg, name)
  }

  /** What walking the packages appends: package by package, file by file. */
  function CollectPackages(p: Parser, pkgs: seq<Package>): seq<InvalidString>
    decreases |pkgs|
  {
    if pkgs == [] then []
    else
      var last := pkgs[|pkgs| - 1];
      CollectPackages(p, pkgs[..|pkgs| - 1]) + CollectFiles(VisitorSettings(p, last.name), last.files)
  }

  /** What parseDir(dir) does: an error of the directory listing, of the
      filter (fatal) or of parsing stops it before anything is visited;
      otherwise it yields what walking every parsed file appends. */
  function ParseDirSpec(p: Parser, fs: Fs, dir: string): Result<seq<InvalidString>, Error>
  {
    match fs.goFiles(dir)
    case Failure(e) => Failure(e)
    case Success(names) =>
      match FilterNames(p.lib, p.ignoreTests, p.skipFile, dir, names)
      case Failure(e) => Failure(e)
      case Success(kept) =>
        match fs.parse(dir, kept)
        case Failure(e) => Failure(e)
        case Success(pkgs) => Success(CollectPackages(p, pkgs))
  }

  /** What a run of ParseTree appends to `strs`, and the error it stops with. */
  datatype Outcome = Outcome(found: seq<InvalidString>, err: Option<Error>)

  /** The recursive walk: an error the walker reports is logged and the walk
      goes on; every directory reached is parsed; the first parseDir error
      ends the walk. */
  function WalkOutcome(p: Parser, fs: Fs, items: seq<WalkItem>): Outcome
    decreases |items|
  {
    if items == [] then Outcome([], None)
    else WalkStep(p, fs, WalkOutcome(p, fs, items[..|items| - 1]), items[|items| - 1])
  }

  /** One callback of the walk, after the earlier ones produced `prev`. */
  function WalkStep(p: Parser, fs: Fs, prev: Outcome, item: WalkItem): Outcome
  {
    if prev.err.Some? then prev
    else match item
      case WalkError(_) => prev
      case Reached(path, isDir) =>
        if !isDir then prev
        else match ParseDirSpec(p, fs, path)
          case Failure(e) => Outcome(prev.found, Some(e))
          case Success(found) => Outcome(prev.found + found, None)
  }

  /** ParseTree: a recursive walk from WalkRoot(path) when the path ends in
      "...", otherwise parseDir of the path itself. */
  function ParseTreeOutcome(p: Parser, fs: Fs): Outcome
  {
    if IsRecursive(p.path) then WalkOutcome(p, fs, fs.walk(WalkRoot(p.path)))
    else match ParseDirSpec(p, fs, p.path)
      case Failure(e) => Outcome([], Some(e))
      case Success(found) => Outcome(found, None)
  }

  // ---------------------------------------------------------------------
  // Properties

  /** Once a parseDir error has ended the walk, later directories change nothing. */
  lemma {:induction false} WalkStopsAtFirstError(p: Parser, fs: Fs, items: seq<WalkItem>, k: nat)
    requires k <= |items|
    requires WalkOutcome(p, fs, items[..k]).err.Some?
    ensures WalkOutcome(p, fs, items) == WalkOutcome(p, fs, items[..k])
    decreases |items|
  {
    if k < |items| {
      var prefix := items[..|items| - 1];
      assert prefix[..k] == items[..k];
      WalkStopsAtFirstError(p, fs, prefix, k);
    } else {
      assert items[..k] == items;
    }
  }

  /** The walk never loses what it found: `found` only grows. */
  lemma {:induction false} WalkOutcomeGrows(p: Parser, fs: Fs, items: seq<WalkItem>, k: nat)
    requires k <= |items|
    ensures WalkOutcome(p, fs, items[..k]).found <= WalkOutcome(p, fs, items).found
    decreases |items|
  {
    if k < |items| {
      var prefix := items[..|items| - 1];
      assert prefix[..k] == items[..k];
      WalkOutcomeGrows(p, fs, prefix, k);
    } else {
      assert items[..k] == items;
    }
  }

  /** The items without the walker's own errors. */
  function WithoutWalkErrors(items: seq<WalkItem>): (r: seq<WalkItem>)
    ensures |r| <= |items|
    decreases |items|
  {
    if items == [] then []
    else
      var rest := WithoutWalkErrors(items[..|items| - 1]);
      if items[|items| - 1].WalkError? then rest else rest + [items[|items| - 1]]
  }

  /** Errors that filepath.Walk reports to the callback are only logged:
      dropping them changes nothing. */
  lemma {:induction false} WalkErrorsIgnored(p: Parser, fs: Fs, items: seq<WalkItem>)
    ensures WalkOutcome(p, fs, WithoutWalkErrors(items)) == WalkOutcome(p, fs, items)
    decreases |items|
  {
    if items != [] {
      var prefix, last := items[..|items| - 1], items[|items| - 1];
      WalkErrorsIgnored(p, fs, prefix);
      if !last.WalkError? {
        var r := WithoutWalkErrors(prefix) + [last];
        assert r[..|r| - 1] == WithoutWalkErrors(prefix);
      }
    }
  }

  /** A non-recursive ParseTree returns exactly parseDir's result for the path. */
  lemma ParseTreeSingleDir(p: Parser, fs: Fs)
    requires !IsRecursive(p.path)
    ensures ParseTreeOutcome(p, fs).err.None? <==> ParseDirSpec(p, fs, p.path).Success?
    ensures ParseDirSpec(p, fs, p.path).Success? ==> ParseTreeOutcome(p, fs).found == ParseDirSpec(p, fs, p.path).value
    ensures ParseDirSpec(p, fs, p.path).Failure? ==> ParseTreeOutcome(p, fs).found == []
  {
  }

  /** When the directory's skip pattern does not compile, parseDir of a
      directory that has Go files stops at the first one with log.Fatal. */
  lemma BadSkipPatternIsFatal(p: Parser, fs: Fs, dir: string)
    requires fs.goFiles(dir).Success? && |fs.goFiles(dir).value| > 0
    requires |p.skipFile| != 0 && Compile(p.lib, p.skipFile).Failure?
    ensures ParseDirSpec(p, fs, dir) == Failure(Fatal(RegexpError(p.skipFile)))
  {
    var names := fs.goFiles(dir).value;
    assert Accepts(p.lib, p.ignoreTests, p.skipFile, dir, names[0]).Failure?;
  }

  // ---------------------------------------------------------------------
  // The methods

  lemma CollectPackagesPrefix(p: Parser, pkgs: seq<Package>, i: int)
    requires 0 <= i < |pkgs|
    ensures CollectPackages(p, pkgs[..i + 1])
         == CollectPackages(p, pkgs[..i]) + CollectFiles(VisitorSettings(p, pkgs[i].name), pkgs[i].files)
  {
    assert pkgs[..i + 1][..i] == pkgs[..i];
  }

  /** The loops of parseDir over the parsed packages and their files: each file
      is walked with a fresh visitor for its package. */
  method WalkPackages(p: Parser, pkgs: seq<Package>)
    requires PackagesWellFormed(pkgs)
    modifies p`strs
    ensures p.strs == old(p.strs) + CollectPackages(p, pkgs)
  {
    for i := 0 to |pkgs|
      invariant p.strs == old(p.strs) + CollectPackages(p, pkgs[..i])
    {
      var pkg := pkgs[i];
      WalkPackageFiles(p, pkg);
      CollectPackagesPrefix(p, pkgs, i);
      AppendAssoc(old(p.strs), CollectPackages(p, pkgs[..i]), CollectFiles(VisitorSettings(p, pkg.name), pkg.files));
    }
    assert pkgs[..|pkgs|] == pkgs;
  }

  /** The inner loop of parseDir: walk each file of one package. */
  method WalkPackageFiles(p: Parser, pkg: Package)
    requires FilesWellFormed(pkg.files)
    modifies p`strs
    ensures p.strs == old(p.strs) + CollectFiles(VisitorSettings(p, pkg.name), pkg.files)
  {
    ghost var c := VisitorSettings(p, pkg.name);
    for j := 0 to |pkg.files|
      invariant p.strs == old(p.strs) + CollectFiles(c, pkg.files[..j])
    {
      var v := new TreeVisitor(p, pkg.name, pkg.files[j].filename);
      Walk(v, pkg.files[j].root);
      assert pkg.files[..j + 1] == pkg.files[..j] + [pkg.files[j]];
      CollectFilesSnoc(c, pkg.files[..j], pkg.files[j]);
      AppendAssoc(old(p.strs), CollectFiles(c, pkg.files[..j]), Collect(c, pkg.files[j].root));
    }
    assert pkg.files[..|pkg.files|] == pkg.files;
  }

  /** parseDir: list, filter and parse the directory's files, then walk every
      file of every package with a visitor for that package. */
  method ParseDir(p: Parser, fs: Fs, dir: string) returns (err: Option<Error>)
    requires ParsesWellFormed(fs)
    modifies p`strs
    ensures ParseDirSpec(p, fs, dir).Success? ==>
      err.None? && p.strs == old(p.strs) + ParseDirSpec(p, fs, dir).value
    ensures ParseDirSpec(p, fs, dir).Failure? ==>
      err == Some(ParseDirSpec(p, fs, dir).error) && p.strs == old(p.strs)
  {
    var listing := fs.goFiles(dir);
    if listing.Failure? {
      return Some(listing.error);
    }
    var names := listing.value;
    var kept: seq<string> := [];
    for i := 0 to |names|
      invariant FilterNames(p.lib, p.ignoreTests, p.skipFile, dir, names[..i]) == Success(kept)
      invariant p.strs == old(p.strs)
    {
      var keep := p.Accept(dir, names[i]);
      assert names[..i + 1][..i] == names[..i];
      if keep.Failure? {
        assert FilterNames(p.lib, p.ignoreTests, p.skipFile, dir, names).Failure?;
        return Some(keep.error);
      }
      if keep.value {
        kept := kept + [names[i]];
      }
    }
    assert names[..|names|] == names;
    var parsed := fs.parse(dir, kept);
    if parsed.Failure? {
      return Some(parsed.error);
    }
    WalkPackages(p, parsed.value);
    return None;
  }

  /** The walk callback of ParseTree, applied to the callbacks filepath.Walk makes. */
  method WalkTree(p: Parser, fs: Fs, items: seq<WalkItem>) returns (err: Option<Error>)
    requires ParsesWellFormed(fs)
    modifies p`strs
    ensures p.strs == old(p.strs) + WalkOutcome(p, fs, items).found
    ensures err == WalkOutcome(p, fs, items).err
  {
    for i := 0 to |items|
      invariant WalkOutcome(p, fs, items[..i]).err.None?
      invariant p.strs == old(p.strs) + WalkOutcome(p, fs, items[..i]).found
    {
      assert items[..i + 1][..i] == items[..i];
      ghost var prev := WalkOutcome(p, fs, items[..i]);
      match items[i] {
        case WalkError(_) =>
          // log.Println(err); the walk goes on
        case Reached(path, isDir) =>
          if isDir {
            var dirErr := ParseDir(p, fs, path);
            if dirErr.Some? {
              WalkStopsAtFirstError(p, fs, items, i + 1);
              return dirErr;
            }
            AppendAssoc(old(p.strs), prev.found, ParseDirSpec(p, fs, path).value);
          }
      }
    }
    assert items[..|items|] == items;
    return None;
  }

  /** ParseTree: on success the whole accumulated `strs`; on an error, nil and
      the error, with whatever earlier directories appended left in `strs`. */
  method ParseTree(p: Parser, fs: Fs) returns (r: Result<seq<InvalidString>, Error>)
    requires ParsesWellFormed(fs)
    modifies p`strs
    ensures p.strs == old(p.strs) + ParseTreeOutcome(p, fs).found
    ensures ParseTreeOutcome(p, fs).err.Some? ==> r == Failure(ParseTreeOutcome(p, fs).err.value)
    ensures ParseTreeOutcome(p, fs).err.None? ==> r == Success(p.strs)
  {
    var pathLen := Utf8Len(p.path);
    var err: Option<Error>;
    if pathLen >= 5 && HasSuffix(p.path, "...") {
      assert p.path[..|p.path| - 3] == WalkRoot(p.path);
      err := WalkTree(p, fs, fs.walk(p.path[..|p.path| - 3]));
    } else {
      err := ParseDir(p, fs, p.path);
    }
    if err.Some? {
      return Failure(err.value);
    }
    return Success(p.strs);
  }
}
