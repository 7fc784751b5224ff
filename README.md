# go-strchecker, modelled in Dafny

go-strchecker looks through Go source for string literals that contain text a
project does not want hard-coded. By default that means any code point above
U+00FF, such as Chinese punctuation or emoji; the pattern can be configured.
It walks each parsed file. A literal is examined only when it sits directly in
one of these places:

- the value of a `const` declaration;
- an operand of a binary expression;
- a `case` label;
- a `return` result;
- a call argument.

A literal that starts with a double quote or a backquote is unquoted (and
dropped if that fails); any other literal, such as a rune, is tested as
written. Empty strings are dropped, and a string that matches the pattern is
recorded with its position and its package. Categories can be
excluded by configuration. When tests are ignored, test files are skipped, and
so are files the skip pattern matches: parseDir does not parse them, and Run
does not walk them.

The model has these modules:

- `Ast` (ast.dfy): the syntax-tree shapes the checker tells apart.
- `GoLib` (golib.dfy): Go's byte length of a string, prefix and suffix tests,
  regexp compilation and matching, and `strconv.Unquote`. Only the default
  pattern has a fixed meaning here. Any other pattern, and unquoting, are the
  functions of a `Lib` value supplied by the caller.
- `Parser` (parser.dfy, first half of parser.go):
  - the `Type` categories;
  - `InvalidString`;
  - the `Parser` class, with `strs` as its one mutable field;
  - `New`;
  - the recursive-path rule;
  - the file filter of `parseDir`.
- `Visitor` (visitor.dfy, visitor.go):
  - Specification functions. `Collect(c, n)` is what walking tree `n`
    appends. `Slots(n)` lists the expressions handed to `processExpr`, with
    their categories.
  - The `TreeVisitor` class, whose methods append to the parser's `strs`.
  - `Walk`, the model of `ast.Walk`. It is proved to append exactly
    `Collect(c, n)`.
- `Scan` (scan.dfy, second half of parser.go): `ParseTree` and `parseDir`,
  which work over an abstract file system and Go parser (`Fs`).
- `Api` (api.dfy, api.go): `Run`, `Issue` and `Config`.
- `Scenarios` (examples.dfy): statements from the repository's test data,
  worked through the specification.

Some behaviour of the code that is easy to get wrong:

- Every binary operator's operands are examined, not only those of `==` and `!=`.
- A literal inside a concatenation is an operand of a binary expression, so it
  is reported, as a Binary occurrence.
- The `AssignStmt` case of `Visit` is empty (visitor.go:35-36), so a literal
  assigned directly is never reported as an Assignment. Its children are still
  walked. `processAssignStmt` exists but nothing calls it.
- A constant is reported at its literal's position, not at the declared name's.

## Model

| member | source | states |
|---|---|---|
| GoLib.Utf8Len | parser.go:55 | Go's `len` counts the bytes of the UTF-8 encoding. It is at least the number of code points, it is zero only for "", and it equals the number of code points iff every code point is ASCII. |
| GoLib.Utf8LenAppend | parser.go:55-58 | The byte length of a concatenation is the sum of the byte lengths. |
| GoLib.AboveLatin1Iff | parser.go:34-37 | The default pattern `[^\x00-\xff]` matches exactly the strings that have some code point above U+00FF. |
| GoLib.Compile | parser.go:38-41 | Compilation succeeds iff the pattern is the default one or the regexp engine accepts it. On failure the error is the one from compiling that pattern. |
| GoLib.MatchPattern | parser.go:98 | `regexp.MatchString` fails exactly when the pattern does not compile. Otherwise it answers what the compiled pattern matches. |
| Parser.Type.Ordinal | parser.go:136-146 | The six categories are numbered 0 to 5 by `iota`, in declaration order. |
| Parser.TypeOf | parser.go:136-146 | An integer names a category iff it is in 0..5, and that category numbers back to the integer. |
| Parser.OrdinalsDistinct | parser.go:139-146 | Distinct categories have distinct numbers, and each number names back its own category. |
| Parser.Parser.constructor | parser.go:42-49 | A new Parser holds its configuration and an empty `strs`. |
| Parser.InvalidPattern | parser.go:35-37 | An empty pattern is replaced by the default pattern. A non-empty one is kept. |
| Parser.DefaultPatternFlagsAboveLatin1 | parser.go:34-38 | With no pattern configured, compilation succeeds, and a string is invalid iff it has a code point above U+00FF. |
| Parser.New | parser.go:32-50 | New returns nil plus an error iff the pattern does not compile; the error is the one from compiling that pattern. Otherwise it returns no error and a fresh Parser with the given settings, the compiled pattern and empty `strs`. |
| Parser.WalkRoot | parser.go:55-58 | The walk root, followed by "...", gives back the path. The root is at least two bytes long. |
| Parser.RecursivePathRoundTrip | parser.go:55-58 | `root + "..."` is recursive iff `root` is at least two bytes long. The walk then starts exactly at `root`. |
| Parser.Accepts | parser.go:89-108 | The filter fails, through log.Fatal, iff the skip pattern is non-empty and does not compile. Otherwise it accepts a file iff the file is not an ignored test file and its directory plus name does not match the skip pattern. |
| Parser.Parser.Accept | parser.go:88-109 | The filter closure, with its `valid` flag, computes `Accepts`. |
| Parser.FilterNames | parser.go:88-112 | Filtering a listing fails iff some file's filter fails, and then with the fatal skip-pattern error. Otherwise it keeps exactly the accepted names: every kept name is listed and accepted, and every accepted name is kept. |
| Visitor.Decode | visitor.go:102-105 | A literal that does not start with a double quote or a backquote keeps its raw text. A quoted one decodes to what `strconv.Unquote` returns, and to "" when Unquote fails. |
| Visitor.UnquoteFailureRecordsNothing | visitor.go:102-110 | A quoted literal that Unquote rejects records nothing, for every category and every setting. |
| Visitor.Report | visitor.go:97-120 | addString appends at most one entry. It appends one iff the category is not excluded (present in the map and true) and the decoded text is non-empty and matches the pattern. The entry carries the decoded text, the literal's position and the visitor's package. |
| Visitor.EntriesMembership | visitor.go:90-120 | A string is recorded for a list of slots iff some slot holds a bare literal of a non-excluded category whose decoded text is non-empty, matches, and equals the string, with that literal's position and the package. |
| Visitor.EntriesBounded | visitor.go:90-120 | A list of slots yields at most one entry per slot. Every entry is non-empty, matches the pattern and carries the package. |
| Visitor.CollectIsEntriesOfSlots | visitor.go:23-55 | Walking a tree records exactly the entries of its slots, in walk order: the node's own slots, then its children's. |
| Visitor.CollectCharacterised | visitor.go:23-120 | A walk records a string iff some slot of the tree fires for it. Every recorded string is non-empty, matches, and has the visitor's package. The walk records at most as many strings as the tree has slots. |
| Visitor.ConstSlotsAreConst | visitor.go:57-64 | The values of a const declaration are all examined as Const. |
| Visitor.VisitSlotsByKind | visitor.go:27-52 | Visiting one node never examines anything as Assignment. Const, Binary, Case, Return and Call slots come exactly from const declarations, binary expressions, case clauses, return statements and calls. A binary expression, whatever its operator, examines its two operands. |
| Visitor.NoAssignmentInVisit | visitor.go:35-36 | No node's visit yields an Assignment slot. |
| Visitor.NoAssignmentSlots | visitor.go:35-36 | No tree contains an Assignment slot. |
| Visitor.EntriesIgnoreExclusionOfAbsent | visitor.go:98-101 | Changing the exclusion of a category that no slot uses changes nothing. |
| Visitor.AssignmentExclusionHasNoEffect | visitor.go:35-36 | Excluding or including Assignment never changes what a walk records. |
| Visitor.CollectFilesAppend | api.go:46-63 | Walking two lists of files, one after the other, records the first list's strings and then the second's. |
| Visitor.CollectFilesValid | visitor.go:107-119 | Every string recorded over a list of files is non-empty, matches the pattern and carries the visitor's package. |
| Visitor.TreeVisitor.constructor | parser.go:116-121 | A visitor holds its parser, package name and file name. |
| Visitor.TreeVisitor.Visit | visitor.go:23-55 | Visit returns the visitor itself. For nil it records nothing. For a node it appends exactly the entries of that node's slots. |
| Visitor.TreeVisitor.ProcessConst | visitor.go:57-64 | Appends the entries of every value of every spec, as Const, in order. |
| Visitor.TreeVisitor.ProcessAssignStmt | visitor.go:65-69 | Appends the entries of the right-hand sides, as Assignment, in order. |
| Visitor.TreeVisitor.ProcessCaseExpr | visitor.go:70-74 | Appends the entries of the case labels, as Case, in order. |
| Visitor.TreeVisitor.ProcessBinaryExpr | visitor.go:75-78 | Appends the entries of X and then Y, as Binary. |
| Visitor.TreeVisitor.ProcessCallExpr | visitor.go:80-84 | Appends the entries of the arguments, as Call, in order. |
| Visitor.TreeVisitor.ProcessReturnExpr | visitor.go:85-89 | Appends the entries of the results, as Return, in order. |
| Visitor.TreeVisitor.ProcessExpr | visitor.go:90-94 | Appends addString's entry for a bare literal. Nothing is appended for any other expression. |
| Visitor.TreeVisitor.AddString | visitor.go:97-120 | Appends exactly `Report` for the literal and changes nothing else. |
| Visitor.Walk | visitor.go:23-55 | `ast.Walk` with this visitor appends exactly `Collect` of the tree. |
| Visitor.WalkChildren | visitor.go:23-55 | Walking a node's children, in ast.Walk's field order, appends their entries in order. |
| Visitor.WalkList | visitor.go:23-55 | Walking a list of nodes appends their entries in list order. |
| Scan.ParseDir | parser.go:86-126 | If listing, filtering (fatal) or parsing fails, parseDir returns that error and records nothing. Otherwise it records, package by package and file by file, exactly what walking each file with a visitor for its package records. |
| Scan.WalkPackages | parser.go:114-123 | The loop over the parsed packages records each package's files' entries, package after package. |
| Scan.WalkPackageFiles | parser.go:115-122 | The loop over one package's files records exactly what walking each file with a visitor for that package records, file after file. |
| Scan.WalkTree | parser.go:58-75 | The walk callback appends exactly what the walk outcome says, and returns its error. |
| Scan.ParseTree | parser.go:54-84 | A path of at least five bytes ending in "..." is walked recursively from its root. Any other path is parsed as one directory. On an error, the error is returned. Otherwise `strs` is returned. |
| Scan.WalkStopsAtFirstError | parser.go:66-69 | Once a directory's parseDir has failed, the later directories of the walk change nothing. |
| Scan.WalkOutcomeGrows | parser.go:58-72 | Later directories only add to what earlier directories recorded. |
| Scan.WalkErrorsIgnored | parser.go:60-64 | Errors the walker reports are logged and the walk resumes; dropping them from the walk changes nothing. |
| Scan.ParseTreeSingleDir | parser.go:76-81 | A non-recursive path gives exactly parseDir's result for that path, and nothing on error. |
| Scan.BadSkipPatternIsFatal | parser.go:97-101 | A non-empty skip pattern that does not compile makes parseDir of a directory with Go files end in log.Fatal with the error from compiling that pattern. |
| Api.ToIssues | api.go:66-74 | There is one issue per recorded string. |
| Api.ToIssuesAt | api.go:66-74 | Issue k carries the position, text and package of string k, and index k. |
| Api.IssuesRoundTrip | api.go:66-74 | Numbering loses nothing: the recorded strings can be read back from the issues. |
| Api.ToIssuesPrefix | api.go:66-74 | The issues of a prefix of the strings are a prefix of the issues. |
| Api.SelectFiles | api.go:48-59 | Run never walks more files than it is given. |
| Api.SelectFilesMembership | api.go:48-59 | A file is walked iff it is given and neither is an ignored test file nor matches the skip pattern. |
| Api.SelectFilesAppend | api.go:48-59 | Selection keeps the order of the given files. |
| Api.RunSpec | api.go:27-75 | Run fails iff the string pattern does not compile or a non-empty skip pattern does not compile. The error is the one from compiling the string pattern when that fails, otherwise the one from compiling the skip pattern. |
| Api.RunIssuesValid | api.go:27-75 | Every issue of a successful run has its index as its place, an empty package name, and a non-empty text that the pattern matches. |
| Api.RunIsMonotone | api.go:48-74 | With more files, a successful run keeps the earlier files' issues as a prefix. |
| Api.RunAllSkipped | api.go:48-59 | When every file is skipped, a successful run reports nothing. |
| Api.WalkFiles | api.go:48-65 | The file loop appends exactly what walking the selected files, in order, records. |
| Api.NumberIssues | api.go:66-74 | The numbering loop builds exactly the issue list. |
| Api.Run | api.go:27-75 | Run returns what `RunSpec` states: the compile errors, or the numbered issues of every selected file. |
| Scenarios.ConstIsReported | testdata/main.go:12 | `const NO_DATA = "no，data！"` records its decoded value at the literal's position, unless Const is excluded. |
| Scenarios.ConcatenationInAssignment | testdata/main.go:16 | A literal concatenated in an assignment is recorded as a Binary operand, unless Binary is excluded. |
| Scenarios.CallArgument | testdata/main.go:22 | `log.Println(":) 😁😁😁")` records its argument, unless Call is excluded. |
| Scenarios.ExclusionScenarios | visitor.go:98-101 | A category mapped to true silences its literals; a category mapped to false does not. |
| Scenarios.LiteralOperand | visitor.go:75-78 | A binary expression with a literal on one side and a silent non-literal on the other records exactly the literal's entry. |
| Scenarios.PlainCallIsSilent | testdata/call.go:10 | `testCall("x", "y")` records nothing. |
| Scenarios.OperandIsReported | testdata/call.go:10 | `"a！b"+testCall("x", "y")` records "a！b" as a Binary operand, unless Binary is excluded. |
| Scenarios.NestedCallReportsOperand | testdata/call.go:10 | A concatenation that is itself a call argument is not a literal. The call adds nothing for it, and a plain "z" beside it adds nothing. |
| Scenarios.NestedCallScenario | testdata/call.go:10 | Under the default settings, `testCall("a！b"+testCall("x", "y"), "z")` records exactly "a！b", once, at its position. |
| Scenarios.LatinIsNotReported | visitor.go:111-114 | "é" (U+00E9) does not match the default pattern. |
| Scenarios.EmptyIsNotReported | visitor.go:107-110 | An empty literal is dropped before matching. |
| Scenarios.UnquoteFailureIsDropped | visitor.go:103-110 | A literal that cannot be unquoted decodes to "" and is dropped. |
| Scenarios.RecursivePathCountsBytes | parser.go:55-57 | "é..." has four code points but five bytes, so it is walked from "é". "a..." is not recursive. |

## Left out

- cmd/strchecker/main.go is not part of this model. That covers command-line flags, report formats, exit codes and the alternative fixed pattern the CLI offers.
- The file system, `filepath.Walk`, `os.ReadDir` and `go/parser` are the fields of `Fs`. `Fs.goFiles` lists a directory's `.go` files that are not directories. `Fs.parse` parses the accepted files.
- Package and file order in parseDir: Go iterates maps in unspecified order. `Fs.parse` fixes some order, and every statement holds for any order.
- Position resolution through `token.FileSet` is not modelled. Each literal carries its resolved position.
- `RegexpError(expr)` stands for whatever error compiling `expr` returns. The error's code and the offending fragment that Go's `*syntax.Error` reports are not modelled.
- The regular-expression engine for patterns other than the default is the abstract `Lib.matches`. `strconv.Unquote` is the abstract `Lib.unquote`.
- Strings are sequences of code points. Invalid UTF-8 in Go strings is not represented.
- log.Fatal ends in a process exit. Here it appears as the error `Fatal(...)`, which parseDir and ParseTree pass on.
- log.Println of walk errors: only the effect is modelled (the walk resumes), not the output.
- The `fileSet` field of `treeVisitor` is not modelled, because positions are already resolved. `fileName` is kept but, as in the source, never read.
- `Config.invalidStrReg` is unexported, so callers of `Run` from another Go package cannot set it. The model takes it as an ordinary field.
- `dir + name`: the skip pattern is matched against the directory joined to the name with no separator, as in the source.
- Repeated calls of ParseTree on one Parser keep accumulating into `strs`. The model's contracts state the new `strs` relative to the old one.
- Go's panic on a non-`ValueSpec` inside a const declaration: go/parser never builds one, and the methods require this (`WellFormed`).
