/**
  visitor.go and the walk of go/ast that drives it.

  The specification side is pure: `VisitSlots(n)` lists the expressions that
  visiting node `n` hands to processExpr, each with its category;
  `Slots(n)` lists them for a whole tree in the pre-order of `ast.Walk`; and
  `Collect(c, n)` is what walking the tree appends to the parser's `strs`.

  The implementation side is a `TreeVisitor` object whose methods append to
  the shared `strs` field of its Parser, and a recursive `Walk`; each is proved
  to append exactly what the specification says.
*/
module Visitor {
  import opened Wrappers
  import opened GoLib
  import opened Ast
  import opened Parser

  /** What a visitor consults when it records a string: the parser's
      libraries, exclusions and pattern, and its own package name. */
  datatype Settings = Settings(lib: Lib, excludeTypes: map<Type, bool>, invalidStrReg: Regexp, packageName: string)

  /** One expression handed to processExpr, with the category it is handed with. */
  datatype Slot = Slot(expr: Node, typ: Type)

  /** `ok, excluded := excludeTypes[typ]; ok && excluded`: the first result of a
      Go map lookup is the value, the second whether the key is present. */
  predicate Excluded(c: Settings, typ: Type)
  {
    typ in c.excludeTypes && c.excludeTypes[typ]
  }

  /** The text addString tests: a literal starting with `"` or a backquote is
      unquoted (a failed unquote gives ""); any other literal is kept verbatim. */
  function Decode(lib: Lib, raw: string): (s: string)
    ensures !HasPrefix(raw, "\"") && !HasPrefix(raw, "`") ==> s == raw
    ensures (HasPrefix(raw, "\"") || HasPrefix(raw, "`")) && lib.unquote(raw).Some? ==> s == lib.unquote(raw).value
    ensures (HasPrefix(raw, "\"") || HasPrefix(raw, "`")) && lib.unquote(raw).None? ==> s == []
  {
    if HasPrefix(raw, "\"") || HasPrefix(raw, "`") then Unquote(lib, raw) else raw
  }

  /** What addString appends for the literal text `raw` at `pos`. */
  function Report(c: Settings, raw: string, pos: Position, typ: Type): (r: seq<InvalidString>)
    ensures |r| <= 1
    ensures |r| == 1 <==> !Excluded(c, typ) && Decode(c.lib, raw) != []
                          && MatchString(c.lib, c.invalidStrReg, Decode(c.lib, raw))
    ensures |r| == 1 ==> r[0] == InvalidString(Decode(c.lib, raw), pos, c.packageName)
  {
    if Excluded(c, typ) then []
    else
      var s := Decode(c.lib, raw);
      if |s| == 0 then []
      else if !MatchString(c.lib, c.invalidStrReg, s) then []
      else [InvalidString(s, pos, c.packageName)]
  }

  /** What processExpr appends for one slot: only a bare literal gets as far as addString. */
  function SlotEntries(c: Settings, s: Slot): seq<InvalidString>
  {
    match s.expr
    case BasicLit(raw, pos) => Report(c, raw, pos, s.typ)
    case _ => []
  }

  /** A quoted literal that strconv.Unquote rejects decodes to "" and so is
      never recorded, whatever its category and settings. */
  lemma UnquoteFailureRecordsNothing(c: Settings, raw: string, pos: Position, typ: Type)
    requires HasPrefix(raw, "\"") || HasPrefix(raw, "`")
    requires c.lib.unquote(raw).None?
    ensures SlotEntries(c, Slot(BasicLit(raw, pos), typ)) == []
  {
  }

  /** The entries a sequence of slots appends, in order. */
  function Entries(c: Settings, slots: seq<Slot>): seq<InvalidString>
    decreases |slots|
  {
    if slots == [] then []
    else Entries(c, slots[..|slots| - 1]) + SlotEntries(c, slots[|slots| - 1])
  }

  /** `ex` handed to processExpr, each with category `typ`, in order. */
  function SlotsOf(es: seq<Node>, typ: Type): (r: seq<Slot>)
    ensures |r| == |es|
    decreases |es|
  {
    if es == [] then []
    else SlotsOf(es[..|es| - 1], typ) + [Slot(es[|es| - 1], typ)]
  }

  lemma SlotsOfPrefix(es: seq<Node>, typ: Type, i: int)
    requires 0 <= i < |es|
    ensures SlotsOf(es[..i + 1], typ) == SlotsOf(es[..i], typ) + [Slot(es[i], typ)]
  {
    assert es[..i + 1][..i] == es[..i];
  }

  lemma ConstSlotsPrefix(specs: seq<Node>, i: int)
    requires 0 <= i < |specs| && specs[i].ValueSpec?
    ensures ConstSlots(specs[..i + 1]) == ConstSlots(specs[..i]) + SlotsOf(specs[i].values, Const)
  {
    assert specs[..i + 1][..i] == specs[..i];
  }

  lemma SlotsListPrefix(s: seq<Node>, i: int)
    requires 0 <= i < |s|
    ensures SlotsList(s[..i + 1]) == SlotsList(s[..i]) + Slots(s[i])
  {
    assert s[..i + 1][..i] == s[..i];
  }

  lemma {:induction false} SlotsOfAt(es: seq<Node>, typ: Type, k: int)
    requires 0 <= k < |es|
    ensures SlotsOf(es, typ)[k] == Slot(es[k], typ)
    decreases |es|
  {
    if k < |es| - 1 {
      SlotsOfAt(es[..|es| - 1], typ, k);
    }
  }

  /** processConst: the values of every spec, spec by spec, as `Const`.  A
      spec that is not a value spec (which go/parser never puts in a const
      declaration) contributes nothing here; the methods exclude it. */
  function ConstSlots(specs: seq<Node>): seq<Slot>
    decreases |specs|
  {
    if specs == [] then []
    else
      var last := specs[|specs| - 1];
      ConstSlots(specs[..|specs| - 1]) + (if last.ValueSpec? then SlotsOf(last.values, Const) else [])
  }

  /** The slots a single Visit(n) processes (its children come later in the walk). */
  function VisitSlots(n: Node): seq<Slot>
  {
    match n
    case GenDecl(isConst, specs) => if isConst then ConstSlots(specs) else []
    case AssignStmt(_, _) => []       // the case arm is empty: processAssignStmt is never called
    case BinaryExpr(_, x, y) => [Slot(x, Binary), Slot(y, Binary)]  // any operator
    case CaseClause(list, _) => SlotsOf(list, Case)
    case ReturnStmt(results) => SlotsOf(results, Return)
    case CallExpr(_, args) => SlotsOf(args, Call)
    case _ => []
  }

  /** All slots of a tree in the pre-order of ast.Walk: a node's own slots,
      then its children's, children in field order. */
  function Slots(n: Node): seq<Slot>
    decreases n, 1
  {
    VisitSlots(n) + ChildSlots(n)
  }

  function ChildSlots(n: Node): seq<Slot>
    decreases n, 0
  {
    match n
    case GenDecl(_, specs) => SlotsList(specs)
    case ValueSpec(names, typ, values) => SlotsList(names) + SlotsList(typ) + SlotsList(values)
    case AssignStmt(lhs, rhs) => SlotsList(lhs) + SlotsList(rhs)
    case BinaryExpr(_, x, y) => Slots(x) + Slots(y)
    case CaseClause(list, body) => SlotsList(list) + SlotsList(body)
    case ReturnStmt(results) => SlotsList(results)
    case CallExpr(fun, args) => Slots(fun) + SlotsList(args)
    case BasicLit(_, _) => []
    case Other(children) => SlotsList(children)
  }

  function SlotsList(s: seq<Node>): seq<Slot>
    decreases s, 2
  {
    if s == [] then [] else SlotsList(s[..|s| - 1]) + Slots(s[|s| - 1])
  }

  /** What walking the tree `n` with a visitor configured by `c` appends to
      `strs`: what visiting `n` records, then what walking its children records. */
  function Collect(c: Settings, n: Node): seq<InvalidString>
    decreases n, 1
  {
    Entries(c, VisitSlots(n)) + CollectChildren(c, n)
  }

  function CollectChildren(c: Settings, n: Node): seq<InvalidString>
    decreases n, 0
  {
    match n
    case GenDecl(_, specs) => CollectList(c, specs)
    case ValueSpec(names, typ, values) => CollectList(c, names) + CollectList(c, typ) + CollectList(c, values)
    case AssignStmt(lhs, rhs) => CollectList(c, lhs) + CollectList(c, rhs)
    case BinaryExpr(_, x, y) => Collect(c, x) + Collect(c, y)
    case CaseClause(list, body) => CollectList(c, list) + CollectList(c, body)
    case ReturnStmt(results) => CollectList(c, results)
    case CallExpr(fun, args) => Collect(c, fun) + CollectList(c, args)
    case BasicLit(_, _) => []
    case Other(children) => CollectList(c, children)
  }

  function CollectList(c: Settings, s: seq<Node>): seq<InvalidString>
    decreases s, 2
  {
    if s == [] then [] else CollectList(c, s[..|s| - 1]) + Collect(c, s[|s| - 1])
  }

  lemma CollectListPrefix(c: Settings, s: seq<Node>, i: int)
    requires 0 <= i < |s|
    ensures CollectList(c, s[..i + 1]) == CollectList(c, s[..i]) + Collect(c, s[i])
  {
    assert s[..i + 1][..i] == s[..i];
  }

  /** What walking the files in order appends, one file after the other. */
  function CollectFiles(c: Settings, files: seq<AstFile>): seq<InvalidString>
    decreases |files|
  {
    if files == [] then []
    else CollectFiles(c, files[..|files| - 1]) + Collect(c, files[|files| - 1].root)
  }

  // ---------------------------------------------------------------------
  // Properties of the specification

  lemma AppendAssoc<T>(a: seq<T>, b: seq<T>, d: seq<T>)
    ensures a + (b + d) == (a + b) + d
  {
  }

  lemma EntriesSnoc(c: Settings, slots: seq<Slot>, s: Slot)
    ensures Entries(c, slots + [s]) == Entries(c, slots) + SlotEntries(c, s)
  {
    assert (slots + [s])[..|slots|] == slots;
  }

  lemma {:induction false} EntriesAppend(c: Settings, a: seq<Slot>, b: seq<Slot>)
    ensures Entries(c, a + b) == Entries(c, a) + Entries(c, b)
    decreases |b|
  {
    if b == [] {
      assert a + b == a;
    } else {
      var b', last := b[..|b| - 1], b[|b| - 1];
      assert a + b == (a + b') + [last];
      assert b == b' + [last];
      EntriesSnoc(c, a + b', last);
      EntriesAppend(c, a, b');
      EntriesSnoc(c, b', last);
    }
  }

  /** The slot `s` yields entry `e`: it is a bare literal in a category that is
      not excluded, whose decoded text is non-empty and matches the pattern, and
      `e` holds that text, the literal's own position and the visitor's package. */
  predicate Fires(c: Settings, s: Slot, e: InvalidString)
  {
    && s.expr.BasicLit?
    && !Excluded(c, s.typ)
    && e == InvalidString(Decode(c.lib, s.expr.raw), s.expr.pos, c.packageName)
    && e.str != []
    && MatchString(c.lib, c.invalidStrReg, e.str)
  }

  lemma SlotEntriesFires(c: Settings, s: Slot, e: InvalidString)
    ensures e in SlotEntries(c, s) <==> Fires(c, s, e)
  {
  }

  /** An entry is recorded iff some slot fires for it. */
  lemma {:induction false} EntriesMembership(c: Settings, slots: seq<Slot>, e: InvalidString)
    ensures e in Entries(c, slots) <==> exists k :: 0 <= k < |slots| && Fires(c, slots[k], e)
    decreases |slots|
  {
    if slots != [] {
      var prefix, last := slots[..|slots| - 1], slots[|slots| - 1];
      EntriesMembership(c, prefix, e);
      SlotEntriesFires(c, last, e);
      if e in Entries(c, prefix) {
        var k :| 0 <= k < |prefix| && Fires(c, prefix[k], e);
        assert slots[k] == prefix[k];
      }
      if exists k :: 0 <= k < |slots| && Fires(c, slots[k], e) {
        var k :| 0 <= k < |slots| && Fires(c, slots[k], e);
        if k < |prefix| {
          assert prefix[k] == slots[k];
        }
      }
    }
  }

  /** Every slot yields at most one entry, and every entry is valid. */
  lemma {:induction false} EntriesBounded(c: Settings, slots: seq<Slot>)
    ensures |Entries(c, slots)| <= |slots|
    ensures forall e | e in Entries(c, slots) ::
      e.str != [] && MatchString(c.lib, c.invalidStrReg, e.str) && e.packageName == c.packageName
    decreases |slots|
  {
    if slots != [] {
      EntriesBounded(c, slots[..|slots| - 1]);
    }
  }

  /** A walk records exactly the entries of the tree's slots taken in pre-order. */
  lemma {:induction false} CollectIsEntriesOfSlots(c: Settings, n: Node)
    ensures Collect(c, n) == Entries(c, Slots(n))
    decreases n, 2
  {
    CollectChildrenIsEntries(c, n);
    EntriesAppend(c, VisitSlots(n), ChildSlots(n));
  }

  lemma {:induction false} CollectChildrenIsEntries(c: Settings, n: Node)
    ensures CollectChildren(c, n) == Entries(c, ChildSlots(n))
    decreases n, 1
  {
    match n
    case GenDecl(_, specs) =>
      CollectListIsEntries(c, specs);
    case ValueSpec(_, _, _) =>
      ValueSpecChildrenIsEntries(c, n);
    case AssignStmt(_, _) =>
      AssignChildrenIsEntries(c, n);
    case BinaryExpr(_, _, _) =>
      BinaryChildrenIsEntries(c, n);
    case CaseClause(_, _) =>
      CaseChildrenIsEntries(c, n);
    case ReturnStmt(results) =>
      CollectListIsEntries(c, results);
    case CallExpr(_, _) =>
      CallChildrenIsEntries(c, n);
    case BasicLit(_, _) =>
    case Other(children) =>
      CollectListIsEntries(c, children);
  }

  lemma {:induction false} ValueSpecChildrenIsEntries(c: Settings, n: Node)
    requires n.ValueSpec?
    ensures CollectChildren(c, n) == Entries(c, ChildSlots(n))
    decreases n, 0
  {
    var names, typ, values := n.names, n.typ, n.values;
    CollectListIsEntries(c, names);
    CollectListIsEntries(c, typ);
    CollectListIsEntries(c, values);
    EntriesAppend(c, SlotsList(names), SlotsList(typ));
    EntriesAppend(c, SlotsList(names) + SlotsList(typ), SlotsList(values));
  }

  lemma {:induction false} AssignChildrenIsEntries(c: Settings, n: Node)
    requires n.AssignStmt?
    ensures CollectChildren(c, n) == Entries(c, ChildSlots(n))
    decreases n, 0
  {
    CollectListIsEntries(c, n.lhs);
    CollectListIsEntries(c, n.rhs);
    EntriesAppend(c, SlotsList(n.lhs), SlotsList(n.rhs));
  }

  lemma {:induction false} BinaryChildrenIsEntries(c: Settings, n: Node)
    requires n.BinaryExpr?
    ensures CollectChildren(c, n) == Entries(c, ChildSlots(n))
    decreases n, 0
  {
    CollectIsEntriesOfSlots(c, n.x);
    CollectIsEntriesOfSlots(c, n.y);
    EntriesAppend(c, Slots(n.x), Slots(n.y));
  }

  lemma {:induction false} CaseChildrenIsEntries(c: Settings, n: Node)
    requires n.CaseClause?
    ensures CollectChildren(c, n) == Entries(c, ChildSlots(n))
    decreases n, 0
  {
    CollectListIsEntries(c, n.list);
    CollectListIsEntries(c, n.body);
    EntriesAppend(c, SlotsList(n.list), SlotsList(n.body));
  }

  lemma {:induction false} CallChildrenIsEntries(c: Settings, n: Node)
    requires n.CallExpr?
    ensures CollectChildren(c, n) == Entries(c, ChildSlots(n))
    decreases n, 0
  {
    CollectIsEntriesOfSlots(c, n.fun);
    CollectListIsEntries(c, n.args);
    EntriesAppend(c, Slots(n.fun), SlotsList(n.args));
  }

  lemma {:induction false} CollectListIsEntries(c: Settings, s: seq<Node>)
    ensures CollectList(c, s) == Entries(c, SlotsList(s))
    decreases s, 3
  {
    if s != [] {
      var prefix, last := s[..|s| - 1], s[|s| - 1];
      CollectListIsEntries(c, prefix);
      CollectIsEntriesOfSlots(c, last);
      EntriesAppend(c, SlotsList(prefix), Slots(last));
    }
  }


  /** Soundness and completeness of a walk: an entry is recorded for the tree
      iff one of the tree's slots fires for it; each entry has a non-empty
      invalid string and the visitor's package name, and a tree never yields
      more entries than it has slots. */
  lemma CollectCharacterised(c: Settings, n: Node, e: InvalidString)
    ensures e in Collect(c, n) <==> exists k :: 0 <= k < |Slots(n)| && Fires(c, Slots(n)[k], e)
    ensures e in Collect(c, n) ==> e.str != [] && MatchString(c.lib, c.invalidStrReg, e.str)
    ensures e in Collect(c, n) ==> e.packageName == c.packageName
    ensures |Collect(c, n)| <= |Slots(n)|
  {
    CollectIsEntriesOfSlots(c, n);
    EntriesMembership(c, Slots(n), e);
    EntriesBounded(c, Slots(n));
  }

  lemma {:induction false} ConstSlotsAreConst(specs: seq<Node>, k: int)
    requires 0 <= k < |ConstSlots(specs)|
    ensures ConstSlots(specs)[k].typ == Const
    decreases |specs|
  {
    var prefix, last := specs[..|specs| - 1], specs[|specs| - 1];
    if k < |ConstSlots(prefix)| {
      ConstSlotsAreConst(prefix, k);
    } else {
      SlotsOfAt(last.values, Const, k - |ConstSlots(prefix)|);
    }
  }

  /** Each category arises from exactly one node kind: Const only in a const
      declaration, Binary only in a binary expression (both operands, whatever
      the operator), Case in a case clause, Return in a return statement, Call in
      a call; Assignment never. */
  lemma {:induction false} VisitSlotsByKind(n: Node, k: int)
    requires 0 <= k < |VisitSlots(n)|
    ensures VisitSlots(n)[k].typ != Assignment
    ensures VisitSlots(n)[k].typ == Const <==> n.GenDecl? && n.isConst
    ensures VisitSlots(n)[k].typ == Binary <==> n.BinaryExpr?
    ensures VisitSlots(n)[k].typ == Case <==> n.CaseClause?
    ensures VisitSlots(n)[k].typ == Return <==> n.ReturnStmt?
    ensures VisitSlots(n)[k].typ == Call <==> n.CallExpr?
    ensures n.BinaryExpr? ==> VisitSlots(n) == [Slot(n.x, Binary), Slot(n.y, Binary)]
  {
    match n
    case GenDecl(isConst, specs) =>
      ConstSlotsAreConst(specs, k);
    case CaseClause(list, _) =>
      SlotsOfAt(list, Case, k);
    case ReturnStmt(results) =>
      SlotsOfAt(results, Return, k);
    case CallExpr(_, args) =>
      SlotsOfAt(args, Call, k);
    case _ =>
  }

  lemma NoAssignmentInVisit(n: Node)
    ensures forall k | 0 <= k < |VisitSlots(n)| :: VisitSlots(n)[k].typ != Assignment
  {
    forall k | 0 <= k < |VisitSlots(n)| ensures VisitSlots(n)[k].typ != Assignment {
      VisitSlotsByKind(n, k);
    }
  }

  /** No slot anywhere in a tree has category Assignment. */
  lemma {:induction false} NoAssignmentSlots(n: Node)
    ensures forall k | 0 <= k < |Slots(n)| :: Slots(n)[k].typ != Assignment
    decreases n, 1
  {
    NoAssignmentInVisit(n);
    NoAssignmentChildSlots(n);
  }

  lemma {:induction false} NoAssignmentChildSlots(n: Node)
    ensures forall k | 0 <= k < |ChildSlots(n)| :: ChildSlots(n)[k].typ != Assignment
    decreases n, 0
  {
    match n
    case GenDecl(_, specs) => NoAssignmentList(specs);
    case ValueSpec(names, typ, values) => NoAssignmentList(names); NoAssignmentList(typ); NoAssignmentList(values);
    case AssignStmt(lhs, rhs) => NoAssignmentList(lhs); NoAssignmentList(rhs);
    case BinaryExpr(_, x, y) => NoAssignmentSlots(x); NoAssignmentSlots(y);
    case CaseClause(list, body) => NoAssignmentList(list); NoAssignmentList(body);
    case ReturnStmt(results) => NoAssignmentList(results);
    case CallExpr(fun, args) => NoAssignmentSlots(fun); NoAssignmentList(args);
    case BasicLit(_, _) =>
    case Other(children) => NoAssignmentList(children);
  }

  lemma {:induction false} NoAssignmentList(s: seq<Node>)
    ensures forall k | 0 <= k < |SlotsList(s)| :: SlotsList(s)[k].typ != Assignment
    decreases s, 2
  {
    if s != [] {
      NoAssignmentList(s[..|s| - 1]);
      NoAssignmentSlots(s[|s| - 1]);
    }
  }

  /** Entries depend on the exclusion of a category only through slots of that category. */
  lemma {:induction false} EntriesIgnoreExclusionOfAbsent(c: Settings, slots: seq<Slot>, t: Type, b: bool)
    requires forall k | 0 <= k < |slots| :: slots[k].typ != t
    ensures Entries(c.(excludeTypes := c.excludeTypes[t := b]), slots) == Entries(c, slots)
    decreases |slots|
  {
    if slots != [] {
      EntriesIgnoreExclusionOfAbsent(c, slots[..|slots| - 1], t, b);
    }
  }

  /** Since nothing is ever processed as Assignment, excluding (or including)
      that category never changes what a walk records. */
  lemma AssignmentExclusionHasNoEffect(c: Settings, n: Node, b: bool)
    ensures Collect(c.(excludeTypes := c.excludeTypes[Assignment := b]), n) == Collect(c, n)
  {
    NoAssignmentSlots(n);
    EntriesIgnoreExclusionOfAbsent(c, Slots(n), Assignment, b);
    CollectIsEntriesOfSlots(c, n);
    CollectIsEntriesOfSlots(c.(excludeTypes := c.excludeTypes[Assignment := b]), n);
  }

  /** Walking one more file appends that file's entries. */
  lemma CollectFilesSnoc(c: Settings, files: seq<AstFile>, f: AstFile)
    ensures CollectFiles(c, files + [f]) == CollectFiles(c, files) + Collect(c, f.root)
  {
    assert (files + [f])[..|files|] == files;
  }

  /** Walking files one after the other: the entries of each file form one
      contiguous block, in file order. */
  lemma {:induction false} CollectFilesAppend(c: Settings, a: seq<AstFile>, b: seq<AstFile>)
    ensures CollectFiles(c, a + b) == CollectFiles(c, a) + CollectFiles(c, b)
    decreases |b|
  {
    if b == [] {
      assert a + b == a;
    } else {
      var b', last := b[..|b| - 1], b[|b| - 1];
      assert a + b == (a + b') + [last];
      assert (a + b)[..|a + b| - 1] == a + b';
      CollectFilesAppend(c, a, b');
      AppendAssoc(CollectFiles(c, a), CollectFiles(c, b'), Collect(c, last.root));
    }
  }

  /** Every entry recorded over a list of files is non-empty, matches the
      pattern and carries the visitor's package name. */
  lemma {:induction false} CollectFilesValid(c: Settings, files: seq<AstFile>, e: InvalidString)
    requires e in CollectFiles(c, files)
    ensures e.str != [] && MatchString(c.lib, c.invalidStrReg, e.str)
    ensures e.packageName == c.packageName
    decreases |files|
  {
    var prefix, last := files[..|files| - 1], files[|files| - 1];
    if e in CollectFiles(c, prefix) {
      CollectFilesValid(c, prefix, e);
    } else {
      CollectCharacterised(c, last.root, e);
    }
  }

  // ---------------------------------------------------------------------
  // The visitor object

  /** treeVisitor: the parser it records into and the file's package and name.
      Resolving positions through the file set is not modelled. */
  class TreeVisitor {
    const p: Parser
    const packageName: string
    const fileName: string

    constructor (p: Parser, packageName: string, fileName: string)
      ensures this.p == p && this.packageName == packageName && this.fileName == fileName
    {
      this.p := p;
      this.packageName := packageName;
      this.fileName := fileName;
    }

    function Cfg(): Settings
    {
      Settings(p.lib, p.excludeTypes, p.invalidStrReg, packageName)
    }

    /** Visit: dispatch on the node kind, then return this same visitor, so the
        walk always goes on into the children (also for nil and for a
        non-const declaration). */
    method Visit(node: Option<Node>) returns (w: TreeVisitor)
      requires node.Some? ==> ConstSpecsAreValueSpecs(node.value)
      modifies p`strs
      ensures w == this
      ensures p.strs == old(p.strs) + (if node.Some? then Entries(Cfg(), VisitSlots(node.value)) else [])
    {
      if node.None? {
        return this;
      }
      match node.value {
        case GenDecl(isConst, specs) =>
          if !isConst {
            return this;
          }
          ProcessConst(specs);
        case AssignStmt(_, _) =>
        case BinaryExpr(_, x, y) =>
          ProcessBinaryExpr(x, y);
        case CaseClause(list, _) =>
          ProcessCaseExpr(list);
        case ReturnStmt(results) =>
          ProcessReturnExpr(results);
        case CallExpr(_, args) =>
          ProcessCallExpr(args);
        case _ =>
      }
      return this;
    }

    method ProcessConst(specs: seq<Node>)
      requires forall i | 0 <= i < |specs| :: specs[i].ValueSpec?
      modifies p`strs
      ensures p.strs == old(p.strs) + Entries(Cfg(), ConstSlots(specs))
    {
      for i := 0 to |specs|
        invariant p.strs == old(p.strs) + Entries(Cfg(), ConstSlots(specs[..i]))
      {
        var val := specs[i];
        ProcessExprs(val.values, Const);
        ConstSlotsPrefix(specs, i);
        EntriesAppend(Cfg(), ConstSlots(specs[..i]), SlotsOf(val.values, Const));
        AppendAssoc(old(p.strs), Entries(Cfg(), ConstSlots(specs[..i])), Entries(Cfg(), SlotsOf(val.values, Const)));
      }
      assert specs[..|specs|] == specs;
    }

    /** Never called by Visit: the AssignStmt arm is empty. */
    method ProcessAssignStmt(rhs: seq<Node>)
      modifies p`strs
      ensures p.strs == old(p.strs) + Entries(Cfg(), SlotsOf(rhs, Assignment))
    {
      ProcessExprs(rhs, Assignment);
    }

    method ProcessCaseExpr(list: seq<Node>)
      modifies p`strs
      ensures p.strs == old(p.strs) + Entries(Cfg(), SlotsOf(list, Case))
    {
      ProcessExprs(list, Case);
    }

    method ProcessBinaryExpr(x: Node, y: Node)
      modifies p`strs
      ensures p.strs == old(p.strs) + Entries(Cfg(), [Slot(x, Binary), Slot(y, Binary)])
    {
      ProcessExpr(x, Binary);
      ProcessExpr(y, Binary);
      assert [Slot(x, Binary), Slot(y, Binary)] == [Slot(x, Binary)] + [Slot(y, Binary)];
      EntriesSnoc(Cfg(), [Slot(x, Binary)], Slot(y, Binary));
      assert [Slot(x, Binary)] == [] + [Slot(x, Binary)];
      EntriesSnoc(Cfg(), [], Slot(x, Binary));
      AppendAssoc(old(p.strs), SlotEntries(Cfg(), Slot(x, Binary)), SlotEntries(Cfg(), Slot(y, Binary)));
    }

    method ProcessCallExpr(args: seq<Node>)
      modifies p`strs
      ensures p.strs == old(p.strs) + Entries(Cfg(), SlotsOf(args, Call))
    {
      ProcessExprs(args, Call);
    }

    method ProcessReturnExpr(results: seq<Node>)
      modifies p`strs
      ensures p.strs == old(p.strs) + Entries(Cfg(), SlotsOf(results, Return))
    {
      ProcessExprs(results, Return);
    }

    /** The `for _, item := range list { v.processExpr(item, typ) }` loop the process helpers share. */
    method ProcessExprs(list: seq<Node>, typ: Type)
      modifies p`strs
      ensures p.strs == old(p.strs) + Entries(Cfg(), SlotsOf(list, typ))
    {
      for i := 0 to |list|
        invariant p.strs == old(p.strs) + Entries(Cfg(), SlotsOf(list[..i], typ))
      {
        ProcessExpr(list[i], typ);
        SlotsOfPrefix(list, typ, i);
        EntriesSnoc(Cfg(), SlotsOf(list[..i], typ), Slot(list[i], typ));
      }
      assert list[..|list|] == list;
    }

    method ProcessExpr(t: Node, typ: Type)
      modifies p`strs
      ensures p.strs == old(p.strs) + SlotEntries(Cfg(), Slot(t, typ))
    {
      if t.BasicLit? {
        AddString(t.raw, t.pos, typ);
      }
    }

    /** addString: exclusion, then unquoting, then the empty-string drop, then
        the pattern test, then the append. */
    method AddString(str: string, pos: Position, typ: Type)
      modifies p`strs
      ensures p.strs == old(p.strs) + Report(Cfg(), str, pos, typ)
    {
      // Go's `ok, excluded := m[typ]` binds the value to ok and the presence to excluded.
      var ok, excluded := typ in p.excludeTypes && p.excludeTypes[typ], typ in p.excludeTypes;
      if ok && excluded {
        return;
      }
      var s := str;
      if HasPrefix(s, "\"") || HasPrefix(s, "`") {
        s := Unquote(p.lib, s);
      }
      if |s| == 0 {
        return;
      }
      if !MatchString(p.lib, p.invalidStrReg, s) {
        return;
      }
      p.strs := p.strs + [InvalidString(s, pos, packageName)];
    }
  }

  /** ast.Walk: visit the node, walk its children with the visitor Visit
      returned, then call Visit(nil). */
  method Walk(v: TreeVisitor, n: Node)
    requires WellFormed(n)
    modifies v.p`strs
    ensures v.p.strs == old(v.p.strs) + Collect(v.Cfg(), n)
    decreases n, 1
  {
    var w := v.Visit(Some(n));
    WalkChildren(w, n);
    var _ := w.Visit(None);
  }

  /** The per-kind part of ast.Walk: the child fields in order. */
  method WalkChildren(v: TreeVisitor, n: Node)
    requires WellFormed(n)
    modifies v.p`strs
    ensures v.p.strs == old(v.p.strs) + CollectChildren(v.Cfg(), n)
    decreases n, 0
  {
    ghost var c := v.Cfg();
    match n {
      case GenDecl(_, specs) =>
        WalkList(v, specs);
      case ValueSpec(names, typ, values) =>
        WalkList(v, names);
        WalkList(v, typ);
        WalkList(v, values);
        AppendAssoc(old(v.p.strs), CollectList(c, names), CollectList(c, typ));
        AppendAssoc(old(v.p.strs), CollectList(c, names) + CollectList(c, typ), CollectList(c, values));
      case AssignStmt(lhs, rhs) =>
        WalkList(v, lhs);
        WalkList(v, rhs);
        AppendAssoc(old(v.p.strs), CollectList(c, lhs), CollectList(c, rhs));
      case BinaryExpr(_, x, y) =>
        Walk(v, x);
        Walk(v, y);
        AppendAssoc(old(v.p.strs), Collect(c, x), Collect(c, y));
      case CaseClause(list, body) =>
        WalkList(v, list);
        WalkList(v, body);
        AppendAssoc(old(v.p.strs), CollectList(c, list), CollectList(c, body));
      case ReturnStmt(results) =>
        WalkList(v, results);
      case CallExpr(fun, args) =>
        Walk(v, fun);
        WalkList(v, args);
        AppendAssoc(old(v.p.strs), Collect(c, fun), CollectList(c, args));
      case BasicLit(_, _) =>
      case Other(children) =>
        WalkList(v, children);
    }
  }

  /** ast.Walk's walkList: each node of the list in order. */
  method WalkList(v: TreeVisitor, s: seq<Node>)
    requires AllWellFormed(s)
    modifies v.p`strs
    ensures v.p.strs == old(v.p.strs) + CollectList(v.Cfg(), s)
    decreases s, 2
  {
    for i := 0 to |s|
      invariant v.p.strs == old(v.p.strs) + CollectList(v.Cfg(), s[..i])
    {
      Walk(v, s[i]);
      CollectListPrefix(v.Cfg(), s, i);
      AppendAssoc(old(v.p.strs), CollectList(v.Cfg(), s[..i]), Collect(v.Cfg(), s[i]));
    }
    assert s[..|s|] == s;
  }
}
