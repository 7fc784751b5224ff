/**
  The shapes of Go syntax trees the checker distinguishes (package go/ast),
  as one closed datatype.  Every other node kind is `Other`, which keeps its
  children so that a walk still reaches the literals below it.  Comments carry
  no literals and are not represented.

  Each constructor lists its child fields in the order `ast.Walk` visits them.
*/
module Ast {

  /** A resolved source position (go/token.Position).  Resolving a token
      offset through the file set is not modelled: each literal carries its
      resolved position. */
  datatype Position = Position(filename: string, offset: int, line: int, column: int)

  datatype Node =
    | GenDecl(isConst: bool, specs: seq<Node>)                   // Tok == token.CONST
    | ValueSpec(names: seq<Node>, typ: seq<Node>, values: seq<Node>)  // typ: at most one type expression
    | AssignStmt(lhs: seq<Node>, rhs: seq<Node>)
    | BinaryExpr(op: string, x: Node, y: Node)
    | CaseClause(list: seq<Node>, body: seq<Node>)
    | ReturnStmt(results: seq<Node>)
    | CallExpr(fun: Node, args: seq<Node>)
    | BasicLit(raw: string, pos: Position)                      // raw: the literal's source text
    | Other(children: seq<Node>)

  /** A parsed file: `fset.Position(f.Pos()).Filename` and its syntax tree. */
  datatype AstFile = AstFile(filename: string, root: Node)

  /** What go/parser guarantees and the checker relies on: every spec of a
      `const` declaration is a value spec (the checker's type assertion
      `spec.(*ast.ValueSpec)` would panic otherwise). */
  predicate ConstSpecsAreValueSpecs(n: Node)
  {
    n.GenDecl? && n.isConst ==> forall i | 0 <= i < |n.specs| :: n.specs[i].ValueSpec?
  }

  predicate WellFormed(n: Node)
    decreases n
  {
    ConstSpecsAreValueSpecs(n) &&
    match n
    case GenDecl(_, specs) => AllWellFormed(specs)
    case ValueSpec(names, typ, values) => AllWellFormed(names) && AllWellFormed(typ) && AllWellFormed(values)
    case AssignStmt(lhs, rhs) => AllWellFormed(lhs) && AllWellFormed(rhs)
    case BinaryExpr(_, x, y) => WellFormed(x) && WellFormed(y)
    case CaseClause(list, body) => AllWellFormed(list) && AllWellFormed(body)
    case ReturnStmt(results) => AllWellFormed(results)
    case CallExpr(fun, args) => WellFormed(fun) && AllWellFormed(args)
    case BasicLit(_, _) => true
    case Other(children) => AllWellFormed(children)
  }

  predicate AllWellFormed(s: seq<Node>)
    decreases s
  {
    forall i | 0 <= i < |s| :: WellFormed(s[i])
  }

  predicate FilesWellFormed(files: seq<AstFile>)
  {
    forall i | 0 <= i < |files| :: WellFormed(files[i].root)
  }
}
