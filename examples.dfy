/**
  Worked scenarios from the repository's test data (testdata/main.go and
  testdata/call.go), written as syntax trees, under the default pattern and
  an unquoting that strips the surrounding quotes.
*/
module Scenarios {
  import opened Wrappers
  import opened GoLib
  import opened Ast
  import opened Parser
  import opened Visitor

  /** strconv.Unquote for literals without escapes. */
  function StripQuotes(raw: string): Option<string>
  {
    if |raw| >= 2 && (raw[0] == '"' || raw[0] == '`') && raw[|raw| - 1] == raw[0] then Some(raw[1..|raw| - 1])
    else None
  }

  const Std: Lib := Lib(e => false, (e, s) => false, StripQuotes)

  /** A visitor of package main with the default pattern and nothing excluded. */
  const Main: Settings := Settings(Std, map[], Regexp(DefaultPattern), "main")

  function At(line: int, column: int): Position
  {
    Position("main.go", 0, line, column)
  }

  /** The source text of a double-quoted literal without escapes. */
  function Quote(s: string): string
  {
    "\"" + s + "\""
  }

  function Lit(s: string, line: int, column: int): Node
  {
    BasicLit(Quote(s), At(line, column))
  }

  const Ident: Node := Other([])

  // Small facts the scenarios are assembled from

  lemma LeafCollects(c: Settings, n: Node)
    requires n.BasicLit? || n == Ident
    ensures Collect(c, n) == []
  {
  }

  lemma OneSlot(c: Settings, e: Node, typ: Type)
    ensures SlotsOf([e], typ) == [Slot(e, typ)]
    ensures Entries(c, [Slot(e, typ)]) == SlotEntries(c, Slot(e, typ))
  {
    assert [e][..0] == [];
    assert [Slot(e, typ)][..0] == [];
  }

  lemma TwoSlots(c: Settings, e: Node, d: Node, typ: Type)
    ensures SlotsOf([e, d], typ) == [Slot(e, typ), Slot(d, typ)]
    ensures Entries(c, [Slot(e, typ), Slot(d, typ)]) == SlotEntries(c, Slot(e, typ)) + SlotEntries(c, Slot(d, typ))
  {
    assert [e, d][..1] == [e];
    assert [Slot(e, typ), Slot(d, typ)][..1] == [Slot(e, typ)];
    OneSlot(c, e, typ);
  }

  lemma ListOfOne(c: Settings, n: Node)
    ensures CollectList(c, [n]) == Collect(c, n)
  {
    assert [n][..0] == [];
  }

  lemma ListOfTwo(c: Settings, n: Node, m: Node)
    ensures CollectList(c, [n, m]) == Collect(c, n) + Collect(c, m)
  {
    assert [n, m][..1] == [n];
    ListOfOne(c, n);
  }

  lemma CollectBinary(c: Settings, op: string, x: Node, y: Node)
    ensures Collect(c, BinaryExpr(op, x, y))
         == SlotEntries(c, Slot(x, Binary)) + SlotEntries(c, Slot(y, Binary)) + (Collect(c, x) + Collect(c, y))
  {
    TwoSlots(c, x, y, Binary);
  }

  /** A binary expression whose left operand is a literal and whose right
      operand is not, and contributes nothing, records only the literal's entry. */
  lemma LiteralOperand(c: Settings, op: string, l: Node, y: Node)
    requires l.BasicLit? && !y.BasicLit? && Collect(c, y) == []
    ensures Collect(c, BinaryExpr(op, l, y)) == SlotEntries(c, Slot(l, Binary))
  {
    var r := SlotEntries(c, Slot(l, Binary));
    assert Collect(c, BinaryExpr(op, l, y)) == r + [] + ([] + []) by {
      LeafCollects(c, l);
      CollectBinary(c, op, l, y);
    }
    assert r + [] + ([] + []) == r;
  }

  /** `time.Now().String()` stands for a call without literal arguments. */
  lemma EmptyCallIsSilent(c: Settings)
    ensures Collect(c, CallExpr(Ident, [])) == []
  {
    LeafCollects(c, Ident);
  }

  lemma ConstDeclVisit(name: Node, v: Node)
    ensures VisitSlots(GenDecl(true, [ValueSpec([name], [], [v])])) == [Slot(v, Const)]
  {
    var vs := ValueSpec([name], [], [v]);
    ConstSlotsPrefix([vs], 0);
    assert [vs][..1] == [vs] && [vs][..0] == [];
    assert [v][..0] == [];
  }

  lemma ValueSpecCollect(c: Settings, name: Node, v: Node)
    ensures Collect(c, ValueSpec([name], [], [v])) == Collect(c, name) + Collect(c, v)
  {
    ListOfOne(c, name);
    ListOfOne(c, v);
  }

  lemma CollectConstOne(c: Settings, name: Node, v: Node)
    ensures Collect(c, GenDecl(true, [ValueSpec([name], [], [v])]))
         == SlotEntries(c, Slot(v, Const)) + (Collect(c, name) + Collect(c, v))
  {
    var vs := ValueSpec([name], [], [v]);
    ConstDeclVisit(name, v);
    OneSlot(c, v, Const);
    ListOfOne(c, vs);
    ValueSpecCollect(c, name, v);
  }

  lemma CollectCallOne(c: Settings, f: Node, a: Node)
    ensures Collect(c, CallExpr(f, [a])) == SlotEntries(c, Slot(a, Call)) + (Collect(c, f) + Collect(c, a))
  {
    OneSlot(c, a, Call);
    ListOfOne(c, a);
  }

  lemma CollectCallTwo(c: Settings, f: Node, a: Node, b: Node)
    ensures Collect(c, CallExpr(f, [a, b]))
         == SlotEntries(c, Slot(a, Call)) + SlotEntries(c, Slot(b, Call)) + (Collect(c, f) + (Collect(c, a) + Collect(c, b)))
  {
    TwoSlots(c, a, b, Call);
    ListOfTwo(c, a, b);
  }

  lemma CollectAssignOne(c: Settings, l: Node, r: Node)
    ensures Collect(c, AssignStmt([l], [r])) == Collect(c, l) + Collect(c, r)
  {
    ListOfOne(c, l);
    ListOfOne(c, r);
  }

  lemma CollectReturnOne(c: Settings, r: Node)
    ensures Collect(c, ReturnStmt([r])) == SlotEntries(c, Slot(r, Return)) + Collect(c, r)
  {
    OneSlot(c, r, Return);
    ListOfOne(c, r);
  }

  /** Under the default pattern, a quoted literal of a category that is not
      excluded, with a code point above U+00FF, is reported. */
  lemma QuotedFires(c: Settings, s: string, pos: Position, typ: Type)
    requires c.lib == Std && c.invalidStrReg == Regexp(DefaultPattern)
    requires !Excluded(c, typ) && AboveLatin1(s)
    ensures SlotEntries(c, Slot(BasicLit(Quote(s), pos), typ)) == [InvalidString(s, pos, c.packageName)]
  {
    var raw := Quote(s);
    assert raw[..1] == "\"";
    assert raw[1..|raw| - 1] == s;
  }

  /** A quoted literal that is excluded, empty or without a code point above U+00FF is not reported. */
  lemma QuotedSilent(c: Settings, s: string, pos: Position, typ: Type)
    requires c.lib == Std && c.invalidStrReg == Regexp(DefaultPattern)
    requires Excluded(c, typ) || !AboveLatin1(s)
    ensures SlotEntries(c, Slot(BasicLit(Quote(s), pos), typ)) == []
  {
    var raw := Quote(s);
    assert raw[..1] == "\"";
    assert raw[1..|raw| - 1] == s;
  }

  lemma Flagged(s: string, i: int)
    requires 0 <= i < |s| && s[i] as int > 0xFF
    ensures AboveLatin1(s)
  {
    AboveLatin1Iff(s);
  }

  lemma NotFlagged(s: string)
    requires forall i | 0 <= i < |s| :: s[i] as int <= 0xFF
    ensures !AboveLatin1(s)
  {
    AboveLatin1Iff(s);
  }

  /** Settings with the quote-stripping unquote and the default pattern. */
  ghost predicate Standard(c: Settings)
  {
    c.lib == Std && c.invalidStrReg == Regexp(DefaultPattern)
  }

  /** `const NO_DATA = "no，data！"` (main.go line 12) is reported at the
      literal's position, unless Const is excluded. */
  lemma ConstIsReported(c: Settings, pos: Position)
    requires Standard(c)
    ensures Collect(c, GenDecl(true, [ValueSpec([Ident], [], [BasicLit(Quote("no，data！"), pos)])]))
         == if Excluded(c, Const) then [] else [InvalidString("no，data！", pos, c.packageName)]
  {
    var l := BasicLit(Quote("no，data！"), pos);
    var r := SlotEntries(c, Slot(l, Const));
    assert Collect(c, GenDecl(true, [ValueSpec([Ident], [], [l])])) == r by {
      LeafCollects(c, l);
      LeafCollects(c, Ident);
      CollectConstOne(c, Ident, l);
    }
    assert r == if Excluded(c, Const) then [] else [InvalidString("no，data！", pos, c.packageName)] by {
      if Excluded(c, Const) {
        QuotedSilent(c, "no，data！", pos, Const);
      } else {
        Flagged("no，data！", 2);
        QuotedFires(c, "no，data！", pos, Const);
      }
    }
  }

  /** `logStr := "Current time：" + time.Now().String()` (main.go line 16):
      the assignment itself is not checked, but the literal is an operand of
      the concatenation, reported as a Binary occurrence unless Binary is excluded. */
  lemma ConcatenationInAssignment(c: Settings, pos: Position)
    requires Standard(c)
    ensures Collect(c, AssignStmt([Ident], [BinaryExpr("+", BasicLit(Quote("Current time："), pos), CallExpr(Ident, []))]))
         == if Excluded(c, Binary) then [] else [InvalidString("Current time：", pos, c.packageName)]
  {
    var l := BasicLit(Quote("Current time："), pos);
    var call := CallExpr(Ident, []);
    var bin := BinaryExpr("+", l, call);
    var r := SlotEntries(c, Slot(l, Binary));
    assert Collect(c, bin) == r by {
      EmptyCallIsSilent(c);
      LiteralOperand(c, "+", l, call);
    }
    assert Collect(c, AssignStmt([Ident], [bin])) == Collect(c, bin) by {
      LeafCollects(c, Ident);
      CollectAssignOne(c, Ident, bin);
    }
    assert r == if Excluded(c, Binary) then [] else [InvalidString("Current time：", pos, c.packageName)] by {
      if Excluded(c, Binary) {
        QuotedSilent(c, "Current time：", pos, Binary);
      } else {
        Flagged("Current time：", 12);
        QuotedFires(c, "Current time：", pos, Binary);
      }
    }
  }

  /** `log.Println(":) 😁😁😁")` (main.go line 22) is reported as a Call
      argument unless Call is excluded. */
  lemma CallArgument(c: Settings, pos: Position)
    requires Standard(c)
    ensures Collect(c, CallExpr(Ident, [BasicLit(Quote(":) 😁😁😁"), pos)]))
         == if Excluded(c, Call) then [] else [InvalidString(":) 😁😁😁", pos, c.packageName)]
  {
    var l := BasicLit(Quote(":) 😁😁😁"), pos);
    var r := SlotEntries(c, Slot(l, Call));
    assert Collect(c, CallExpr(Ident, [l])) == r by {
      LeafCollects(c, l);
      LeafCollects(c, Ident);
      CollectCallOne(c, Ident, l);
    }
    assert r == if Excluded(c, Call) then [] else [InvalidString(":) 😁😁😁", pos, c.packageName)] by {
      if Excluded(c, Call) {
        QuotedSilent(c, ":) 😁😁😁", pos, Call);
      } else {
        Flagged(":) 😁😁😁", 3);
        QuotedFires(c, ":) 😁😁😁", pos, Call);
      }
    }
  }

  /** A category mapped to true is silenced; one mapped to false is not. */
  lemma ExclusionScenarios()
    ensures Collect(Main.(excludeTypes := map[Call := true]), CallExpr(Ident, [Lit(":) 😁😁😁", 22, 14)])) == []
    ensures Collect(Main.(excludeTypes := map[Call := false]), CallExpr(Ident, [Lit(":) 😁😁😁", 22, 14)]))
         == [InvalidString(":) 😁😁😁", At(22, 14), "main")]
    ensures Collect(Main.(excludeTypes := map[Binary := true]),
                    AssignStmt([Ident], [BinaryExpr("+", Lit("Current time：", 16, 12), CallExpr(Ident, []))])) == []
  {
    CallArgument(Main.(excludeTypes := map[Call := true]), At(22, 14));
    CallArgument(Main.(excludeTypes := map[Call := false]), At(22, 14));
    ConcatenationInAssignment(Main.(excludeTypes := map[Binary := true]), At(16, 12));
  }

  /** `testCall("x", "y")` reports nothing: neither argument has a code point above U+00FF. */
  lemma PlainCallIsSilent(c: Settings, f: Node, px: Position, py: Position)
    requires Standard(c) && Collect(c, f) == []
    ensures Collect(c, CallExpr(f, [BasicLit(Quote("x"), px), BasicLit(Quote("y"), py)])) == []
  {
    var x, y := BasicLit(Quote("x"), px), BasicLit(Quote("y"), py);
    assert SlotEntries(c, Slot(x, Call)) == [] && SlotEntries(c, Slot(y, Call)) == [] by {
      NotFlagged("x");
      NotFlagged("y");
      QuotedSilent(c, "x", px, Call);
      QuotedSilent(c, "y", py, Call);
    }
    assert Collect(c, x) == [] && Collect(c, y) == [] by {
      LeafCollects(c, x);
      LeafCollects(c, y);
    }
    CollectCallTwo(c, f, x, y);
  }

  /** The concatenation `"a！b"+testCall("x", "y")`: its literal operand is reported as Binary. */
  lemma OperandIsReported(c: Settings, inner: Node, pa: Position)
    requires Standard(c) && inner.CallExpr? && Collect(c, inner) == []
    ensures Collect(c, BinaryExpr("+", BasicLit(Quote("a！b"), pa), inner))
         == if Excluded(c, Binary) then [] else [InvalidString("a！b", pa, c.packageName)]
  {
    var a := BasicLit(Quote("a！b"), pa);
    var r := SlotEntries(c, Slot(a, Binary));
    assert Collect(c, BinaryExpr("+", a, inner)) == r by {
      LiteralOperand(c, "+", a, inner);
    }
    assert r == if Excluded(c, Binary) then [] else [InvalidString("a！b", pa, c.packageName)] by {
      if Excluded(c, Binary) {
        QuotedSilent(c, "a！b", pa, Binary);
      } else {
        Flagged("a！b", 1);
        QuotedFires(c, "a！b", pa, Binary);
      }
    }
  }

  /** `testCall("a！b"+testCall("x", "y"), "z")` (call.go line 10): "a！b" is
      reported once, as an operand of the concatenation, not as a Call argument. */
  lemma NestedCallReportsOperand(c: Settings, bin: Node, pz: Position)
    requires Standard(c) && bin.BinaryExpr?
    ensures Collect(c, CallExpr(Ident, [bin, BasicLit(Quote("z"), pz)])) == Collect(c, bin)
  {
    var z := BasicLit(Quote("z"), pz);
    assert SlotEntries(c, Slot(z, Call)) == [] by {
      NotFlagged("z");
      QuotedSilent(c, "z", pz, Call);
    }
    assert SlotEntries(c, Slot(bin, Call)) == [];
    assert Collect(c, Ident) == [] && Collect(c, z) == [] by {
      LeafCollects(c, Ident);
      LeafCollects(c, z);
    }
    var cb := Collect(c, bin);
    assert Collect(c, CallExpr(Ident, [bin, z])) == [] + [] + ([] + (cb + [])) by {
      CollectCallTwo(c, Ident, bin, z);
    }
    assert [] + [] + ([] + (cb + [])) == cb;
  }

  /** The whole statement of call.go line 10 under the default settings. */
  lemma NestedCallScenario()
    ensures Collect(Main, CallExpr(Ident, [BinaryExpr("+", Lit("a！b", 10, 11), CallExpr(Ident, [Lit("x", 10, 28), Lit("y", 10, 33)])),
                                            Lit("z", 10, 39)]))
         == [InvalidString("a！b", At(10, 11), "main")]
  {
    var inner := CallExpr(Ident, [Lit("x", 10, 28), Lit("y", 10, 33)]);
    LeafCollects(Main, Ident);
    PlainCallIsSilent(Main, Ident, At(10, 28), At(10, 33));
    OperandIsReported(Main, inner, At(10, 11));
    NestedCallReportsOperand(Main, BinaryExpr("+", Lit("a！b", 10, 11), inner), At(10, 39));
  }

  /** Latin-1 letters are not above U+00FF: `return "é"` reports nothing. */
  lemma LatinIsNotReported(c: Settings, pos: Position)
    requires Standard(c)
    ensures Collect(c, ReturnStmt([BasicLit(Quote("é"), pos)])) == []
  {
    var l := BasicLit(Quote("é"), pos);
    assert SlotEntries(c, Slot(l, Return)) == [] by {
      NotFlagged("é");
      QuotedSilent(c, "é", pos, Return);
    }
    LeafCollects(c, l);
    CollectReturnOne(c, l);
  }

  /** The empty literal is dropped before matching. */
  lemma EmptyIsNotReported(c: Settings, pos: Position)
    requires Standard(c)
    ensures Collect(c, ReturnStmt([BasicLit("``", pos)])) == []
  {
    var l := BasicLit("``", pos);
    assert SlotEntries(c, Slot(l, Return)) == [] by {
      assert "``"[..1] == "`";
      assert "``"[1..1] == "";
      assert StripQuotes("``") == Some("");
    }
    LeafCollects(c, l);
    CollectReturnOne(c, l);
  }

  /** A literal that strconv.Unquote rejects decodes to "" and is dropped. */
  lemma UnquoteFailureIsDropped(c: Settings, pos: Position)
    requires Standard(c)
    ensures Collect(c, ReturnStmt([BasicLit("\"！", pos)])) == []
  {
    var l := BasicLit("\"！", pos);
    assert SlotEntries(c, Slot(l, Return)) == [] by {
      assert "\"！"[..1] == "\"";
      assert StripQuotes("\"！") == None;
    }
    LeafCollects(c, l);
    CollectReturnOne(c, l);
  }

  /** The recursive-path rule counts bytes: "é..." has four code points but
      five bytes, so it is walked recursively from "é". */
  lemma RecursivePathCountsBytes()
    ensures |"é..."| == 4
    ensures IsRecursive("é...") && WalkRoot("é...") == "é"
    ensures !IsRecursive("a...")
  {
    RecursivePathRoundTrip("é");
    RecursivePathRoundTrip("a");
  }
}
