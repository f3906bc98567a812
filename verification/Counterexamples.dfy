/** Inputs that show where the code falls short. */
module Counterexamples {
  import opened Runes
  import opened Tokens
  import opened LexSpec
  import opened LexRun
  import opened Outcomes
  import opened Trees
  import opened ParserSpec
  import opened EncoderSpec
  import opened LexPrinted
  import opened LexDocument
  import opened Acceptance
  import opened Documents
  import opened Monotone
  import opened Lines
  import opened Limits
  import opened RoundTrip

  // ---- stale marks in documents ----

  lemma ExecFirst(st: PState, stmts: seq<Stmt>, s: Stmt, rest: seq<Stmt>, st1: PState)
    requires stmts == [s] + rest && Exec(st, s) == Ok(st1)
    ensures ExecAll(st, stmts) == ExecAll(st1, rest)
  {
    assert stmts[1..] == rest;
  }

  // A header of one piece that is new.
  lemma NewTop(st: PState, k: string, ofArray: bool)
    requires k !in st.mapping.entries
    ensures Exec(st, if ofArray then ArrayHeader([k]) else TableHeader([k]))
         == Ok(PState(With(st.mapping, k, if ofArray then Tables([EMPTY]) else Hash(EMPTY)),
                      st.implicits, st.ordered + [[k]], [k]))
  {
    assert [k][..0] == [];
    assert [] + [EMPTY] == [EMPTY];
  }

  // An assignment of a value in a table at the top.
  lemma AssignBelow(st: PState, k: string, t: Table, j: string, v: Value)
    requires st.context == [k] && Get(st.mapping, [k]) == At(t) && j !in t.entries
    ensures Exec(st, Assign(j, v, []))
         == Ok(st.(mapping := PutChild(st.mapping, k, With(t, j, v)), ordered := st.ordered + [[k, j]]))
  {
    OnePiece(st.mapping, k, With(t, j, v));
    assert [k] + [j] == [k, j];
    assert st.ordered + [] + [[k, j]] == st.ordered + [[k, j]];
  }

  // A header that meets a marked name.
  lemma MarkedHeader(st: PState, k: string, t: Table, j: string)
    requires Get(st.mapping, [k]) == At(t) && j in t.entries && IsImplicit(st, [k, j])
    ensures Exec(st, TableHeader([k, j]))
         == Ok(PState(st.mapping, st.implicits[Join([k, j]) := false], st.ordered + [[k, j]], [k, j]))
  {
    var st0 := st.(context := []);
    assert [k, j][..1] == [k] && [] + [k] == [k] && [k] + [j] == [k, j];
    DrillWalks(st0, [k]);
  }

  lemma JoinTwo(k: string, j: string)
    ensures Join([k, j]) == k + "." + j
  {
    assert [k, j][..1] == [k];
  }

  lemma AssignNowhere(st: PState, k: string, t: Table, j: string, x: string)
    requires st.context == [k, j] && Get(st.mapping, [k]) == At(t) && j in t.entries && !Child(t, j).At?
    requires !t.entries[j].Tables?
    ensures Exec(st, Assign(x, Integer(1), [])) == Bug(NotAHash)
  {
    GetAppend(st.mapping, [k], j);
    assert [k] + [j] == [k, j];
  }

  // Making a table on the way to a new one.
  lemma MadeBelow(st: PState, k: string, j: string)
    requires k !in st.mapping.entries
    ensures Exec(st, TableHeader([k, j]))
         == Ok(PState(With(st.mapping, k, Hash(Table(map[j := Hash(EMPTY)]))), st.implicits[k := true],
             st.ordered + [[k, j]], [k, j]))
  {
    var below := Table(map[j := Hash(EMPTY)]);
    var none: Key := [];
    assert [k, j][..1] == [k] && none + [k] == [k] && [k] + [j] == [k, j] && [k][1..] == [];
    var st0 := st.(context := []);
    var st1 := st0.(mapping := With(st.mapping, k, Hash(EMPTY)), implicits := st.implicits[k := true], context := [k]);
    assert Drill(st0, [k]) == Drill(st1, []);
    assert With(EMPTY, j, Hash(EMPTY)) == below;
    OnePiece(st1.mapping, k, below);
    assert PutChild(st1.mapping, k, below) == With(st.mapping, k, Hash(below));
    assert Context(st1) == Ok(EMPTY);
    assert SetValue(st1, j, Hash(EMPTY)) == Ok(st1.(mapping := With(st.mapping, k, Hash(below))));
    assert EstablishContext(st, [k, j], false)
        == Ok(st1.(mapping := With(st.mapping, k, Hash(below)), context := [k, j]));
  }

  // A value at a marked name, and a header with that name.
  lemma AssignAndName(st: PState, k: string, j: string, x: string)
    requires st.context == [k] && Get(st.mapping, [k]) == At(EMPTY)
    requires k + "." + j in st.implicits && st.implicits[k + "." + j]
    ensures ExecAll(st, [Assign(j, Integer(1), []), TableHeader([k, j]), Assign(x, Integer(1), [])]) == Bug(NotAHash)
  {
    var t := With(EMPTY, j, Integer(1));
    AssignBelow(st, k, EMPTY, j, Integer(1));
    var s1 := Exec(st, Assign(j, Integer(1), [])).value;
    assert [k][1..] == [];
    GetPut(st.mapping, [k], t);
    assert Get(s1.mapping, [k]) == At(t);
    JoinTwo(k, j);
    MarkedHeader(s1, k, t, j);
    var s2 := Exec(s1, TableHeader([k, j])).value;
    AssignNowhere(s2, k, t, j, x);
    ExecFirst(st, [Assign(j, Integer(1), []), TableHeader([k, j]), Assign(x, Integer(1), [])],
              Assign(j, Integer(1), []), [TableHeader([k, j]), Assign(x, Integer(1), [])], s1);
    ExecFirst(s1, [TableHeader([k, j]), Assign(x, Integer(1), [])], TableHeader([k, j]), [Assign(x, Integer(1), [])],
        s2);
  }

  lemma SharedMarkRun()
    ensures ExecAll(ParserSpec.INIT, [TableHeader(["a.b", "c"]), TableHeader(["a"])] + TAIL_STMTS) == Bug(NotAHash)
  {
    var tail := [Assign("b", Integer(1), []), TableHeader(["a", "b"]), Assign("x", Integer(1), [])];
    MadeBelow(ParserSpec.INIT, "a.b", "c");
    var s1 := Exec(ParserSpec.INIT, TableHeader(["a.b", "c"])).value;
    NewTop(s1, "a", false);
    var s2 := Exec(s1, TableHeader(["a"])).value;
    FirstTwo(TableHeader(["a.b", "c"]), TableHeader(["a"]), s1, s2, tail);
    assert ["a"][1..] == [];
    assert "a" + "." + "b" == "a.b";
    AssignAndName(s2, "a", "b", "x");
  }

  lemma FirstTwo(s: Stmt, t: Stmt, s1: PState, s2: PState, rest: seq<Stmt>)
    requires Exec(ParserSpec.INIT, s) == Ok(s1) && Exec(s1, t) == Ok(s2)
    ensures ExecAll(ParserSpec.INIT, [s, t] + rest) == ExecAll(s2, rest)
  {
    ExecFirst(ParserSpec.INIT, [s, t] + rest, s, [t] + rest, s1);
    ExecFirst(s1, [t] + rest, t, rest, s2);
  }

  lemma StaleMarkRun()
    ensures ExecAll(ParserSpec.INIT, [ArrayHeader(["a"]), TableHeader(["a", "b", "c"]), ArrayHeader(["a"])]
        + TAIL_STMTS) == Bug(NotAHash)
  {
    hide Exec, ExecAll, Get, Join;
    var tail := [Assign("b", Integer(1), []), TableHeader(["a", "b"]), Assign("x", Integer(1), [])];
    var all := [ArrayHeader(["a"]), TableHeader(["a", "b", "c"]), ArrayHeader(["a"])] + tail;
    NewTop(ParserSpec.INIT, "a", true);
    var s1 := Exec(ParserSpec.INIT, ArrayHeader(["a"])).value;
    var s2 := MadeInElement(s1);
    var s3 := NextElementOf(s2);
    FirstTwo(ArrayHeader(["a"]), TableHeader(["a", "b", "c"]), s1, s2, [ArrayHeader(["a"])] + tail);
    ExecFirst(s2, [ArrayHeader(["a"])] + tail, ArrayHeader(["a"]), tail, s3);
    assert all == [ArrayHeader(["a"]), TableHeader(["a", "b", "c"])] + ([ArrayHeader(["a"])] + tail);
    assert "a" + "." + "b" == "a.b";
    AssignAndName(s3, "a", "b", "x");
  }

  lemma MadeInElement(st: PState) returns (st': PState)
    requires "a" in st.mapping.entries && st.mapping.entries["a"] == Tables([EMPTY])
    ensures Exec(st, TableHeader(["a", "b", "c"])) == Ok(st')
    ensures "a.b" in st'.implicits && st'.implicits["a.b"]
    ensures "a" in st'.mapping.entries && st'.mapping.entries["a"].Tables?
  {
    var st0, a, ab := st.(context := []), ["a"], ["a", "b"];
    assert ["a", "b", "c"][..2] == ab && ab[1..] == ["b"] && ["b"][1..] == [] && a[1..] == [];
    assert [] + ["a"] == a && a + ["b"] == ab;
    JoinTwo("a", "b");
    assert "a" + "." + "b" == "a.b";
    assert Get(st.mapping, a) == At(EMPTY);
    var st1 := st0.(mapping := Put(st.mapping, a, With(EMPTY, "b", Hash(EMPTY))),
        implicits := st.implicits["a.b" := true], context := ab);
    assert Drill(st0, ab) == Drill(st0.(context := a), ["b"]);
    assert Drill(st0.(context := a), ["b"]) == Drill(st1, []);
    GetPut(st.mapping, a, With(EMPTY, "b", Hash(EMPTY)));
    GetAppend(st1.mapping, a, "b");
    st' := Exec(st, TableHeader(["a", "b", "c"])).value;
    ExecGrows(st, TableHeader(["a", "b", "c"]));
    assert GrowsValue(st.mapping.entries["a"], st'.mapping.entries["a"]);
  }

  lemma NextElementOf(st: PState) returns (st': PState)
    requires "a" in st.mapping.entries && st.mapping.entries["a"].Tables?
    ensures Exec(st, ArrayHeader(["a"])) == Ok(st')
    ensures st'.implicits == st.implicits && st'.context == ["a"] && Get(st'.mapping, ["a"]) == At(EMPTY)
  {
    assert ["a"][..0] == [] && ["a"][1..] == [];
    st' := Exec(st, ArrayHeader(["a"])).value;
  }

  lemma BareLine(path: Key)
    requires path != [] && forall i :: 0 <= i < |path| ==> path[i] != [] && AllBare(path[i])
    ensures CleanPath(path)
  {
    forall i | 0 <= i < |path|
      ensures CleanKey(path[i])
    {
      assert forall j :: 0 <= j < |path[i]| ==> IsBareKeyChar(path[i][j]);
    }
  }

  lemma SmallNumber()
    ensures Element(Integer(1)) == Success("1") && Plain(Integer(1))
  {
    assert [Digit(1)] == "1";
  }

  lemma SmallPaths()
    ensures MaybeQuotedAll(["a"]) == "a" && MaybeQuotedAll(["a", "b"]) == "a.b"
    ensures MaybeQuotedAll(["a", "b", "c"]) == "a.b.c"
  {
    assert ["b"][1..] == [] && ["a", "b"][1..] == ["b"] && ["a", "b", "c"][1..] == ["b", "c"]
        && ["b", "c"][1..] == ["c"];
    assert MaybeQuotedAll(["b", "c"]) == "b.c";
  }

  lemma DottedPath()
    ensures MaybeQuotedAll(["a.b", "c"]) == "\"a.b\".c"
  {
    DottedName();
    hide MaybeQuoted;
    assert MaybeQuoted("c") == "c" by {
      BareName("c");
    }
    assert ["a.b", "c"][1..] == ["c"] && ["c"][1..] == [];
    assert MaybeQuotedAll(["c"]) == "c";
  }

  lemma BareName(k: string)
    requires AllBare(k) && k != []
    ensures MaybeQuoted(k) == k
  {
  }

  lemma DottedName()
    ensures MaybeQuoted("a.b") == "\"a.b\""
  {
    assert !IsBareKeyChar("a.b"[1]);
    assert "b"[1..] == "" && ".b"[1..] == "b" && "a.b"[1..] == ".b";
    assert EscapeQuotes("b") == "b" && EscapeQuotes(".b") == ".b" && EscapeQuotes("a.b") == "a.b";
  }

  const A_LINES := HeaderLine(["a"], true)
  const A_LINE := HeaderLine(["a"], false)
  const AB_LINE := HeaderLine(["a", "b"], false)
  const ABC_LINE := HeaderLine(["a", "b", "c"], false)
  const DOT_LINE := HeaderLine(["a.b", "c"], false)
  const B_LINE := PairLine("b", Integer(1))
  const X_LINE := PairLine("x", Integer(1))

  const TAIL_LINES: seq<Line> := [B_LINE, AB_LINE, X_LINE]

  lemma LinesClean()
    ensures CleanPath(["a"]) && CleanPath(["a", "b"]) && CleanPath(["a", "b", "c"]) && CleanPath(["a.b", "c"])
    ensures CleanKey("b") && CleanKey("x")
  {
    BareLine(["a"]);
    BareLine(["a", "b"]);
    BareLine(["a", "b", "c"]);
    assert CleanKey("a.b") && CleanKey("c");
  }

  // One more line in front.
  lemma MoreText(l: Line, rest: seq<Line>, all: seq<Line>)
    requires CleanLine(l) && CleanLines(rest) && all == [l] + rest
    ensures CleanLines(all) && Text(all) == LineText(l) + Text(rest) && Stmts(all) == [LineStmt(l)] + Stmts(rest)
  {
    hide LineText, LineStmt, CleanLine;
    assert all[1..] == rest;
  }

  lemma SmallLines()
    ensures CleanLine(A_LINES) && LineText(A_LINES) == "[[a]]\n" && LineStmt(A_LINES) == ArrayHeader(["a"])
    ensures CleanLine(A_LINE) && LineText(A_LINE) == "[a]\n" && LineStmt(A_LINE) == TableHeader(["a"])
    ensures CleanLine(AB_LINE) && LineText(AB_LINE) == "[a.b]\n" && LineStmt(AB_LINE) == TableHeader(["a", "b"])
    ensures CleanLine(ABC_LINE) && LineText(ABC_LINE) == "[a.b.c]\n"
    ensures LineStmt(ABC_LINE) == TableHeader(["a", "b", "c"])
    ensures CleanLine(DOT_LINE) && LineText(DOT_LINE) == "[\"a.b\".c]\n"
    ensures LineStmt(DOT_LINE) == TableHeader(["a.b", "c"])
    ensures CleanLine(B_LINE) && LineText(B_LINE) == "b = 1\n" && LineStmt(B_LINE) == Assign("b", Integer(1), [])
    ensures CleanLine(X_LINE) && LineText(X_LINE) == "x = 1\n" && LineStmt(X_LINE) == Assign("x", Integer(1), [])
  {
    hide Element, CleanPath, CleanKey, MaybeQuotedAll, MaybeQuoted, Plain;
    LinesClean();
    SmallNumber();
    SmallPaths();
    DottedPath();
    BareName("b");
    BareName("x");
  }

  lemma TailText()
    ensures CleanLines(TAIL_LINES) && Text(TAIL_LINES) == "b = 1\n" + ("[a.b]\n" + ("x = 1\n" + ""))
    ensures Stmts(TAIL_LINES) == TAIL_STMTS
  {
    SmallLines();
    hide LineText, LineStmt, CleanLine;
    MoreText(X_LINE, [], [X_LINE]);
    MoreText(AB_LINE, [X_LINE], [AB_LINE, X_LINE]);
    MoreText(B_LINE, [AB_LINE, X_LINE], TAIL_LINES);
  }

  const TAIL_STMTS: seq<Stmt> := [Assign("b", Integer(1), []), TableHeader(["a", "b"]), Assign("x", Integer(1), [])]

  lemma StaleText()
    ensures "[[a]]\n" + ("[a.b.c]\n" + ("[[a]]\n" + ("b = 1\n" + ("[a.b]\n" + ("x = 1\n" + "")))))
         == "[[a]]\n[a.b.c]\n[[a]]\nb = 1\n[a.b]\nx = 1\n"
    ensures [ArrayHeader(["a"])] + ([TableHeader(["a", "b", "c"])] + ([ArrayHeader(["a"])] + TAIL_STMTS))
         == [ArrayHeader(["a"]), TableHeader(["a", "b", "c"]), ArrayHeader(["a"])] + TAIL_STMTS
  {
  }

  lemma SharedText()
    ensures "[\"a.b\".c]\n" + ("[a]\n" + ("b = 1\n" + ("[a.b]\n" + ("x = 1\n" + ""))))
         == "[\"a.b\".c]\n[a]\nb = 1\n[a.b]\nx = 1\n"
    ensures [TableHeader(["a.b", "c"])] + ([TableHeader(["a"])] + TAIL_STMTS)
         == [TableHeader(["a.b", "c"]), TableHeader(["a"])] + TAIL_STMTS
  {
  }

  lemma StaleLines() returns (lines: seq<Line>)
    ensures CleanLines(lines) && Text(lines) == "[[a]]\n[a.b.c]\n[[a]]\nb = 1\n[a.b]\nx = 1\n"
    ensures Stmts(lines) == [ArrayHeader(["a"]), TableHeader(["a", "b", "c"]), ArrayHeader(["a"])] + TAIL_STMTS
  {
    SmallLines();
    TailText();
    StaleText();
    hide LineText, LineStmt, CleanLine, Text, Stmts;
    var one, two := [A_LINES] + TAIL_LINES, [ABC_LINE] + ([A_LINES] + TAIL_LINES);
    lines := [A_LINES] + two;
    MoreText(A_LINES, TAIL_LINES, one);
    MoreText(ABC_LINE, one, two);
    MoreText(A_LINES, two, lines);
  }

  lemma SharedLines() returns (lines: seq<Line>)
    ensures CleanLines(lines) && Text(lines) == "[\"a.b\".c]\n[a]\nb = 1\n[a.b]\nx = 1\n"
    ensures Stmts(lines) == [TableHeader(["a.b", "c"]), TableHeader(["a"])] + TAIL_STMTS
  {
    SmallLines();
    TailText();
    SharedText();
    hide LineText, LineStmt, CleanLine, Text, Stmts;
    var one := [A_LINE] + TAIL_LINES;
    lines := [DOT_LINE] + one;
    MoreText(A_LINE, TAIL_LINES, one);
    MoreText(DOT_LINE, one, lines);
  }

  /** The mark of a table below an array of tables outlives the element that it was in: a value is
      then taken for an implicit table, and the next assignment fails an assertion. */
  lemma StaleMark()
    ensures Parse(LexAll("[[a]]\n[a.b.c]\n[[a]]\nb = 1\n[a.b]\nx = 1\n")) == Bug(NotAHash)
  {
    hide *;
    var lines := StaleLines();
    StaleMarkRun();
    LinesParse(lines);
  }

  /** Quoted dots make one mark serve two tables, with the same effect. */
  lemma SharedMark()
    ensures Parse(LexAll("[\"a.b\".c]\n[a]\nb = 1\n[a.b]\nx = 1\n")) == Bug(NotAHash)
  {
    hide *;
    var lines := SharedLines();
    SharedMarkRun();
    LinesParse(lines);
  }

  // ---- a dropped value ----

  const DROPPED_STMTS: seq<Stmt> := [TableHeader(["a", "b", "c"]), TableHeader(["a"]), Assign("b", Integer(1), [])]

  lemma DroppedLines() returns (lines: seq<Line>)
    ensures CleanLines(lines) && Text(lines) == "[a.b.c]\n[a]\nb = 1\n" && Stmts(lines) == DROPPED_STMTS
  {
    SmallLines();
    hide LineText, LineStmt, CleanLine, Text, Stmts;
    lines := [ABC_LINE, A_LINE, B_LINE];
    NoLines();
    MoreText(B_LINE, [], [B_LINE]);
    MoreText(A_LINE, [B_LINE], [A_LINE, B_LINE]);
    MoreText(ABC_LINE, [A_LINE, B_LINE], lines);
    assert "[a.b.c]\n" + ("[a]\n" + ("b = 1\n" + "")) == "[a.b.c]\n[a]\nb = 1\n";
  }

  lemma NoLines()
    ensures CleanLines([]) && Text([]) == "" && Stmts([]) == []
  {
  }

  lemma DroppedAccepted()
    ensures PlainDocument(DROPPED_STMTS) && Acceptable(DROPPED_STMTS, 3)
  {
    assert ContextAt(DROPPED_STMTS, 0) == [] && ContextAt(DROPPED_STMTS, 1) == ["a", "b", "c"];
    assert ContextAt(DROPPED_STMTS, 2) == ["a"] && |Full(DROPPED_STMTS, 2)| == 2;
    assert |Full(DROPPED_STMTS, 0)| == 3 && |Full(DROPPED_STMTS, 1)| == 1;
  }

  /** A value that is assigned to a table that an earlier header implies is accepted and lost. */
  lemma DroppedValue()
    ensures Parse(LexAll("[a.b.c]\n[a]\nb = 1\n")).Ok?
    ensures Lookup(Parse(LexAll("[a.b.c]\n[a]\nb = 1\n")).value.mapping, ["a", "b"]).Inner?
  {
    hide Parse, LexAll, Statements, Acceptable, PlainDocument, Lookup, Stmts, Text;
    var lines := DroppedLines();
    var toks := LexAll("[a.b.c]\n[a]\nb = 1\n");
    LinesParse(lines);
    DroppedAccepted();
    DocumentAccepted(toks, DROPPED_STMTS);
    assert DROPPED_STMTS[0].TableHeader? && ["a", "b"] <= DROPPED_STMTS[0].path;
  }

  // ---- a comment in an inline table ----

  lemma CommentRun(rest: string)
    ensures var input := "a={#" + rest;
            Reaches(input, LexSpec.INIT,
                    Here(LexComment, Frame(LexInlineTableValue, TOP), 4,
                         [Token(ItemKeyStart, []), Token(ItemText, "a"), Token(ItemInlineTableStart, []),
                             Token(ItemCommentStart, [])]))
  {
    var input := "a={#" + rest;
    var o1 := [Token(ItemKeyStart, [])];
    var o2 := o1 + [Token(ItemText, "a")];
    var o3 := o2 + [Token(ItemInlineTableStart, [])];
    var o4 := o3 + [Token(ItemCommentStart, [])];
    assert input[0] == 'a' && input[1] == '=' && input[2] == '{' && input[3] == '#';
    assert Here(LexTop, Empty, 0, []) == LexSpec.INIT;
    EnterKey(input, 0, []);
    KeyStarts(input, 0, []);
    assert [] + o1 == o1;
    CommentName(input, o1);
    CommentValue(input, o2);
    CommentTable(input, o3);
    assert o4 == [Token(ItemKeyStart, []), Token(ItemText, "a"), Token(ItemInlineTableStart, []),
        Token(ItemCommentStart, [])];
  }

  lemma CommentName(input: string, out: seq<Token>)
    requires |input| >= 4 && input[0] == 'a' && input[1] == '='
    ensures Reaches(input, Here(LexBareKey, TOP, 0, out), Here(LexKeyEnd, TOP, 1, out + [Token(ItemText, "a")]))
  {
    assert input[0..1] == "a";
    StepTo(input, Here(LexBareKey, TOP, 0, out), Config(LexBareKey, TOP, 0, 1, out));
    StepTo(input, Config(LexBareKey, TOP, 0, 1, out), Here(LexKeyEnd, TOP, 1, out + [Token(ItemText, "a")]));
  }

  lemma CommentValue(input: string, out: seq<Token>)
    requires |input| >= 4 && input[1] == '=' && input[2] == '{'
    ensures Reaches(input, Here(LexKeyEnd, TOP, 1, out),
        Here(LexInlineTableValue, TOP, 3, out + [Token(ItemInlineTableStart, [])]))
  {
    assert input[3..3] == [];
    StepTo(input, Here(LexKeyEnd, TOP, 1, out), Config(LexSkip(LexValue), TOP, 1, 2, out));
    StepTo(input, Config(LexSkip(LexValue), TOP, 1, 2, out), Here(LexValue, TOP, 2, out));
    StepTo(input, Here(LexValue, TOP, 2, out),
        Here(LexInlineTableValue, TOP, 3, out + [Token(ItemInlineTableStart, [])]));
  }

  lemma CommentTable(input: string, out: seq<Token>)
    requires |input| >= 4 && input[3] == '#'
    ensures Reaches(input, Here(LexInlineTableValue, TOP, 3, out),
                    Here(LexComment, Frame(LexInlineTableValue, TOP), 4, out + [Token(ItemCommentStart, [])]))
  {
    assert input[4..4] == [];
    StepTo(input, Here(LexInlineTableValue, TOP, 3, out),
        Config(LexCommentStart, Frame(LexInlineTableValue, TOP), 3, 4, out));
    StepTo(input, Config(LexCommentStart, Frame(LexInlineTableValue, TOP), 3, 4, out),
           Here(LexComment, Frame(LexInlineTableValue, TOP), 4, out + [Token(ItemCommentStart, [])]));
  }

  /** A comment directly in an inline table does fail an assertion of the parser, whatever
      follows it. */
  lemma CommentFailsAssertion(rest: string)
    ensures Parse(LexAll("a={#" + rest)) == Bug(NoKeyStart)
  {
    CommentRun(rest);
    var input := "a={#" + rest;
    var toks := LexAll(input);
    var out := [Token(ItemKeyStart, []), Token(ItemText, "a"), Token(ItemInlineTableStart, []),
        Token(ItemCommentStart, [])];
    RunFrom(input, Here(LexComment, Frame(LexInlineTableValue, TOP), 4, out));
    assert toks[0] == out[0] && toks[1] == out[1] && toks[2] == out[2] && toks[3] == out[3];
    CommentParsed(toks);
  }

  lemma CommentParsed(toks: seq<Token>)
    requires |toks| >= 4 && toks[0].typ.ItemKeyStart? && toks[1] == Token(ItemText, "a")
    requires toks[2].typ.ItemInlineTableStart? && toks[3].typ.ItemCommentStart?
    ensures Parse(toks) == Bug(NoKeyStart)
  {
    var rest := toks[3..];
    assert toks[1..][1..][0] == toks[2] && toks[1..][0] == toks[1] && toks[1..][2..] == rest;
    assert ReadPairs([] + ["a"], map[], [], rest) == Bug(NoKeyStart);
    assert ReadValue([], "a", toks[2], rest) == Bug(NoKeyStart);
    assert ReadPair([], toks[1..]) == Bug(NoKeyStart);
  }

  // ---- a name twice in an inline table ----

  const INLINE := Frame(LexInlineTableValueEnd, TOP)

  lemma PairName(input: string, p: nat, out: seq<Token>)
    requires p + 3 < |input| && input[p] == 'b' && input[p + 1] == '='
    ensures Reaches(input, Here(LexInlineTableValue, TOP, p, out),
                    Here(LexKeyEnd, INLINE, p + 1, out + [Token(ItemKeyStart, []), Token(ItemText, "b")]))
  {
    var o := out + [Token(ItemKeyStart, [])];
    assert input[p..p] == [] && input[p..p + 1] == "b";
    assert o + [Token(ItemText, "b")] == out + [Token(ItemKeyStart, []), Token(ItemText, "b")];
    PairStart(input, p, out);
    PairBareKey(input, p, o);
  }

  lemma PairStart(input: string, p: nat, out: seq<Token>)
    requires p + 3 < |input| && input[p] == 'b' && input[p..p] == []
    ensures Reaches(input, Here(LexInlineTableValue, TOP, p, out),
        Here(LexBareKey, INLINE, p, out + [Token(ItemKeyStart, [])]))
  {
    StepTo(input, Here(LexInlineTableValue, TOP, p, out), Here(LexKeyStart, INLINE, p, out));
    StepTo(input, Here(LexKeyStart, INLINE, p, out), Here(LexBareKey, INLINE, p, out + [Token(ItemKeyStart, [])]));
  }

  lemma PairBareKey(input: string, p: nat, out: seq<Token>)
    requires p + 3 < |input| && input[p] == 'b' && input[p + 1] == '=' && input[p..p + 1] == "b"
    ensures Reaches(input, Here(LexBareKey, INLINE, p, out),
        Here(LexKeyEnd, INLINE, p + 1, out + [Token(ItemText, "b")]))
  {
    StepTo(input, Here(LexBareKey, INLINE, p, out), Config(LexBareKey, INLINE, p, p + 1, out));
    StepTo(input, Config(LexBareKey, INLINE, p, p + 1, out),
        Here(LexKeyEnd, INLINE, p + 1, out + [Token(ItemText, "b")]));
  }

  lemma PairNumber(input: string, p: nat, out: seq<Token>)
    requires p + 3 < |input| && input[p + 1] == '=' && IsDigit(input[p + 2])
    requires (input[p + 3] == ',' || input[p + 3] == '}')
    ensures Reaches(input, Here(LexKeyEnd, INLINE, p + 1, out),
                    Here(LexInlineTableValueEnd, TOP, p + 3, out + [Token(ItemInteger, [input[p + 2]])]))
  {
    assert input[p + 2..p + 3] == [input[p + 2]];
    StepTo(input, Here(LexKeyEnd, INLINE, p + 1, out), Config(LexSkip(LexValue), INLINE, p + 1, p + 2, out));
    StepTo(input, Config(LexSkip(LexValue), INLINE, p + 1, p + 2, out), Here(LexValue, INLINE, p + 2, out));
    StartNatural(input, INLINE, p + 2, out);
    PairNumberEnd(input, p, out);
  }

  lemma PairNumberEnd(input: string, p: nat, out: seq<Token>)
    requires p + 3 < |input| && (input[p + 3] == ',' || input[p + 3] == '}') && input[p + 2..p + 3] == [input[p + 2]]
    ensures Reaches(input, Config(LexNumberOrDate, INLINE, p + 2, p + 3, out),
                    Here(LexInlineTableValueEnd, TOP, p + 3, out + [Token(ItemInteger, [input[p + 2]])]))
  {
    StepTo(input, Config(LexNumberOrDate, INLINE, p + 2, p + 3, out),
           Here(LexInlineTableValueEnd, TOP, p + 3, out + [Token(ItemInteger, [input[p + 2]])]));
  }

  function PairTokens(digit: char): seq<Token> {
    [Token(ItemKeyStart, []), Token(ItemText, "b"), Token(ItemInteger, [digit])]
  }

  lemma InlinePair(input: string, p: nat, out: seq<Token>)
    requires p + 3 < |input| && input[p] == 'b' && input[p + 1] == '=' && IsDigit(input[p + 2])
    requires input[p + 3] == ',' || input[p + 3] == '}'
    ensures Reaches(input, Here(LexInlineTableValue, TOP, p, out),
        Here(LexInlineTableValueEnd, TOP, p + 3, out + PairTokens(input[p + 2])))
  {
    var o := out + [Token(ItemKeyStart, []), Token(ItemText, "b")];
    PairName(input, p, out);
    PairNumber(input, p, o);
    assert o + [Token(ItemInteger, [input[p + 2]])] == out + PairTokens(input[p + 2]);
  }

  lemma InlineComma(input: string, p: nat, out: seq<Token>)
    requires p < |input| && input[p] == ','
    ensures Reaches(input, Here(LexInlineTableValueEnd, TOP, p, out), Here(LexInlineTableValue, TOP, p + 1, out))
  {
    StepTo(input, Here(LexInlineTableValueEnd, TOP, p, out), Here(LexInlineTableValue, TOP, p + 1, out));
  }

  lemma InlineEnd(input: string, p: nat, out: seq<Token>)
    requires p + 1 < |input| && input[p] == '}' && input[p + 1] == '\n'
    ensures Reaches(input, Here(LexInlineTableValueEnd, TOP, p, out),
        Here(LexTop, Empty, p + 2, out + [Token(ItemInlineTableEnd, [])]))
  {
    assert input[p + 1..p + 1] == [];
    StepTo(input, Here(LexInlineTableValueEnd, TOP, p, out), Config(LexInlineTableEnd, TOP, p, p + 1, out));
    StepTo(input, Config(LexInlineTableEnd, TOP, p, p + 1, out),
        Here(LexTopEnd, Empty, p + 1, out + [Token(ItemInlineTableEnd, [])]));
    EndItem(input, p + 1, out + [Token(ItemInlineTableEnd, [])]);
  }

  const TWICE := "a={b=1,b=2}\n"

  lemma TwiceRun()
    ensures LexAll(TWICE)
         == [Token(ItemKeyStart, []), Token(ItemText, "a"), Token(ItemInlineTableStart, [])] + PairTokens('1')
             + PairTokens('2')
            + [Token(ItemInlineTableEnd, [])] + [Token(ItemEOF, [])]
  {
    var o1 := [Token(ItemKeyStart, [])];
    var o2 := o1 + [Token(ItemText, "a")];
    var o3 := o2 + [Token(ItemInlineTableStart, [])];
    var o4 := o3 + PairTokens('1') + PairTokens('2');
    assert o3 == [Token(ItemKeyStart, []), Token(ItemText, "a"), Token(ItemInlineTableStart, [])];
    assert Here(LexTop, Empty, 0, []) == LexSpec.INIT && [] + o1 == o1 && |TWICE| == 12;
    EnterKey(TWICE, 0, []);
    KeyStarts(TWICE, 0, []);
    CommentName(TWICE, o1);
    CommentValue(TWICE, o2);
    TwiceInside(o3);
    EndOfText(TWICE, o4 + [Token(ItemInlineTableEnd, [])]);
    ReachesSameEnd(TWICE, LexSpec.INIT, Here(LexDone, Empty, 12,
        o4 + [Token(ItemInlineTableEnd, [])] + [Token(ItemEOF, [])]));
  }

  lemma TwiceInside(out: seq<Token>)
    ensures Reaches(TWICE, Here(LexInlineTableValue, TOP, 3, out),
                    Here(LexTop, Empty, 12, out + PairTokens('1') + PairTokens('2') + [Token(ItemInlineTableEnd, [])]))
  {
    InlinePair(TWICE, 3, out);
    InlineComma(TWICE, 6, out + PairTokens('1'));
    InlinePair(TWICE, 7, out + PairTokens('1'));
    InlineEnd(TWICE, 10, out + PairTokens('1') + PairTokens('2'));
  }

  lemma SmallScalar(digit: char, n: nat)
    requires IsDigit(digit) && n == digit as int - '0' as int
    ensures ParserSpec.Scalar(Token(ItemInteger, [digit])) == Ok(Integer(n))
  {
    var s := [digit];
    assert s[1..] == [] && s[..0] == [] && digit != '_';
    assert WithoutUnderscores([]) == "" && WithoutUnderscores(s) == s;
    assert Decimal([]) == 0 && Decimal(s) == n;
  }

  lemma ReadSmallPair(context: Key, digit: char, n: nat, rest: seq<Token>)
    requires IsDigit(digit) && n == digit as int - '0' as int
    ensures ReadPair(context, (PairTokens(digit) + rest)[1..]) == Ok(Read(("b", Integer(n)), [], rest))
  {
    var toks := (PairTokens(digit) + rest)[1..];
    SmallScalar(digit, n);
    assert toks[0] == Token(ItemText, "b") && toks[1..][0] == Token(ItemInteger, [digit]) && toks[2..] == rest;
  }

  lemma TwicePairs(rest: seq<Token>)
    ensures var r := ReadPairs(["a"], map[], [],
        PairTokens('1') + (PairTokens('2') + ([Token(ItemInlineTableEnd, [])] + rest)));
            r.Ok? && r.value.val == map["b" := Integer(2)] && r.value.rest == rest
  {
    var end := [Token(ItemInlineTableEnd, [])] + rest;
    ReadSmallPair(["a"], '1', 1, PairTokens('2') + end);
    ReadSmallPair(["a"], '2', 2, end);
    var keys: seq<Key> := [] + [] + [["a"] + ["b"]];
    var hash: map<string, Value> := map["b" := Integer(1)];
    assert ReadPairs(["a"], map[], [], PairTokens('1') + (PairTokens('2') + end))
        == ReadPairs(["a"], hash, keys, PairTokens('2') + end);
    var keys2 := keys + [] + [["a"] + ["b"]];
    assert hash["b" := Integer(2)] == map["b" := Integer(2)];
    assert ReadPairs(["a"], hash, keys, PairTokens('2') + end) == ReadPairs(["a"], map["b" := Integer(2)], keys2, end);
    assert end[1..] == rest;
  }

  /** A name that is repeated in an inline table is accepted, and the first value is lost. */
  lemma RepeatedName()
    ensures Parse(LexAll("a={b=1,b=2}\n")).Ok?
    ensures Parse(LexAll("a={b=1,b=2}\n")).value.mapping == Table(map["a" := Hash(Table(map["b" := Integer(2)]))])
  {
    TwiceRun();
    var end := [Token(ItemEOF, [])];
    var pairs := PairTokens('1') + (PairTokens('2') + ([Token(ItemInlineTableEnd, [])] + end));
    TwicePairs(end);
    RepeatedParsed(LexAll(TWICE), pairs, end);
  }

  lemma RepeatedParsed(toks: seq<Token>, pairs: seq<Token>, end: seq<Token>)
    requires toks == [Token(ItemKeyStart, []), Token(ItemText, "a"), Token(ItemInlineTableStart, [])] + PairTokens('1')
        + PairTokens('2')
                     + [Token(ItemInlineTableEnd, [])] + end
    requires pairs == PairTokens('1') + (PairTokens('2') + ([Token(ItemInlineTableEnd, [])] + end))
    requires end == [Token(ItemEOF, [])]
    requires var r := ReadPairs(["a"], map[], [], pairs);
             r.Ok? && r.value.val == map["b" := Integer(2)] && r.value.rest == end
    ensures Parse(toks).Ok? && Parse(toks).value.mapping == Table(map["a" := Hash(Table(map["b" := Integer(2)]))])
  {
    var head := [Token(ItemKeyStart, []), Token(ItemText, "a"), Token(ItemInlineTableStart, [])];
    assert toks == head + pairs;
    assert toks[1..][1..][0] == toks[2] && toks[1..][0] == toks[1] && toks[1..][2..] == pairs;
    var none: Key := [];
    assert none + ["a"] == ["a"];
    var v := Hash(Table(map["b" := Integer(2)]));
    assert ReadValue([], "a", toks[2], pairs).Ok? && ReadValue([], "a", toks[2], pairs).value.val == v;
    assert ReadPair([], toks[1..]).Ok? && ReadPair([], toks[1..]).value.val == ("a", v);
    assert ParseStmt([], toks).Ok?;
    OneAssignment(toks, "a", v, end);
    assert With(EMPTY, "a", v) == Table(map["a" := v]);
  }

  // A document of one assignment.
  lemma OneAssignment(toks: seq<Token>, k: string, v: Value, end: seq<Token>)
    requires toks != [] && toks[0].typ.ItemKeyStart? && end == [Token(ItemEOF, [])]
    requires var r := ParseStmt([], toks);
             r.Ok? && r.value.val.Assign? && r.value.val.key == k && r.value.val.val == v && r.value.rest == end
    ensures Parse(toks).Ok? && Parse(toks).value.mapping == With(EMPTY, k, v)
  {
    var s := ParseStmt([], toks).value.val;
    var st1 := Exec(ParserSpec.INIT, s).value;
    hide ParseStmt;
    assert ParseFrom(st1, end) == Ok(st1);
  }
}
