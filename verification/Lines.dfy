/** Documents written line by line: headers and assignments as the encoder prints them, and comments,
in any order. */
module Lines {
  import opened Tokens
  import opened LexSpec
  import opened LexRun
  import opened Outcomes
  import opened Trees
  import opened ParserSpec
  import opened EncoderSpec
  import opened LexPrinted
  import opened LexDocument
  import opened ParsePrinted
  import opened RoundTrip
  import opened Documents
  import Layout
  import LayoutLex

  datatype Line = HeaderLine(path: Key, ofArray: bool) | PairLine(key: string, val: Value) | RemarkLine(txt: string)

  predicate CleanLine(l: Line) {
    match l
    case HeaderLine(path, _) => path != [] && CleanPath(path)
    case PairLine(k, v) => CleanKey(k) && Plain(v)
    case RemarkLine(txt) => Layout.LegalRemark(txt)
  }

  predicate CleanLines(lines: seq<Line>) {
    forall i :: 0 <= i < |lines| ==> CleanLine(lines[i])
  }

  function LineText(l: Line): string
    requires CleanLine(l)
  {
    match l
    case HeaderLine(path, ofArray) => HeaderText(path, ofArray)
    case PairLine(k, v) =>
      PlainText(v);
      PairText(k, Element(v).value)
    case RemarkLine(txt) => Layout.PieceText(Layout.Remark(txt, '\n'))
  }

  function LineToks(l: Line): seq<Token> {
    match l
    case HeaderLine(path, ofArray) => HeaderToks(path, ofArray)
    case PairLine(k, v) => AssignToks(k, v)
    case RemarkLine(txt) => Layout.RemarkToks(txt)
  }

  function LineStmt(l: Line): Stmt {
    match l
    case HeaderLine(path, ofArray) => if ofArray then ArrayHeader(path) else TableHeader(path)
    case PairLine(k, v) => Assign(k, v, [])
    case RemarkLine(_) => Comment
  }

  function Text(lines: seq<Line>): string
    requires CleanLines(lines)
  {
    if lines == [] then "" else LineText(lines[0]) + Text(lines[1..])
  }

  function Toks(lines: seq<Line>): seq<Token> {
    if lines == [] then [] else LineToks(lines[0]) + Toks(lines[1..])
  }

  function Stmts(lines: seq<Line>): seq<Stmt> {
    if lines == [] then [] else [LineStmt(lines[0])] + Stmts(lines[1..])
  }

  lemma PrintsLine(l: Line)
    requires CleanLine(l)
    ensures Prints(Success(LineText(l)), LineToks(l))
  {
    var text, toks := LineText(l), LineToks(l);
    forall input: string, p: nat, out: seq<Token> | HasAt(input, p, text)
      ensures Reaches(input, Here(LexTop, Empty, p, out), Here(LexTop, Empty, p + |text|, out + toks))
    {
      match l
      case HeaderLine(path, ofArray) => LexHeader(input, p, path, ofArray, out);
      case PairLine(k, v) =>
        PlainText(v);
        LexPairLine(input, p, k, v, out);
        PairLength(k, Element(v).value);
      case RemarkLine(txt) =>
        LayoutLex.PieceForward(input, LexTop, Empty, p, Layout.Remark(txt, '\n'), out);
    }
  }

  lemma {:induction false} PrintsLines(lines: seq<Line>)
    requires CleanLines(lines)
    ensures Prints(Success(Text(lines)), Toks(lines))
  {
    if lines == [] {
      PrintsNothing();
    } else {
      PrintsLine(lines[0]);
      PrintsLines(lines[1..]);
      PrintsBoth(Success(LineText(lines[0])), LineToks(lines[0]), Success(Text(lines[1..])), Toks(lines[1..]));
    }
  }

  lemma ReadLine(context: Key, l: Line, rest: seq<Token>)
    requires CleanLine(l)
    ensures ParseStmt(context, LineToks(l) + rest) == Ok(Read(LineStmt(l), [], rest))
    ensures ParserSpec.Next(LineToks(l) + rest).Ok? && !ParserSpec.Next(LineToks(l) + rest).value.typ.ItemEOF?
  {
    match l
    case HeaderLine(path, ofArray) => ReadPrintedHeader(context, path, ofArray, rest);
    case PairLine(k, v) => ReadAssign(context, k, v, rest);
    case RemarkLine(txt) =>
      var toks := Layout.RemarkToks(txt) + rest;
      assert toks[1..][0] == Token(ItemText, txt) && toks[2..] == rest;
  }

  lemma {:induction false} ReadLines(context: Key, lines: seq<Line>)
    requires CleanLines(lines)
    ensures ReadAll(context, Toks(lines) + [Token(ItemEOF, [])]) == (Stmts(lines), Ok(()))
    decreases |lines|
  {
    var end := [Token(ItemEOF, [])];
    if lines == [] {
      assert Toks(lines) + end == end;
    } else {
      var rest := Toks(lines[1..]) + end;
      assert Toks(lines) + end == LineToks(lines[0]) + rest;
      hide LineToks, LineStmt;
      ReadLine(context, lines[0], rest);
      ReadLines(Moved(context, LineStmt(lines[0])), lines[1..]);
    }
  }

  // The lines that are no comments.
  function WithoutRemarks(lines: seq<Line>): (bare: seq<Line>)
    ensures CleanLines(lines) ==> CleanLines(bare)
  {
    if lines == [] then [] else (if lines[0].RemarkLine? then [] else [lines[0]]) + WithoutRemarks(lines[1..])
  }

  lemma {:induction false} RemarksDoNothing(st: PState, lines: seq<Line>)
    ensures ExecAll(st, Stmts(WithoutRemarks(lines))) == ExecAll(st, Stmts(lines))
    decreases |lines|
  {
    hide Exec;
    if lines != [] {
      var s := LineStmt(lines[0]);
      assert Stmts(lines)[0] == s && Stmts(lines)[1..] == Stmts(lines[1..]);
      if lines[0].RemarkLine? {
        assert WithoutRemarks(lines) == WithoutRemarks(lines[1..]);
        CommentDoesNothing(st);
        RemarksDoNothing(st, lines[1..]);
      } else {
        var bare := WithoutRemarks(lines);
        assert bare[0] == lines[0] && bare[1..] == WithoutRemarks(lines[1..]);
        assert Stmts(bare)[0] == s && Stmts(bare)[1..] == Stmts(bare[1..]);
        if Exec(st, s).Ok? {
          RemarksDoNothing(Exec(st, s).value, lines[1..]);
        }
      }
    }
  }

  lemma CommentDoesNothing(st: PState)
    ensures Exec(st, Comment) == Ok(st)
  {
  }

  /** A document of printed lines is read as their statements, and parsing performs them; the
      comments among them have no effect. */
  lemma LinesParse(lines: seq<Line>)
    requires CleanLines(lines)
    ensures Statements([], LexAll(Text(lines))) == Ok(Stmts(lines))
    ensures Parse(LexAll(Text(lines))) == ExecAll(ParserSpec.INIT, Stmts(lines))
    ensures Parse(LexAll(Text(lines))) == ExecAll(ParserSpec.INIT, Stmts(WithoutRemarks(lines)))
  {
    RemarksDoNothing(ParserSpec.INIT, lines);
    hide Text, Toks, Stmts, LexAll, Prints;
    PrintsLines(lines);
    PrintedTokens(Text(lines), Toks(lines));
    ReadLines([], lines);
    ParseFactors(ParserSpec.INIT, LexAll(Text(lines)));
  }
}
