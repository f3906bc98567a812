/** Headers, assignments and whole documents of the grammar are lexed into their tokens. */
module LayoutItems {
  import opened Sequences
  import opened Tokens
  import opened LexSpec
  import opened LexRun
  import opened LexPrinted
  import opened Layout
  import opened LayoutStrings
  import opened LayoutScalars
  import opened LayoutLex

  // ---- headers ----

  lemma {:induction false} BlanksSkipped(input: string, p: nat, b: string)
    requires AreBlanks(b) && HasAt(input, p, b) && !IsBlank(Peek(input, p + |b|))
    ensures p <= |input| && SkipBlanks(input, p) == p + |b|
    decreases |b|
  {
    if b != [] {
      RuneOf(input, p, b, 0);
      Behind(input, p, b, 1);
      BlanksSkipped(input, p + 1, b[1..]);
    }
  }

  // The stack inside a header.
  function HeaderStack(ofArray: bool): Stack {
    Frame(if ofArray then LexArrayTableEnd else LexTableEnd, Empty)
  }

  function OpenToken(ofArray: bool): Token {
    Token(if ofArray then ItemArrayTableStart else ItemTableStart, Open(ofArray))
  }

  function CloseToken(ofArray: bool): Token {
    Token(if ofArray then ItemArrayTableEnd else ItemTableEnd, Closing(ofArray))
  }

  lemma HeaderOpens(input: string, p: nat, ofArray: bool, out: seq<Token>)
    requires HasAt(input, p, Open(ofArray)) && (!ofArray ==> Peek(input, p + 1) != '[')
    ensures Reaches(input, Here(LexTop, Empty, p, out),
                    Here(LexTableNameStart, HeaderStack(ofArray), p + |Open(ofArray)|, out + [OpenToken(ofArray)]))
  {
    RuneOf(input, p, Open(ofArray), 0);
    if ofArray {
      RuneOf(input, p, Open(ofArray), 1);
    }
    var c := Config(LexTableStart, Empty, p, p + 1, out);
    StepTo(input, Here(LexTop, Empty, p, out), c);
    StepTo(input, c, Here(LexTableNameStart, HeaderStack(ofArray), p + |Open(ofArray)|, out + [OpenToken(ofArray)]));
  }

  lemma HeaderCloses(input: string, p: nat, ofArray: bool, out: seq<Token>)
    requires HasAt(input, p, Closing(ofArray))
    ensures Reaches(input, Config(HeaderStack(ofArray).top, Empty, p, p + 1, out),
                    Here(LexTopEnd, Empty, p + |Closing(ofArray)|, out + [CloseToken(ofArray)]))
  {
    RuneOf(input, p, Closing(ofArray), 0);
    if ofArray {
      RuneOf(input, p, Closing(ofArray), 1);
    }
    assert input[p..p + |Closing(ofArray)|] == Closing(ofArray);
    StepTo(input, Config(HeaderStack(ofArray).top, Empty, p, p + 1, out),
        Here(LexTopEnd, Empty, p + |Closing(ofArray)|, out + [CloseToken(ofArray)]));
  }

  lemma PieceStart(input: string, k: Stack, p: nat, q: nat, out: seq<Token>)
    requires PlaceOf(k) == InHeader && p <= q < |input| && SkipBlanks(input, p) == q
    requires IsNameRune(input[q]) || input[q] == '"' || input[q] == '\''
    ensures Reaches(input, Here(LexTableNameStart, k, p, out),
                    if IsNameRune(input[q]) then Here(LexBareTableName, k, q, out)
                    else Here(LexValue, Frame(LexTableNameEnd, k), q, out))
  {
    hide SkipBlanks, PlaceOf;
    StepTo(input, Here(LexTableNameStart, k, p, out), if IsNameRune(input[q]) then Here(LexBareTableName, k, q, out)
        else Here(LexValue, Frame(LexTableNameEnd, k), q, out));
  }

  lemma BarePieceEnd(input: string, k: Stack, start: nat, p: nat, out: seq<Token>)
    requires PlaceOf(k) == InHeader && start <= p <= |input| && !IsNameRune(Peek(input, p))
    ensures Reaches(input, Config(LexBareTableName, k, start, p, out),
        Here(LexTableNameEnd, k, p, out + [Token(ItemText, input[start..p])]))
  {
    hide PlaceOf;
    StepTo(input, Config(LexBareTableName, k, start, p, out),
        Here(LexTableNameEnd, k, p, out + [Token(ItemText, input[start..p])]));
  }

  lemma PieceEnd(input: string, k: Stack, p: nat, q: nat, out: seq<Token>)
    requires PlaceOf(k) == InHeader && p <= q < |input| && SkipBlanks(input, p) == q
    requires input[q] == '.' || input[q] == ']'
    ensures k.Frame?
    ensures Reaches(input, Here(LexTableNameEnd, k, p, out),
                    if input[q] == '.' then Here(LexTableNameStart, k, q + 1, out)
                    else Config(k.top, k.rest, q, q + 1, out))
  {
    hide SkipBlanks;
    PopPlace(k);
    StepTo(input, Here(LexTableNameEnd, k, p, out),
           if input[q] == '.' then Here(LexTableNameStart, k, q + 1, out) else Config(k.top, k.rest, q, q + 1, out));
  }

  lemma NamePlace(k: Stack)
    requires PlaceOf(k) == InHeader
    ensures TakesString(PlaceOf(Frame(LexTableNameEnd, k)))
  {
  }

  // What may follow a piece of a header.
  predicate EndsPiece(r: char) {
    IsBlank(r) || r == '.' || r == ']'
  }

  lemma BarePieceForward(input: string, k: Stack, q: nat, name: Name, out: seq<Token>)
    requires PlaceOf(k) == InHeader && LegalName(name) && name.typ.ItemText?
    requires HasAt(input, q, NameText(name)) && EndsPiece(Peek(input, q + |NameText(name)|))
    ensures Reaches(input, Here(LexBareTableName, k, q, out),
                    Here(LexTableNameEnd, k, q + |NameText(name)|, out + [NameToken(name)]))
  {
    hide Reaches, PlaceOf, HasAt, LegalString, SkipBlanks, AreBlanks, All;
    var e := q + |name.txt|;
    NameFirst(input, q, name);
    Sliced(input, q, name.txt, 0, |name.txt|);
    assert name.txt[0..|name.txt|] == name.txt;
    BareRun(input, LexBareTableName, k, q, q, name.txt, out);
    HasBounds(input, q, name.txt);
    BarePieceEnd(input, k, q, e, out);
    Chain(input, Here(LexBareTableName, k, q, out), Config(LexBareTableName, k, q, e, out),
        Here(LexTableNameEnd, k, e, out + [NameToken(name)]));
  }

  lemma PieceForward(input: string, k: Stack, p: nat, before: string, name: Name, out: seq<Token>)
    requires PlaceOf(k) == InHeader && AreBlanks(before) && LegalName(name)
    requires HasAt(input, p, before) && HasAt(input, p + |before|, NameText(name))
    requires EndsPiece(Peek(input, p + |before| + |NameText(name)|))
    ensures Reaches(input, Here(LexTableNameStart, k, p, out),
                    Here(LexTableNameEnd, k, p + |before| + |NameText(name)|, out + [NameToken(name)]))
  {
    hide Reaches, PlaceOf, HasAt, LegalString, SkipBlanks, AreBlanks, All;
    var start, q := Here(LexTableNameStart, k, p, out), p + |before|;
    var end := Here(LexTableNameEnd, k, q + |NameText(name)|, out + [NameToken(name)]);
    NameFirst(input, q, name);
    BlanksSkipped(input, p, before);
    PieceStart(input, k, p, q, out);
    if name.typ.ItemText? {
      BarePieceForward(input, k, q, name, out);
      Chain(input, start, Here(LexBareTableName, k, q, out), end);
    } else {
      NamePlace(k);
      StringForward(input, name.typ, Frame(LexTableNameEnd, k), q, name.txt, out);
      Chain(input, start, Here(LexValue, Frame(LexTableNameEnd, k), q, out), end);
    }
  }

  function AfterPiece(path: Path): string {
    if path.LastPiece? then "]" else "." + PathText(path.rest)
  }

  // The first piece of a header, and what is behind it.
  lemma FirstPieceFacts(input: string, p: nat, path: Path)
    requires LegalPath(path) && HasAt(input, p, PathText(path) + "]")
    ensures var q := p + |path.before| + |NameText(path.name)|; var e := q + |path.after|;
            && HasAt(input, p, path.before) && HasAt(input, p + |path.before|, NameText(path.name))
            && AreBlanks(path.before) && LegalName(path.name)
            && EndsPiece(Peek(input, q)) && q <= e < |input| && SkipBlanks(input, q) == e
            && input[e] == (if path.LastPiece? then ']' else '.')
            && (path.MorePieces? ==> LegalPath(path.rest) && HasAt(input, e + 1, PathText(path.rest) + "]"))
  {
    hide HasAt, LegalName, NameText, SkipBlanks, LegalPath, PathText;
    var q := p + |path.before| + |NameText(path.name)|;
    var e := q + |path.after|;
    LegalPathHead(path);
    PathParts(input, p, path);
    RuneOf(input, e, AfterPiece(path), 0);
    BlanksFirst(path.after, AfterPiece(path));
    RuneOf(input, q, path.after + AfterPiece(path), 0);
    BlanksSkipped(input, q, path.after);
  }

  // The pieces of a header and the bracket behind them.
  lemma {:induction false} PathForward(input: string, k: Stack, p: nat, path: Path, out: seq<Token>)
    requires PlaceOf(k) == InHeader && LegalPath(path) && HasAt(input, p, PathText(path) + "]")
    ensures k.Frame?
    ensures var q := p + |PathText(path)|;
            Reaches(input, Here(LexTableNameStart, k, p, out),
                    Config(k.top, k.rest, q, q + 1, out + PathTokens(path)))
    decreases path
  {
    hide Reaches, PlaceOf, HasAt, LegalName, NameText, SkipBlanks, LegalPath, PathText, PathTokens, AreBlanks,
        EndsPiece, AfterPiece, NameToken;
    var start, out1 := Here(LexTableNameStart, k, p, out), out + [NameToken(path.name)];
    var q := p + |path.before| + |NameText(path.name)|;
    var e := q + |path.after|;
    FirstPieceFacts(input, p, path);
    PieceForward(input, k, p, path.before, path.name, out);
    PieceEnd(input, k, q, e, out1);
    PathShape(path);
    if path.LastPiece? {
      Chain(input, start, Here(LexTableNameEnd, k, q, out1), Config(k.top, k.rest, e, e + 1, out1));
    } else {
      Chain(input, start, Here(LexTableNameEnd, k, q, out1), Here(LexTableNameStart, k, e + 1, out1));
      PathForward(input, k, e + 1, path.rest, out1);
      Regroup(out, [NameToken(path.name)], PathTokens(path.rest));
      var end := e + 1 + |PathText(path.rest)|;
      Chain(input, start, Here(LexTableNameStart, k, e + 1, out1),
          Config(k.top, k.rest, end, end + 1, out + PathTokens(path)));
    }
  }

  lemma LegalPathHead(path: Path)
    requires LegalPath(path)
    ensures AreBlanks(path.before) && LegalName(path.name) && AreBlanks(path.after)
    ensures path.MorePieces? ==> LegalPath(path.rest)
  {
  }

  lemma PathShape(path: Path)
    ensures |PathText(path)| == |path.before| + |NameText(path.name)| + |path.after|
                                + if path.LastPiece? then 0 else 1 + |PathText(path.rest)|
    ensures PathTokens(path)
         == if path.LastPiece? then [NameToken(path.name)] else [NameToken(path.name)] + PathTokens(path.rest)
  {
  }

  lemma PathParts(input: string, p: nat, path: Path)
    requires HasAt(input, p, PathText(path) + "]")
    ensures var q := p + |path.before| + |NameText(path.name)|; var e := q + |path.after|;
            && HasAt(input, p, path.before) && HasAt(input, p + |path.before|, NameText(path.name))
            && HasAt(input, q, path.after + AfterPiece(path)) && HasAt(input, q, path.after)
            && HasAt(input, e, AfterPiece(path))
            && (path.MorePieces? ==> HasAt(input, e + 1, PathText(path.rest) + "]"))
  {
    hide HasAt, NameText, PathText;
    var tail := AfterPiece(path) + if path.LastPiece? then "" else "]";
    var name := NameText(path.name);
    var q := p + |path.before| + |name|;
    PathJoined(path);
    HasSplit(input, p, path.before, name + (path.after + tail));
    HasSplit(input, p + |path.before|, name, path.after + tail);
    HasSplit(input, q, path.after, tail);
    if path.LastPiece? {
      assert tail == "]";
    } else {
      Regroup(path.after, AfterPiece(path), "]");
      HasSplit(input, q, path.after + AfterPiece(path), "]");
      HasSplit(input, q + |path.after|, AfterPiece(path), "]");
      Regroup(".", PathText(path.rest), "]");
      HasSplit(input, q + |path.after|, ".", PathText(path.rest) + "]");
    }
  }

  lemma PathJoined(path: Path)
    ensures var tail := AfterPiece(path) + if path.LastPiece? then "" else "]";
            PathText(path) + "]" == path.before + (NameText(path.name) + (path.after + tail))
  {
    var tail := AfterPiece(path) + if path.LastPiece? then "" else "]";
    if path.LastPiece? {
      assert tail == "]";
    } else {
      Regroup(".", PathText(path.rest), "]");
    }
  }

  lemma PathFirst(path: Path)
    requires LegalPath(path)
    ensures PathText(path) != [] && PathText(path)[0] != '['
  {
    var name := NameText(path.name);
    var rest := if path.LastPiece? then name + path.after else name + (path.after + ("." + PathText(path.rest)));
    assert name[..] == name;
    assert HasAt(name, 0, name);
    NameFirst(name, 0, path.name);
    assert rest[0] == name[0];
    BlanksFirst(path.before, rest);
  }

  lemma HeaderForward(input: string, p: nat, ofArray: bool, path: Path, out: seq<Token>)
    requires LegalPath(path) && HasAt(input, p, WrittenItem(Header(ofArray, path)))
    ensures Reaches(input, Here(LexTop, Empty, p, out),
                    Here(LexTopEnd, Empty, p + |WrittenItem(Header(ofArray, path))|,
                        out + ItemToks(Header(ofArray, path))))
  {
    hide Reaches, HasAt, LegalPath, PathText, PathTokens;
    var k, start := HeaderStack(ofArray), Here(LexTop, Empty, p, out);
    var p1 := p + |Open(ofArray)|;
    var q := p1 + |PathText(path)|;
    var out1 := out + [OpenToken(ofArray)];
    var out2 := out1 + PathTokens(path);
    PathFirst(path);
    HasSplit(input, p, Open(ofArray), PathText(path) + Closing(ofArray));
    RuneOf(input, p1, PathText(path) + Closing(ofArray), 0);
    HasSplit(input, p1, PathText(path), Closing(ofArray));
    HeaderOpens(input, p, ofArray, out);
    ClosingParts(input, p1, path, ofArray);
    PathForward(input, k, p1, path, out1);
    Chain(input, start, Here(LexTableNameStart, k, p1, out1), Config(k.top, Empty, q, q + 1, out2));
    HeaderCloses(input, q, ofArray, out2);
    Chain(input, start, Config(k.top, Empty, q, q + 1, out2),
        Here(LexTopEnd, Empty, q + |Closing(ofArray)|, out2 + [CloseToken(ofArray)]));
    Regroup(out1, PathTokens(path), [CloseToken(ofArray)]);
    Regroup(out, [OpenToken(ofArray)], PathTokens(path) + [CloseToken(ofArray)]);
  }

  lemma ClosingParts(input: string, p: nat, path: Path, ofArray: bool)
    requires HasAt(input, p, PathText(path) + Closing(ofArray))
    ensures HasAt(input, p, PathText(path) + "]")
  {
    if ofArray {
      assert "]]" == "]" + "]";
      Regroup(PathText(path), "]", "]");
      HasSplit(input, p, PathText(path) + "]", "]");
    }
  }

  // ---- items ----

  const KEYS := Frame(LexTopEnd, Empty)

  lemma AssignmentStarts(input: string, p: nat, out: seq<Token>)
    requires p < |input| && (IsNameRune(input[p]) || input[p] == '"' || input[p] == '\'')
    ensures Reaches(input, Here(LexTop, Empty, p, out), Here(LexKeyStart, KEYS, p, out))
  {
    StepTo(input, Here(LexTop, Empty, p, out), Here(LexKeyStart, KEYS, p, out));
  }

  lemma AssignmentForward(input: string, p: nat, pair: Pair, out: seq<Token>)
    requires LegalPair(pair) && HasAt(input, p, PairText(pair)) && Follows(Peek(input, p + |PairText(pair)|))
    ensures Reaches(input, Here(LexTop, Empty, p, out),
                    Here(LexTopEnd, Empty, p + |PairText(pair)|, out + PairToks(pair)))
  {
    hide Reaches, HasAt, PairText, PairToks, LegalVal, LegalName, ValText, Follows;
    PairName(input, p, pair);
    AssignmentStarts(input, p, out);
    if pair.val.Scalar? {
      FollowStops(pair.val.typ, pair.val.txt, Peek(input, p + |PairText(pair)|));
    }
    PairForward(input, KEYS, p, pair, out);
    Chain(input, Here(LexTop, Empty, p, out), Here(LexKeyStart, KEYS, p, out),
        Here(LexTopEnd, Empty, p + |PairText(pair)|, out + PairToks(pair)));
  }

  /** A legal item, before a rune that may follow it. */
  lemma ItemForward(input: string, p: nat, item: Entry, out: seq<Token>)
    requires LegalItem(item) && HasAt(input, p, WrittenItem(item)) && Follows(Peek(input, p + |WrittenItem(item)|))
    ensures Reaches(input, Here(LexTop, Empty, p, out),
                    Here(LexTopEnd, Empty, p + |WrittenItem(item)|, out + ItemToks(item)))
  {
    hide Reaches, HasAt, PairText, PairToks, LegalPath, LegalPair, Follows;
    match item
    case Header(ofArray, path) => HeaderForward(input, p, ofArray, path, out);
    case Assignment(pair) => AssignmentForward(input, p, pair, out);
  }

  lemma PairName(input: string, p: nat, pair: Pair)
    requires LegalPair(pair) && HasAt(input, p, PairText(pair))
    ensures p < |input| && (IsNameRune(input[p]) || input[p] == '"' || input[p] == '\'')
  {
    hide LegalVal, ValText, LegalName, HasAt;
    HasSplit(input, p, NameText(pair.name), pair.left + ("=" + (pair.right + ValText(pair.val))));
    NameFirst(input, p, pair.name);
  }

  // ---- the end of a line and of the document ----

  lemma {:induction false} EndBlanks(input: string, start: nat, p: nat, b: string, out: seq<Token>)
    requires start <= p && AreBlanks(b) && HasAt(input, p, b)
    ensures Reaches(input, Config(LexTopEnd, Empty, start, p, out), Config(LexTopEnd, Empty, start, p + |b|, out))
    decreases |b|
  {
    hide Closed, HasAt;
    if b != [] {
      RuneOf(input, p, b, 0);
      Behind(input, p, b, 1);
      StepTo(input, Config(LexTopEnd, Empty, start, p, out), Config(LexTopEnd, Empty, start, p + 1, out));
      EndBlanks(input, start, p + 1, b[1..], out);
    }
  }

  lemma BreakForward(input: string, start: nat, p: nat, out: seq<Token>)
    requires start <= p < |input| && IsBreak(input[p])
    ensures Reaches(input, Config(LexTopEnd, Empty, start, p, out), Here(LexTop, Empty, p + 1, out))
  {
    StepTo(input, Config(LexTopEnd, Empty, start, p, out), Here(LexTop, Empty, p + 1, out));
  }

  lemma EndMark(input: string, start: nat, p: nat, out: seq<Token>)
    requires start <= p < |input| && input[p] == '#'
    ensures TakesComment(PlaceOf(Frame(LexTop, Empty)))
    ensures Reaches(input, Config(LexTopEnd, Empty, start, p, out),
                    Config(LexCommentStart, Frame(LexTop, Empty), start, p + 1, out))
  {
    StepTo(input, Config(LexTopEnd, Empty, start, p, out),
        Config(LexCommentStart, Frame(LexTop, Empty), start, p + 1, out));
  }

  // The line break or comment that ends a line.
  lemma LineForward(input: string, start: nat, p: nat, piece: Piece, out: seq<Token>)
    requires start <= p && EndsLine(piece) && HasAt(input, p, PieceText(piece))
    ensures Reaches(input, Config(LexTopEnd, Empty, start, p, out),
                    Here(LexTop, Empty, p + |PieceText(piece)|, out + PieceToks(piece)))
  {
    hide Reaches, HasAt;
    RuneOf(input, p, PieceText(piece), 0);
    match piece
    case Space(c) =>
      BreakForward(input, start, p, out);
      assert out + [] == out;
    case Remark(txt, nl) =>
      HasSplit(input, p, "#", txt + [nl]);
      HasSplit(input, p + 1, txt, [nl]);
      RuneOf(input, p + 1 + |txt|, [nl], 0);
      var c, out', q := Config(LexTopEnd, Empty, start, p, out), out + RemarkToks(txt), p + 1 + |txt|;
      EndMark(input, start, p, out);
      RemarkForward(input, Frame(LexTop, Empty), start, p + 1, txt, out);
      SpaceForward(input, LexTop, Empty, q, out');
      Chain(input, c, Config(LexCommentStart, Frame(LexTop, Empty), start, p + 1, out), Here(LexTop, Empty, q, out'));
      Chain(input, c, Here(LexTop, Empty, q, out'), Here(LexTop, Empty, q + 1, out'));
  }

  // The lexer stops having emitted the tokens.
  predicate Stopped(e: Config, toks: seq<Token>) {
    e.state == LexDone && e.out == toks
  }

  lemma TopStops(input: string, out: seq<Token>) returns (e: Config)
    ensures Reaches(input, Here(LexTop, Empty, |input|, out), e) && Stopped(e, out + [Token(ItemEOF, [])])
  {
    assert input[|input|..|input|] == [];
    e := Here(LexDone, Empty, |input|, out + [Token(ItemEOF, [])]);
    StepTo(input, Here(LexTop, Empty, |input|, out), e);
  }

  // A comment at the end of the input, behind its mark.
  lemma LastRemarkForward(input: string, start: nat, p: nat, txt: string, out: seq<Token>) returns (e: Config)
    requires start <= p && HasAt(input, p, txt) && p + |txt| == |input| && LegalRemark(txt)
    ensures Reaches(input, Config(LexCommentStart, Frame(LexTop, Empty), start, p, out), e)
    ensures Stopped(e, out + (RemarkToks(txt) + [Token(ItemEOF, [])]))
  {
    hide Reaches, HasAt;
    assert TakesComment(PlaceOf(Frame(LexTop, Empty)));
    RemarkForward(input, Frame(LexTop, Empty), start, p, txt, out);
    e := TopStops(input, out + RemarkToks(txt));
    Chain(input, Config(LexCommentStart, Frame(LexTop, Empty), start, p, out),
        Here(LexTop, Empty, |input|, out + RemarkToks(txt)), e);
    Regroup(out, RemarkToks(txt), [Token(ItemEOF, [])]);
  }

  lemma EndStops(input: string, start: nat, p: nat, out: seq<Token>) returns (e: Config)
    requires start <= p <= |input| && IsNul(Peek(input, p))
    ensures Reaches(input, Config(LexTopEnd, Empty, start, p, out), e)
    ensures Stopped(e, out + [Token(ItemEOF, if p < |input| then input[start..p] + "\0" else input[start..p])])
  {
    var q := if p < |input| then p + 1 else p;
    e := Here(LexDone, Empty, q, out + [Token(ItemEOF, input[start..q])]);
    StepTo(input, Config(LexTopEnd, Empty, start, p, out), e);
    if p < |input| {
      assert input[p] == '\0';
      assert input[start..q] == input[start..p] + [input[p]];
    }
  }

  // What comes behind the last item.
  lemma EndForward(input: string, start: nat, after: string, end: End, out: seq<Token>) returns (e: Config)
    requires AreBlanks(after) && LegalEnd(end)
    requires HasAt(input, start, after + EndText(end)) && start + |after + EndText(end)| == |input|
    ensures Reaches(input, Here(LexTopEnd, Empty, start, out), e) && Stopped(e, out + EndToks(after, end))
  {
    hide Reaches, HasAt;
    var p := start + |after|;
    HasSplit(input, start, after, EndText(end));
    Sliced(input, start, after, 0, |after|);
    assert after[0..|after|] == after;
    EndBlanks(input, start, start, after, out);
    match end {
      case AtEnd =>
        e := EndStops(input, start, p, out);
      case AtNul(hidden) =>
        RuneOf(input, p, "\0" + hidden, 0);
        e := EndStops(input, start, p, out);
      case AtRemark(txt) =>
        HasSplit(input, p, "#", txt);
        RuneOf(input, p, "#", 0);
        EndMark(input, start, p, out);
        e := LastRemarkForward(input, start, p + 1, txt, out);
        Chain(input, Config(LexTopEnd, Empty, start, p, out),
            Config(LexCommentStart, Frame(LexTop, Empty), start, p + 1, out), e);
    }
    Chain(input, Here(LexTopEnd, Empty, start, out), Config(LexTopEnd, Empty, start, p, out), e);
  }

  // ---- documents ----

  predicate Fills(input: string, p: nat, s: string) {
    HasAt(input, p, s) && p + |s| == |input|
  }

  lemma FillsSplit(input: string, p: nat, a: string, b: string)
    requires Fills(input, p, a + b)
    ensures HasAt(input, p, a) && Fills(input, p + |a|, b)
  {
    HasSplit(input, p, a, b);
  }

  // The rune after an item.
  lemma ItemFollowed(input: string, p: nat, after: string, rest: string)
    requires AreBlanks(after) && Fills(input, p, after + rest) && (rest != [] ==> Follows(rest[0]))
    ensures Follows(Peek(input, p))
  {
    if rest == [] {
      assert after + rest == after;
      if after != [] {
        RuneOf(input, p, after, 0);
      }
    } else {
      BlanksFirst(after, rest);
      RuneOf(input, p, after + rest, 0);
    }
  }

  lemma {:induction false} DocForward(input: string, p: nat, d: Doc, out: seq<Token>) returns (e: Config)
    requires LegalDoc(d) && Fills(input, p, DocText(d))
    ensures Reaches(input, Here(LexTop, Empty, p, out), e) && Stopped(e, out + DocToks(d))
    decreases d, 1
  {
    hide Reaches, HasAt, LegalItem, WrittenItem, ItemToks, Fills, PieceToks, EndToks, PieceText, LegalRemark, AreBlanks,
        EndText;
    match d {
      case Done =>
        NothingLeft(input, p);
        e := TopStops(input, out);
      case LastRemark(txt) =>
        FillsSplit(input, p, "#", txt);
        RuneOf(input, p, "#", 0);
        FillsAt(input, p + 1, txt);
        MarkForward(input, LexTop, Empty, p, out);
        e := LastRemarkForward(input, p, p + 1, txt, out);
        Chain(input, Here(LexTop, Empty, p, out), Config(LexCommentStart, Frame(LexTop, Empty), p, p + 1, out), e);
      case LastItem(item, after, end) =>
        var q, out1 := p + |WrittenItem(item)|, out + ItemToks(item);
        FillsSplit(input, p, WrittenItem(item), after + EndText(end));
        FillsAt(input, q, after + EndText(end));
        EndFirst(end);
        ItemFollowed(input, q, after, EndText(end));
        ItemForward(input, p, item, out);
        e := EndForward(input, q, after, end, out1);
        Chain(input, Here(LexTop, Empty, p, out), Here(LexTopEnd, Empty, q, out1), e);
        Regroup(out, ItemToks(item), EndToks(after, end));
      case Gap(piece, rest) =>
        var q, out1 := p + |PieceText(piece)|, out + PieceToks(piece);
        FillsSplit(input, p, PieceText(piece), DocText(rest));
        LayoutLex.PieceForward(input, LexTop, Empty, p, piece, out);
        e := DocForward(input, q, rest, out1);
        Chain(input, Here(LexTop, Empty, p, out), Here(LexTop, Empty, q, out1), e);
        Regroup(out, PieceToks(piece), DocToks(rest));
      case Line(item, after, piece, rest) =>
        e := ItemLine(input, p, d, out);
    }
  }

  lemma EndFirst(end: End)
    ensures EndText(end) != [] ==> Follows(EndText(end)[0])
  {
  }

  lemma NothingLeft(input: string, p: nat)
    requires Fills(input, p, "")
    ensures p == |input|
  {
  }

  lemma FillsAt(input: string, p: nat, s: string)
    requires Fills(input, p, s)
    ensures HasAt(input, p, s) && p + |s| == |input|
  {
  }

  // A line with an item, and the rest of the document.
  lemma {:induction false} ItemLine(input: string, p: nat, d: Doc, out: seq<Token>) returns (e: Config)
    requires d.Line? && LegalDoc(d) && Fills(input, p, DocText(d))
    ensures Reaches(input, Here(LexTop, Empty, p, out), e) && Stopped(e, out + DocToks(d))
    decreases d, 0
  {
    hide Reaches, HasAt, LegalItem, WrittenItem, ItemToks, Fills, PieceToks, PieceText;
    var item, after, piece, rest := d.item, d.after, d.piece, d.rest;
    var start, q := Here(LexTop, Empty, p, out), p + |WrittenItem(item)|;
    var q1 := q + |after|;
    var q2 := q1 + |PieceText(piece)|;
    var out1 := out + ItemToks(item);
    var out2 := out1 + PieceToks(piece);
    var line := PieceText(piece) + DocText(rest);
    FillsSplit(input, p, WrittenItem(item), after + line);
    LineFirst(piece, DocText(rest));
    ItemFollowed(input, q, after, line);
    FillsSplit(input, q, after, line);
    FillsSplit(input, q1, PieceText(piece), DocText(rest));
    ItemForward(input, p, item, out);
    EndBlanks(input, q, q, after, out1);
    Chain(input, start, Here(LexTopEnd, Empty, q, out1), Config(LexTopEnd, Empty, q, q1, out1));
    LineForward(input, q, q1, piece, out1);
    Chain(input, start, Config(LexTopEnd, Empty, q, q1, out1), Here(LexTop, Empty, q2, out2));
    e := DocForward(input, q2, rest, out2);
    Chain(input, start, Here(LexTop, Empty, q2, out2), e);
    Regroup(out1, PieceToks(piece), DocToks(rest));
    Regroup(out, ItemToks(item), PieceToks(piece) + DocToks(rest));
  }

  lemma LineFirst(piece: Piece, rest: string)
    requires EndsLine(piece)
    ensures PieceText(piece) + rest != [] && Follows((PieceText(piece) + rest)[0])
  {
    assert PieceText(piece) != [] && (PieceText(piece) + rest)[0] == PieceText(piece)[0];
  }

  /** The text of a legal document is lexed into its tokens, wherever there are blanks, line breaks
      and comments. */
  lemma DocTokens(d: Doc)
    requires LegalDoc(d)
    ensures LexAll(DocText(d)) == DocToks(d)
  {
    hide Reaches;
    var text := DocText(d);
    assert text[0..|text|] == text;
    assert Here(LexTop, Empty, 0, []) == LexSpec.INIT;
    var e := DocForward(text, 0, d, []);
    assert [] + DocToks(d) == DocToks(d);
    ReachesSameEnd(text, LexSpec.INIT, e);
  }
}
