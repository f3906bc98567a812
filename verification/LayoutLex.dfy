/** Every document of the grammar is lexed into its tokens. */
module LayoutLex {
  import opened Sequences
  import opened Tokens
  import opened LexSpec
  import opened LexRun
  import opened LexPrinted
  import opened Layout
  import opened LayoutStrings
  import opened LayoutScalars

  // ---- comments and gaps ----

  lemma {:induction false} RemarkRun(input: string, k: Stack, start: nat, p: nat, txt: string, out: seq<Token>)
    requires start <= p && HasAt(input, p, txt) && LegalRemark(txt) && TakesComment(PlaceOf(k))
    ensures Reaches(input, Config(LexComment, k, start, p, out), Config(LexComment, k, start, p + |txt|, out))
    decreases |txt|
  {
    hide Closed, PlaceOf, HasAt;
    if txt != [] {
      RuneOf(input, p, txt, 0);
      Behind(input, p, txt, 1);
      StepTo(input, Config(LexComment, k, start, p, out), Config(LexComment, k, start, p + 1, out));
      RemarkRun(input, k, start, p + 1, txt[1..], out);
    }
  }

  lemma RemarkStarts(input: string, k: Stack, start: nat, p: nat, out: seq<Token>)
    requires start <= p <= |input| && TakesComment(PlaceOf(k))
    ensures Reaches(input, Config(LexCommentStart, k, start, p, out),
                    Here(LexComment, k, p, out + [Token(ItemCommentStart, [])]))
  {
    hide PlaceOf;
    assert input[p..p] == [];
    StepTo(input, Config(LexCommentStart, k, start, p, out),
        Here(LexComment, k, p, out + [Token(ItemCommentStart, [])]));
  }

  lemma RemarkEnds(input: string, k: Stack, start: nat, p: nat, out: seq<Token>)
    requires start <= p <= |input| && TakesComment(PlaceOf(k)) && (IsBreak(Peek(input, p)) || IsNul(Peek(input, p)))
    ensures k.Frame?
    ensures Reaches(input, Config(LexComment, k, start, p, out), Popped(k, p, out + [Token(ItemText, input[start..p])]))
  {
    PopPlace(k);
    hide PlaceOf;
    StepTo(input, Config(LexComment, k, start, p, out), Popped(k, p, out + [Token(ItemText, input[start..p])]));
  }

  // A comment behind its mark.
  lemma RemarkForward(input: string, k: Stack, start: nat, p: nat, txt: string, out: seq<Token>)
    requires start <= p && HasAt(input, p, txt) && LegalRemark(txt) && TakesComment(PlaceOf(k))
    requires IsBreak(Peek(input, p + |txt|)) || IsNul(Peek(input, p + |txt|))
    ensures k.Frame?
    ensures Reaches(input, Config(LexCommentStart, k, start, p, out), Popped(k, p + |txt|, out + RemarkToks(txt)))
  {
    hide Reaches, PlaceOf;
    var out1 := out + [Token(ItemCommentStart, [])];
    assert out1 + [Token(ItemText, txt)] == out + RemarkToks(txt);
    RemarkStarts(input, k, start, p, out);
    RemarkRun(input, k, p, p, txt, out1);
    RemarkEnds(input, k, p, p + |txt|, out1);
    Chain(input, Config(LexCommentStart, k, start, p, out), Here(LexComment, k, p, out1),
        Config(LexComment, k, p, p + |txt|, out1));
    Chain(input, Config(LexCommentStart, k, start, p, out), Config(LexComment, k, p, p + |txt|, out1),
        Popped(k, p + |txt|, out + RemarkToks(txt)));
  }

  // The states in which blanks, line breaks and comments are passed over.
  predicate Gaps(s: State, k: Stack) {
    (s == LexTop && k == Empty) || ((s == LexArrayValue || s == LexArrayValueEnd) && TakesValue(PlaceOf(k)))
  }

  lemma SpaceForward(input: string, s: State, k: Stack, p: nat, out: seq<Token>)
    requires Gaps(s, k) && p < |input| && (IsBlank(input[p]) || IsBreak(input[p]))
    ensures Reaches(input, Here(s, k, p, out), Here(s, k, p + 1, out))
  {
    var c := Config(LexSkip(s), k, p, p + 1, out);
    StepTo(input, Here(s, k, p, out), c);
    StepTo(input, c, Here(s, k, p + 1, out));
  }

  lemma MarkForward(input: string, s: State, k: Stack, p: nat, out: seq<Token>)
    requires Gaps(s, k) && p < |input| && input[p] == '#'
    ensures TakesComment(PlaceOf(Frame(s, k)))
    ensures Reaches(input, Here(s, k, p, out), Config(LexCommentStart, Frame(s, k), p, p + 1, out))
  {
    StepTo(input, Here(s, k, p, out), Config(LexCommentStart, Frame(s, k), p, p + 1, out));
  }

  lemma PieceForward(input: string, s: State, k: Stack, p: nat, piece: Piece, out: seq<Token>)
    requires Gaps(s, k) && LegalPiece(piece) && HasAt(input, p, PieceText(piece))
    ensures Reaches(input, Here(s, k, p, out), Here(s, k, p + |PieceText(piece)|, out + PieceToks(piece)))
  {
    hide Reaches, PlaceOf, Gaps, HasAt;
    RuneOf(input, p, PieceText(piece), 0);
    match piece
    case Space(c) =>
      SpaceForward(input, s, k, p, out);
      assert out + [] == out;
    case Remark(txt, nl) =>
      HasSplit(input, p, "#", txt + [nl]);
      HasSplit(input, p + 1, txt, [nl]);
      RuneOf(input, p + 1 + |txt|, [nl], 0);
      var start, out', q := Here(s, k, p, out), out + RemarkToks(txt), p + 1 + |txt|;
      MarkForward(input, s, k, p, out);
      RemarkForward(input, Frame(s, k), p, p + 1, txt, out);
      SpaceForward(input, s, k, q, out');
      Chain(input, start, Config(LexCommentStart, Frame(s, k), p, p + 1, out), Here(s, k, q, out'));
      Chain(input, start, Here(s, k, q, out'), Here(s, k, q + 1, out'));
  }

  lemma {:induction false} GapForward(input: string, s: State, k: Stack, p: nat, gap: seq<Piece>, out: seq<Token>)
    requires Gaps(s, k) && LegalGap(gap) && HasAt(input, p, GapText(gap))
    ensures Reaches(input, Here(s, k, p, out), Here(s, k, p + |GapText(gap)|, out + GapToks(gap)))
    decreases |gap|
  {
    hide Closed, PlaceOf, Gaps, HasAt, PieceText, PieceToks;
    if gap == [] {
      assert out + [] == out;
    } else {
      HasSplit(input, p, PieceText(gap[0]), GapText(gap[1..]));
      PieceForward(input, s, k, p, gap[0], out);
      GapForward(input, s, k, p + |PieceText(gap[0])|, gap[1..], out + PieceToks(gap[0]));
      Regroup(out, PieceToks(gap[0]), GapToks(gap[1..]));
    }
  }

  // The states in which blanks are passed over.
  predicate Blanks(s: State, k: Stack) {
    || ((s == LexValue || s == LexInlineTableValue || s == LexInlineTableValueEnd) && TakesValue(PlaceOf(k)))
    || (s == LexKeyEnd && TakesKey(PlaceOf(k)))
  }

  lemma BlankForward(input: string, s: State, k: Stack, p: nat, out: seq<Token>)
    requires Blanks(s, k) && p < |input| && IsBlank(input[p])
    ensures Reaches(input, Here(s, k, p, out), Here(s, k, p + 1, out))
  {
    hide PlaceOf;
    var c := Config(LexSkip(s), k, p, p + 1, out);
    StepTo(input, Here(s, k, p, out), c);
    StepTo(input, c, Here(s, k, p + 1, out));
  }

  lemma {:induction false} BlanksForward(input: string, s: State, k: Stack, p: nat, b: string, out: seq<Token>)
    requires Blanks(s, k) && AreBlanks(b) && HasAt(input, p, b)
    ensures Reaches(input, Here(s, k, p, out), Here(s, k, p + |b|, out))
    decreases |b|
  {
    hide Closed, PlaceOf, Blanks, HasAt;
    if b != [] {
      RuneOf(input, p, b, 0);
      Behind(input, p, b, 1);
      BlankForward(input, s, k, p, out);
      BlanksForward(input, s, k, p + 1, b[1..], out);
    }
  }

  // ---- names ----

  lemma {:induction false} BareRun(input: string, s: State, k: Stack, start: nat, p: nat, w: string, out: seq<Token>)
    requires (s == LexBareKey && TakesKey(PlaceOf(k))) || (s == LexBareTableName && PlaceOf(k) == InHeader)
    requires start <= p && HasAt(input, p, w) && All(w, IsNameRune)
    ensures Reaches(input, Config(s, k, start, p, out), Config(s, k, start, p + |w|, out))
    decreases |w|
  {
    hide Closed, PlaceOf, HasAt;
    if w != [] {
      RuneOf(input, p, w, 0);
      Behind(input, p, w, 1);
      StepTo(input, Config(s, k, start, p, out), Config(s, k, start, p + 1, out));
      BareRun(input, s, k, start, p + 1, w[1..], out);
    }
  }

  // A name of a pair is followed by blanks or an equals sign.
  predicate EndsKey(r: char) {
    IsBlank(r) || r == '='
  }

  lemma KeyStartForward(input: string, k: Stack, p: nat, out: seq<Token>)
    requires p < |input| && TakesKey(PlaceOf(k)) && (IsNameRune(input[p]) || input[p] == '"' || input[p] == '\'')
    ensures var out' := out + [Token(ItemKeyStart, [])];
            Reaches(input, Here(LexKeyStart, k, p, out),
                    if IsNameRune(input[p]) then Here(LexBareKey, k, p, out')
                    else Here(LexValue, Frame(LexKeyEnd, k), p, out'))
  {
    hide PlaceOf;
    assert input[p..p] == [];
    var out' := out + [Token(ItemKeyStart, [])];
    StepTo(input, Here(LexKeyStart, k, p, out), if IsNameRune(input[p]) then Here(LexBareKey, k, p, out')
        else Here(LexValue, Frame(LexKeyEnd, k), p, out'));
  }

  lemma BareKeyEnd(input: string, k: Stack, start: nat, p: nat, out: seq<Token>)
    requires start <= p <= |input| && TakesKey(PlaceOf(k)) && EndsKey(Peek(input, p))
    ensures Reaches(input, Config(LexBareKey, k, start, p, out),
        Here(LexKeyEnd, k, p, out + [Token(ItemText, input[start..p])]))
  {
    hide PlaceOf;
    StepTo(input, Config(LexBareKey, k, start, p, out),
        Here(LexKeyEnd, k, p, out + [Token(ItemText, input[start..p])]));
  }

  // The first rune of a name.
  lemma NameFirst(input: string, p: nat, name: Name)
    requires LegalName(name) && HasAt(input, p, NameText(name))
    ensures p < |input|
    ensures name.typ.ItemText? ==> IsNameRune(input[p]) && NameText(name) == name.txt
    ensures !name.typ.ItemText? ==>
              IsStringToken(name.typ) && (input[p] == '"' || input[p] == '\'') && !IsNameRune(input[p])
  {
    assert name.typ.ItemText? ==> NameText(name) == name.txt;
    RuneOf(input, p, NameText(name), 0);
  }

  lemma KeyPlace(k: Stack)
    requires TakesKey(PlaceOf(k))
    ensures TakesString(PlaceOf(Frame(LexKeyEnd, k)))
  {
  }

  lemma KeyForward(input: string, k: Stack, p: nat, name: Name, out: seq<Token>)
    requires LegalName(name) && HasAt(input, p, NameText(name)) && TakesKey(PlaceOf(k))
    requires EndsKey(Peek(input, p + |NameText(name)|))
    ensures Reaches(input, Here(LexKeyStart, k, p, out),
                    Here(LexKeyEnd, k, p + |NameText(name)|, out + [Token(ItemKeyStart, []), NameToken(name)]))
  {
    hide Reaches, PlaceOf, LegalString, HasAt, All;
    var out', q := out + [Token(ItemKeyStart, [])], p + |NameText(name)|;
    assert out' + [NameToken(name)] == out + [Token(ItemKeyStart, []), NameToken(name)];
    NameFirst(input, p, name);
    KeyStartForward(input, k, p, out);
    if name.typ.ItemText? {
      Sliced(input, p, name.txt, 0, |name.txt|);
      assert name.txt[0..|name.txt|] == name.txt;
      BareRun(input, LexBareKey, k, p, p, name.txt, out');
      HasBounds(input, p, name.txt);
      BareKeyEnd(input, k, p, q, out');
      Chain(input, Here(LexKeyStart, k, p, out), Here(LexBareKey, k, p, out'), Config(LexBareKey, k, p, q, out'));
      Chain(input, Here(LexKeyStart, k, p, out), Config(LexBareKey, k, p, q, out'),
          Here(LexKeyEnd, k, q, out' + [NameToken(name)]));
    } else {
      KeyPlace(k);
      StringForward(input, name.typ, Frame(LexKeyEnd, k), p, name.txt, out');
      Chain(input, Here(LexKeyStart, k, p, out), Here(LexValue, Frame(LexKeyEnd, k), p, out'),
          Here(LexKeyEnd, k, q, out' + [NameToken(name)]));
    }
  }

  // ---- arrays and inline tables ----

  lemma OpenForward(input: string, k: Stack, p: nat, out: seq<Token>)
    requires p < |input| && (input[p] == '[' || input[p] == '{') && TakesValue(PlaceOf(k))
    ensures Reaches(input, Here(LexValue, k, p, out),
                    if input[p] == '[' then Here(LexArrayValue, k, p + 1, out + [Token(ItemArray, [])])
                    else Here(LexInlineTableValue, k, p + 1, out + [Token(ItemInlineTableStart, [])]))
  {
    hide PlaceOf;
    assert input[p + 1..p + 1] == [];
    StepTo(input, Here(LexValue, k, p, out),
           if input[p] == '[' then Here(LexArrayValue, k, p + 1, out + [Token(ItemArray, [])])
           else Here(LexInlineTableValue, k, p + 1, out + [Token(ItemInlineTableStart, [])]));
  }

  lemma CloseInline(input: string, s: State, k: Stack, p: nat, out: seq<Token>)
    requires s == LexInlineTableValue || s == LexInlineTableValueEnd
    requires p < |input| && input[p] == '}' && TakesValue(PlaceOf(k))
    ensures k.Frame?
    ensures Reaches(input, Here(s, k, p, out), Popped(k, p + 1, out + [Token(ItemInlineTableEnd, [])]))
  {
    hide PlaceOf, Reaches, Step;
    PopPlace(k);
    CloseSteps(input, s, k, p, out);
    var c := Config(LexInlineTableEnd, k, p, p + 1, out);
    StepTo(input, Here(s, k, p, out), c);
    StepTo(input, c, Popped(k, p + 1, out + [Token(ItemInlineTableEnd, [])]));
    Chain(input, Here(s, k, p, out), c, Popped(k, p + 1, out + [Token(ItemInlineTableEnd, [])]));
  }

  lemma CloseSteps(input: string, s: State, k: Stack, p: nat, out: seq<Token>)
    requires s == LexInlineTableValue || s == LexInlineTableValueEnd
    requires p < |input| && input[p] == '}' && k.Frame?
    ensures var c := Config(LexInlineTableEnd, k, p, p + 1, out);
            && Step(input, Here(s, k, p, out)) == c
            && Step(input, c) == Popped(k, p + 1, out + [Token(ItemInlineTableEnd, [])])
  {
    assert input[p + 1..p + 1] == [];
  }

  lemma CommaForward(input: string, s: State, k: Stack, p: nat, out: seq<Token>)
    requires s == LexArrayValueEnd || s == LexInlineTableValueEnd
    requires p < |input| && input[p] == ',' && TakesValue(PlaceOf(k))
    ensures Reaches(input, Here(s, k, p, out),
                    Here(if s == LexArrayValueEnd then LexArrayValue else LexInlineTableValue, k, p + 1, out))
  {
    hide PlaceOf;
    StepTo(input, Here(s, k, p, out),
        Here(if s == LexArrayValueEnd then LexArrayValue else LexInlineTableValue, k, p + 1, out));
  }

  // The rune at which an element begins.
  predicate BeginsElement(r: char) {
    !IsBlank(r) && !IsBreak(r) && r != '#' && r != ',' && r != ']'
  }

  lemma ElementForward(input: string, k: Stack, p: nat, out: seq<Token>)
    requires p <= |input| && BeginsElement(Peek(input, p)) && TakesValue(PlaceOf(k))
    ensures TakesValue(PlaceOf(Frame(LexArrayValueEnd, k)))
    ensures Reaches(input, Here(LexArrayValue, k, p, out), Here(LexValue, Frame(LexArrayValueEnd, k), p, out))
  {
    StepTo(input, Here(LexArrayValue, k, p, out), Here(LexValue, Frame(LexArrayValueEnd, k), p, out));
  }

  // The rune at which a pair of an inline table begins.
  predicate BeginsPair(r: char) {
    !IsBlank(r) && !IsBreak(r) && r != '#' && r != ',' && r != '}'
  }

  lemma PairStarts(input: string, k: Stack, p: nat, out: seq<Token>)
    requires p <= |input| && BeginsPair(Peek(input, p)) && TakesValue(PlaceOf(k))
    ensures TakesKey(PlaceOf(Frame(LexInlineTableValueEnd, k)))
    ensures Reaches(input, Here(LexInlineTableValue, k, p, out),
                    Here(LexKeyStart, Frame(LexInlineTableValueEnd, k), p, out))
  {
    StepTo(input, Here(LexInlineTableValue, k, p, out), Here(LexKeyStart, Frame(LexInlineTableValueEnd, k), p, out));
  }

  lemma EqualsForward(input: string, k: Stack, p: nat, out: seq<Token>)
    requires p < |input| && input[p] == '=' && TakesKey(PlaceOf(k))
    ensures Reaches(input, Here(LexKeyEnd, k, p, out), Here(LexValue, k, p + 1, out))
  {
    hide PlaceOf;
    var c := Config(LexSkip(LexValue), k, p, p + 1, out);
    StepTo(input, Here(LexKeyEnd, k, p, out), c);
    StepTo(input, c, Here(LexValue, k, p + 1, out));
  }

  // The rune at which a text begins.
  function First(s: string): char
    requires s != []
  {
    s[0]
  }

  lemma PeekFirst(input: string, p: nat, s: string)
    requires HasAt(input, p, s) && s != []
    ensures p < |input| && Peek(input, p) == First(s)
  {
    RuneOf(input, p, s, 0);
  }

  lemma GapFirst(gap: seq<Piece>, rest: string)
    requires LegalGap(gap) && rest != [] && Follows(rest[0])
    ensures Follows((GapText(gap) + rest)[0])
  {
    if gap != [] {
      assert LegalPiece(gap[0]);
      assert PieceText(gap[0]) != [] && (GapText(gap) + rest)[0] == PieceText(gap[0])[0];
    }
  }

  lemma BlanksFirst(b: string, rest: string)
    requires AreBlanks(b) && rest != []
    ensures var r := (b + rest)[0]; IsBlank(r) || r == rest[0]
  {
    if b != [] {
      assert (b + rest)[0] == b[0];
    }
  }

  // The first rune of a value.
  lemma ValFirst(v: Val)
    requires LegalVal(v)
    ensures ValText(v) != []
    ensures var r := ValText(v)[0]; BeginsElement(r) && !IsNul(r)
  {
    if v.Scalar? {
      ScalarFirst(v.typ, v.txt);
    }
  }

  lemma ScalarFirst(typ: TokenType, txt: string)
    requires LegalScalar(typ, txt)
    ensures var s := QuoteText(typ) + txt + QuoteText(typ);
            s != [] && BeginsElement(s[0]) && !IsNul(s[0])
  {
    hide LegalString;
    var s := QuoteText(typ) + txt + QuoteText(typ);
    assert QuoteText(typ) == "" ==> s == txt;
    match typ {
      case ItemInteger => IntegerFirst(txt);
      case ItemFloat =>
        var i :| 0 < i < |txt| && FloatAt(txt, i);
        IntegerFirst(txt[..i]);
        assert txt[0] == txt[..i][0];
      case ItemDatetime =>
        var i :| 0 < i < |txt| && DatetimeAt(txt, i);
        assert txt[0] == txt[..i][0] && IsDigitRune(txt[..i][0]);
      case ItemBool =>
      case _ => assert LegalString(typ, txt); StringQuotes(typ, txt);
    }
  }

  lemma StringQuotes(typ: TokenType, txt: string)
    requires LegalString(typ, txt)
    ensures QuoteText(typ) != [] && (QuoteText(typ)[0] == '"' || QuoteText(typ)[0] == '\'')
  {
  }

  lemma IntegerFirst(m: string)
    requires IntegerLike(m)
    ensures m != [] && (IsDigitRune(m[0]) || m[0] == '+' || m[0] == '-')
  {
  }

  // The value v before a rune that may follow it.
  ghost predicate ReadsVal(input: string, k: Stack, p: nat, v: Val, out: seq<Token>) {
    && k.Frame?
    && Reaches(input, Here(LexValue, k, p, out), Popped(k, p + |ValText(v)|, out + ValToks(v)))
  }

  /** A legal value, before a rune that does not continue it. */
  lemma {:induction false} ValForward(input: string, k: Stack, p: nat, v: Val, out: seq<Token>)
    requires LegalVal(v) && HasAt(input, p, ValText(v)) && TakesValue(PlaceOf(k))
    requires v.Scalar? ==> Stops(v.typ, v.txt, Peek(input, p + |ValText(v)|))
    ensures ReadsVal(input, k, p, v, out)
    decreases v, 2
  {
    hide Reaches, PlaceOf, HasAt, LegalScalar, LegalTail, LegalPairs, TailText, TailToks, PairsText, PairsToks, Stops;
    match v
    case Scalar(typ, txt) => ScalarForward(input, typ, k, p, txt, out);
    case Arr(tail) =>
      HasSplit(input, p, "[", TailText(tail));
      RuneOf(input, p, "[", 0);
      OpenForward(input, k, p, out);
      TailForward(input, k, p + 1, tail, out + [Token(ItemArray, [])]);
      Regroup(out, [Token(ItemArray, [])], TailToks(tail));
      Chain(input, Here(LexValue, k, p, out), Here(LexArrayValue, k, p + 1, out + [Token(ItemArray, [])]),
          Popped(k, p + |ValText(v)|, out + ValToks(v)));
    case Inline(pairs) =>
      HasSplit(input, p, "{", PairsText(pairs));
      RuneOf(input, p, "{", 0);
      OpenForward(input, k, p, out);
      PairsForward(input, k, p + 1, pairs, out + [Token(ItemInlineTableStart, [])]);
      Regroup(out, [Token(ItemInlineTableStart, [])], PairsToks(pairs));
      Chain(input, Here(LexValue, k, p, out),
          Here(LexInlineTableValue, k, p + 1, out + [Token(ItemInlineTableStart, [])]),
          Popped(k, p + |ValText(v)|, out + ValToks(v)));
  }

  // What comes behind an element of an array.
  function AfterVal(t: Tail): string
    requires !t.Close?
  {
    GapText(t.after) + if t.Last? then "]" else "," + TailText(t.rest)
  }

  lemma {:induction false} TailForward(input: string, k: Stack, p: nat, t: Tail, out: seq<Token>)
    requires LegalTail(t) && HasAt(input, p, TailText(t)) && TakesValue(PlaceOf(k))
    ensures k.Frame?
    ensures Reaches(input, Here(LexArrayValue, k, p, out), Popped(k, p + |TailText(t)|, out + TailToks(t)))
    decreases t, 1
  {
    hide Reaches, PlaceOf, HasAt, LegalVal, LegalGap, GapText, GapToks, ValText, ValToks, Follows;
    var start, out1 := Here(LexArrayValue, k, p, out), out + GapToks(t.gap);
    var p1 := p + |GapText(t.gap)|;
    HasFrame(k);
    TailGap(input, k, p, t, out);
    if t.Close? {
      RuneOf(input, p1, "]", 0);
      CloseArray(input, LexArrayValue, k, p1, out1);
      Chain(input, start, Here(LexArrayValue, k, p1, out1), Popped(k, p1 + 1, out1 + [Token(ItemArrayEnd, [])]));
      Regroup(out, GapToks(t.gap), [Token(ItemArrayEnd, [])]);
    } else {
      var out2, p2 := out1 + ValToks(t.val), p1 + |ValText(t.val)|;
      TailVal(input, k, p1, t, out1);
      Chain(input, start, Here(LexArrayValue, k, p1, out1), Here(LexArrayValueEnd, k, p2, out2));
      TailRest(input, k, p2, t, out2);
      Chain(input, start, Here(LexArrayValueEnd, k, p2, out2),
          Popped(k, p2 + |AfterVal(t)|, out2 + AfterValToks(t)));
      Regroup(out1, ValToks(t.val), AfterValToks(t));
      Regroup(out, GapToks(t.gap), ValToks(t.val) + AfterValToks(t));
    }
  }

  function AfterValToks(t: Tail): seq<Token>
    requires !t.Close?
  {
    GapToks(t.after) + if t.Last? then [Token(ItemArrayEnd, [])] else TailToks(t.rest)
  }

  lemma TailShape(t: Tail)
    ensures TailText(t) == GapText(t.gap) + if t.Close? then "]" else ValText(t.val) + AfterVal(t)
  {
  }

  lemma TailGap(input: string, k: Stack, p: nat, t: Tail, out: seq<Token>)
    requires LegalTail(t) && HasAt(input, p, TailText(t)) && TakesValue(PlaceOf(k))
    ensures var p1 := p + |GapText(t.gap)|;
            && Reaches(input, Here(LexArrayValue, k, p, out), Here(LexArrayValue, k, p1, out + GapToks(t.gap)))
            && HasAt(input, p1, if t.Close? then "]" else ValText(t.val) + AfterVal(t))
  {
    hide Reaches, PlaceOf, HasAt, TailText, GapText, GapToks, ValText, AfterVal, LegalGap, LegalVal;
    TailShape(t);
    HasSplit(input, p, GapText(t.gap), if t.Close? then "]" else ValText(t.val) + AfterVal(t));
    GapForward(input, LexArrayValue, k, p, t.gap, out);
  }

  lemma {:induction false} TailVal(input: string, k: Stack, p: nat, t: Tail, out: seq<Token>)
    requires LegalTail(t) && !t.Close? && TakesValue(PlaceOf(k))
    requires HasAt(input, p, ValText(t.val) + AfterVal(t))
    ensures var p2 := p + |ValText(t.val)|;
            && HasAt(input, p2, AfterVal(t))
            && Reaches(input, Here(LexArrayValue, k, p, out), Here(LexArrayValueEnd, k, p2, out + ValToks(t.val)))
    decreases t, 0
  {
    hide Reaches, PlaceOf, HasAt, LegalVal, LegalGap, LegalTail, Follows, Stops, BeginsElement;
    var v, p2 := t.val, p + |ValText(t.val)|;
    HasSplit(input, p, ValText(v), AfterVal(t));
    BehindFollows(t);
    PeekFirst(input, p2, AfterVal(t));
    LegalHead(t);
    ValFirst(v);
    PeekFirst(input, p, ValText(v));
    HasBounds(input, p, ValText(v));
    ElementForward(input, k, p, out);
    if v.Scalar? {
      FollowStops(v.typ, v.txt, Peek(input, p2));
    }
    ValForward(input, Frame(LexArrayValueEnd, k), p, v, out);
    Chain(input, Here(LexArrayValue, k, p, out), Here(LexValue, Frame(LexArrayValueEnd, k), p, out),
        Here(LexArrayValueEnd, k, p2, out + ValToks(v)));
  }

  lemma LegalHead(t: Tail)
    requires LegalTail(t) && !t.Close?
    ensures LegalVal(t.val) && LegalGap(t.after) && (t.More? ==> LegalTail(t.rest))
  {
  }

  lemma BehindFollows(t: Tail)
    requires LegalTail(t) && !t.Close?
    ensures AfterVal(t) != [] && Follows(AfterVal(t)[0])
  {
    var rest := if t.Last? then "]" else "," + TailText(t.rest);
    assert rest[0] == if t.Last? then ']' else ',';
    GapFirst(t.after, rest);
  }

  lemma {:induction false} TailRest(input: string, k: Stack, p: nat, t: Tail, out: seq<Token>)
    requires LegalTail(t) && !t.Close? && TakesValue(PlaceOf(k)) && HasAt(input, p, AfterVal(t))
    ensures k.Frame?
    ensures Reaches(input, Here(LexArrayValueEnd, k, p, out), Popped(k, p + |AfterVal(t)|, out + AfterValToks(t)))
    decreases t, 0
  {
    hide Reaches, PlaceOf, HasAt, LegalVal, LegalGap, LegalTail, GapText, GapToks, TailText, TailToks, Inv, Step;
    LegalHead(t);
    HasFrame(k);
    var rest := if t.Last? then "]" else "," + TailText(t.rest);
    var start, p1, out1 := Here(LexArrayValueEnd, k, p, out), p + |GapText(t.after)|, out + GapToks(t.after);
    HasSplit(input, p, GapText(t.after), rest);
    RuneOf(input, p1, rest, 0);
    GapForward(input, LexArrayValueEnd, k, p, t.after, out);
    if t.Last? {
      CloseArray(input, LexArrayValueEnd, k, p1, out1);
      Regroup(out, GapToks(t.after), [Token(ItemArrayEnd, [])]);
    } else {
      HasSplit(input, p1, ",", TailText(t.rest));
      CommaForward(input, LexArrayValueEnd, k, p1, out1);
      TailForward(input, k, p1 + 1, t.rest, out1);
      Regroup(out, GapToks(t.after), TailToks(t.rest));
      Chain(input, Here(LexArrayValueEnd, k, p1, out1), Here(LexArrayValue, k, p1 + 1, out1),
          Popped(k, p + |AfterVal(t)|, out + AfterValToks(t)));
    }
    Chain(input, start, Here(LexArrayValueEnd, k, p1, out1), Popped(k, p + |AfterVal(t)|, out + AfterValToks(t)));
  }

  // ---- pairs ----

  // A pair before a rune that does not continue its value.
  lemma {:induction false} PairForward(input: string, k: Stack, p: nat, pair: Pair, out: seq<Token>)
    requires LegalPair(pair) && HasAt(input, p, PairText(pair)) && TakesKey(PlaceOf(k))
    requires pair.val.Scalar? ==> Stops(pair.val.typ, pair.val.txt, Peek(input, p + |PairText(pair)|))
    ensures k.Frame?
    ensures Reaches(input, Here(LexKeyStart, k, p, out), Popped(k, p + |PairText(pair)|, out + PairToks(pair)))
    decreases pair, 2
  {
    hide Reaches, PlaceOf, HasAt, LegalVal, LegalName, ValText, ValToks, Stops, NameText;
    var start, out1 := Here(LexKeyStart, k, p, out), out + [Token(ItemKeyStart, []), NameToken(pair.name)];
    PairHead(input, k, p, pair, out);
    var p3 := p + |NameText(pair.name)| + |pair.left| + 1 + |pair.right|;
    ValForward(input, k, p3, pair.val, out1);
    Chain(input, start, Here(LexValue, k, p3, out1), Popped(k, p3 + |ValText(pair.val)|, out1 + ValToks(pair.val)));
    Regroup(out, [Token(ItemKeyStart, []), NameToken(pair.name)], ValToks(pair.val));
  }

  // Where the parts of a pair are.
  lemma PairParts(input: string, p: nat, pair: Pair)
    requires LegalPair(pair) && HasAt(input, p, PairText(pair))
    ensures var p1 := p + |NameText(pair.name)|; var p2 := p1 + |pair.left|;
            && HasAt(input, p, NameText(pair.name)) && EndsKey(Peek(input, p1))
            && HasAt(input, p1, pair.left) && p2 < |input| && input[p2] == '='
            && HasAt(input, p2 + 1, pair.right) && HasAt(input, p2 + 1 + |pair.right|, ValText(pair.val))
  {
    hide HasAt, LegalVal, LegalName, ValText, NameText;
    var v := ValText(pair.val);
    var p1 := p + |NameText(pair.name)|;
    var p2 := p1 + |pair.left|;
    HasSplit(input, p, NameText(pair.name), pair.left + ("=" + (pair.right + v)));
    BlanksFirst(pair.left, "=" + (pair.right + v));
    PeekFirst(input, p1, pair.left + ("=" + (pair.right + v)));
    HasSplit(input, p1, pair.left, "=" + (pair.right + v));
    HasSplit(input, p2, "=", pair.right + v);
    RuneOf(input, p2, "=", 0);
    HasSplit(input, p2 + 1, pair.right, v);
  }

  // From the name to the value.
  lemma AfterName(input: string, k: Stack, p: nat, left: string, right: string, out: seq<Token>)
    requires AreBlanks(left) && AreBlanks(right) && TakesKey(PlaceOf(k))
    requires HasAt(input, p, left) && HasAt(input, p + |left| + 1, right)
    requires p + |left| < |input| && input[p + |left|] == '='
    ensures Reaches(input, Here(LexKeyEnd, k, p, out), Here(LexValue, k, p + |left| + 1 + |right|, out))
  {
    hide Reaches, PlaceOf, HasAt, AreBlanks;
    var start, q := Here(LexKeyEnd, k, p, out), p + |left|;
    BlanksForward(input, LexKeyEnd, k, p, left, out);
    EqualsForward(input, k, q, out);
    BlanksForward(input, LexValue, k, q + 1, right, out);
    Chain(input, start, Here(LexKeyEnd, k, q, out), Here(LexValue, k, q + 1, out));
    Chain(input, start, Here(LexValue, k, q + 1, out), Here(LexValue, k, q + 1 + |right|, out));
  }

  // Up to the value.
  lemma PairHead(input: string, k: Stack, p: nat, pair: Pair, out: seq<Token>)
    requires LegalPair(pair) && HasAt(input, p, PairText(pair)) && TakesKey(PlaceOf(k))
    ensures var p3 := p + |NameText(pair.name)| + |pair.left| + 1 + |pair.right|;
            && HasAt(input, p3, ValText(pair.val)) && TakesValue(PlaceOf(k))
            && Reaches(input, Here(LexKeyStart, k, p, out),
                       Here(LexValue, k, p3, out + [Token(ItemKeyStart, []), NameToken(pair.name)]))
  {
    hide Reaches, PlaceOf, HasAt, LegalVal, LegalName, ValText, NameText, PairText, AreBlanks, EndsKey, NameToken, Inv,
        Step;
    PairParts(input, p, pair);
    var out1, p1 := out + [Token(ItemKeyStart, []), NameToken(pair.name)], p + |NameText(pair.name)|;
    KeyForward(input, k, p, pair.name, out);
    AfterName(input, k, p1, pair.left, pair.right, out1);
    Chain(input, Here(LexKeyStart, k, p, out), Here(LexKeyEnd, k, p1, out1),
        Here(LexValue, k, p1 + |pair.left| + 1 + |pair.right|, out1));
  }

  function BehindPair(ps: Pairs): string
    requires !ps.NoPair?
  {
    ps.after + if ps.LastPair? then "}" else "," + PairsText(ps.rest)
  }

  function BehindPairToks(ps: Pairs): seq<Token>
    requires !ps.NoPair?
  {
    if ps.LastPair? then [Token(ItemInlineTableEnd, [])] else PairsToks(ps.rest)
  }

  lemma {:induction false} PairsForward(input: string, k: Stack, p: nat, ps: Pairs, out: seq<Token>)
    requires LegalPairs(ps) && HasAt(input, p, PairsText(ps)) && TakesValue(PlaceOf(k))
    ensures k.Frame?
    ensures Reaches(input, Here(LexInlineTableValue, k, p, out), Popped(k, p + |PairsText(ps)|, out + PairsToks(ps)))
    decreases ps, 1
  {
    hide Reaches, PlaceOf, HasAt, LegalPair, PairText, PairToks;
    HasFrame(k);
    var start, p1 := Here(LexInlineTableValue, k, p, out), p + |ps.before|;
    HasSplit(input, p, ps.before, if ps.NoPair? then "}" else PairText(ps.pair) + BehindPair(ps));
    BlanksForward(input, LexInlineTableValue, k, p, ps.before, out);
    if ps.NoPair? {
      RuneOf(input, p1, "}", 0);
      CloseInline(input, LexInlineTableValue, k, p1, out);
      Chain(input, start, Here(LexInlineTableValue, k, p1, out), Popped(k, p1 + 1, out + PairsToks(ps)));
    } else {
      var p2, out2 := p1 + |PairText(ps.pair)|, out + PairToks(ps.pair);
      PairsPair(input, k, p1, ps, out);
      Chain(input, start, Here(LexInlineTableValue, k, p1, out), Here(LexInlineTableValueEnd, k, p2, out2));
      PairsRest(input, k, p2, ps, out2);
      Chain(input, start, Here(LexInlineTableValueEnd, k, p2, out2),
          Popped(k, p2 + |BehindPair(ps)|, out2 + BehindPairToks(ps)));
      Regroup(out, PairToks(ps.pair), BehindPairToks(ps));
    }
  }

  lemma BehindPairFollows(ps: Pairs)
    requires LegalPairs(ps) && !ps.NoPair?
    ensures BehindPair(ps) != [] && Follows(BehindPair(ps)[0])
  {
    var rest := if ps.LastPair? then "}" else "," + PairsText(ps.rest);
    assert rest[0] == if ps.LastPair? then '}' else ',';
    BlanksFirst(ps.after, rest);
  }

  lemma LegalPairHead(ps: Pairs)
    requires LegalPairs(ps) && !ps.NoPair?
    ensures LegalPair(ps.pair) && AreBlanks(ps.after) && (ps.MorePairs? ==> LegalPairs(ps.rest))
  {
  }

  lemma PairFirst(input: string, p: nat, pair: Pair)
    requires LegalPair(pair) && HasAt(input, p, PairText(pair))
    ensures p < |input| && BeginsPair(input[p])
  {
    hide LegalVal, ValText, LegalName, HasAt;
    HasSplit(input, p, NameText(pair.name), pair.left + ("=" + (pair.right + ValText(pair.val))));
    NameFirst(input, p, pair.name);
  }

  lemma {:induction false} PairsPair(input: string, k: Stack, p: nat, ps: Pairs, out: seq<Token>)
    requires LegalPairs(ps) && !ps.NoPair? && TakesValue(PlaceOf(k))
    requires HasAt(input, p, PairText(ps.pair) + BehindPair(ps))
    ensures var p2 := p + |PairText(ps.pair)|;
            && HasAt(input, p2, BehindPair(ps))
            && Reaches(input, Here(LexInlineTableValue, k, p, out),
                       Here(LexInlineTableValueEnd, k, p2, out + PairToks(ps.pair)))
    decreases ps, 0
  {
    hide Reaches, PlaceOf, HasAt, LegalPair, LegalPairs, PairText, PairToks, Follows, Stops, BeginsPair, BehindPair;
    var pair, p2 := ps.pair, p + |PairText(ps.pair)|;
    HasSplit(input, p, PairText(pair), BehindPair(ps));
    BehindPairFollows(ps);
    PeekFirst(input, p2, BehindPair(ps));
    LegalPairHead(ps);
    PairFirst(input, p, pair);
    HasBounds(input, p, PairText(pair));
    PairStarts(input, k, p, out);
    if pair.val.Scalar? {
      FollowStops(pair.val.typ, pair.val.txt, Peek(input, p2));
    }
    PairForward(input, Frame(LexInlineTableValueEnd, k), p, pair, out);
    Chain(input, Here(LexInlineTableValue, k, p, out), Here(LexKeyStart, Frame(LexInlineTableValueEnd, k), p, out),
        Here(LexInlineTableValueEnd, k, p2, out + PairToks(pair)));
  }

  lemma {:induction false} PairsRest(input: string, k: Stack, p: nat, ps: Pairs, out: seq<Token>)
    requires LegalPairs(ps) && !ps.NoPair? && TakesValue(PlaceOf(k)) && HasAt(input, p, BehindPair(ps))
    ensures k.Frame?
    ensures Reaches(input, Here(LexInlineTableValueEnd, k, p, out),
                    Popped(k, p + |BehindPair(ps)|, out + BehindPairToks(ps)))
    decreases ps, 0
  {
    hide Reaches, PlaceOf, HasAt, LegalPair, LegalPairs, PairsText, PairsToks, AreBlanks;
    LegalPairHead(ps);
    HasFrame(k);
    var rest := if ps.LastPair? then "}" else "," + PairsText(ps.rest);
    var p1 := p + |ps.after|;
    HasSplit(input, p, ps.after, rest);
    RuneOf(input, p1, rest, 0);
    BlanksForward(input, LexInlineTableValueEnd, k, p, ps.after, out);
    if ps.LastPair? {
      CloseInline(input, LexInlineTableValueEnd, k, p1, out);
    } else {
      HasSplit(input, p1, ",", PairsText(ps.rest));
      CommaForward(input, LexInlineTableValueEnd, k, p1, out);
      PairsForward(input, k, p1 + 1, ps.rest, out);
      Chain(input, Here(LexInlineTableValueEnd, k, p1, out), Here(LexInlineTableValue, k, p1 + 1, out),
          Popped(k, p + |BehindPair(ps)|, out + BehindPairToks(ps)));
    }
    Chain(input, Here(LexInlineTableValueEnd, k, p, out), Here(LexInlineTableValueEnd, k, p1, out),
        Popped(k, p + |BehindPair(ps)|, out + BehindPairToks(ps)));
  }
}
