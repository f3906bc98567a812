/** Every input that the lexer reads to its end without an error is the text of a document of the
grammar. */
module LayoutFind {
  import opened Sequences
  import opened Tokens
  import opened LexSpec
  import opened LexRun
  import opened LexPrinted
  import opened Layout
  import opened LayoutStrings
  import opened LayoutScalars
  import opened LayoutLex
  import opened LayoutItems

  // ---- parts ----

  lemma HasJoin(input: string, p: nat, a: string, b: string)
    requires HasAt(input, p, a) && HasAt(input, p + |a|, b)
    ensures HasAt(input, p, a + b)
  {
    assert input[p..p + |a + b|] == input[p..p + |a|] + input[p + |a|..p + |a| + |b|];
  }

  lemma HasRune(input: string, p: nat, s: string)
    requires |s| == 1 && p < |input| && input[p] == s[0]
    ensures HasAt(input, p, s)
  {
    assert input[p..p + 1] == s;
  }

  lemma LivesBounds(input: string, s: State, k: Stack, start: nat, p: nat, out: seq<Token>)
    requires Lives(input, Config(s, k, start, p, out))
    ensures start <= p <= |input|
    ensures Inv(input, Config(s, k, start, p, out))
  {
  }

  // ---- gaps ----

  // The comment up to the end of its line.
  lemma RemarkThere(input: string, p: nat) returns (q: nat)
    requires p <= |input|
    ensures p <= q <= |input| && LegalRemark(input[p..q]) && (IsBreak(Peek(input, q)) || IsNul(Peek(input, q)))
    decreases |input| - p
  {
    q := p;
    if p < |input| && !IsBreak(input[p]) && !IsNul(input[p]) {
      q := RemarkThere(input, p + 1);
      assert input[p..q] == [input[p]] + input[p + 1..q];
    }
  }

  // After a comment the lexer is back in the state s; only a line break lets it go on.
  lemma AfterRemark(input: string, s: State, k: Stack, q: nat, out: seq<Token>)
    requires Gaps(s, k) && s != LexTop && q <= |input| && IsNul(Peek(input, q))
    ensures !Lives(input, Here(s, k, q, out))
  {
    hide PlaceOf, Lives, Step;
    if Lives(input, Here(s, k, q, out)) {
      LivesStep(input, Here(s, k, q, out));
      NulStep(input, s, k, q, out);
      var f := Here(LexValue, Frame(LexArrayValueEnd, k), q, out);
      if s == LexArrayValue {
        LivesStep(input, f);
      }
    }
  }

  lemma NulStep(input: string, s: State, k: Stack, q: nat, out: seq<Token>)
    requires (s == LexArrayValue || s == LexArrayValueEnd) && q <= |input| && IsNul(Peek(input, q))
    ensures var d, f := Step(input, Here(s, k, q, out)), Here(LexValue, Frame(LexArrayValueEnd, k), q, out);
            if s == LexArrayValue then
              d == f && Step(input, f).state == LexDone && !EndsAtEOF(Step(input, f).out)
            else d.state == LexDone && !EndsAtEOF(d.out)
  {
  }

  // A comment between elements, with its line break.
  lemma RemarkFind(input: string, s: State, k: Stack, p: nat, out: seq<Token>) returns (piece: Piece)
    requires Gaps(s, k) && s != LexTop && p < |input| && input[p] == '#' && Lives(input, Here(s, k, p, out))
    ensures piece.Remark? && LegalPiece(piece) && HasAt(input, p, PieceText(piece))
  {
    hide Lives, PlaceOf, Gaps, Reaches;
    var q := RemarkThere(input, p + 1);
    var txt := input[p + 1..q];
    MarkForward(input, s, k, p, out);
    RemarkForward(input, Frame(s, k), p, p + 1, txt, out);
    LivesOn(input, Here(s, k, p, out), Config(LexCommentStart, Frame(s, k), p, p + 1, out));
    LivesOn(input, Config(LexCommentStart, Frame(s, k), p, p + 1, out), Here(s, k, q, out + RemarkToks(txt)));
    LivesBounds(input, s, k, q, q, out + RemarkToks(txt));
    if IsNul(Peek(input, q)) {
      AfterRemark(input, s, k, q, out + RemarkToks(txt));
      assert false;
    }
    piece := Remark(txt, input[q]);
    HasRune(input, p, "#");
    HasRune(input, q, [input[q]]);
    HasJoin(input, p + 1, txt, [input[q]]);
    HasJoin(input, p, "#", txt + [input[q]]);
  }

  // One piece of a gap.
  lemma GapPieceFind(input: string, s: State, k: Stack, p: nat, out: seq<Token>) returns (piece: Piece)
    requires Gaps(s, k) && s != LexTop && Lives(input, Here(s, k, p, out))
    requires var r := Peek(input, p); IsBlank(r) || IsBreak(r) || r == '#'
    ensures LegalPiece(piece) && HasAt(input, p, PieceText(piece)) && PieceText(piece) != []
    ensures p + |PieceText(piece)| <= |input|
    ensures Lives(input, Here(s, k, p + |PieceText(piece)|, out + PieceToks(piece)))
  {
    hide Lives, PlaceOf, Gaps, Reaches, HasAt;
    LivesBounds(input, s, k, p, p, out);
    var r := Peek(input, p);
    if r == '#' {
      piece := RemarkFind(input, s, k, p, out);
    } else {
      piece := Space(r);
      HasRune(input, p, [r]);
    }
    LayoutLex.PieceForward(input, s, k, p, piece, out);
    HasBounds(input, p, PieceText(piece));
    LivesOn(input, Here(s, k, p, out), Here(s, k, p + |PieceText(piece)|, out + PieceToks(piece)));
  }

  lemma {:induction false} GapFind(input: string, s: State, k: Stack, p: nat, out: seq<Token>) returns (gap: seq<Piece>)
    requires Gaps(s, k) && s != LexTop && Lives(input, Here(s, k, p, out))
    ensures LegalGap(gap) && HasAt(input, p, GapText(gap))
    ensures var q := p + |GapText(gap)|; var r := Peek(input, q);
            && q <= |input| && !IsBlank(r) && !IsBreak(r) && r != '#'
            && Lives(input, Here(s, k, q, out + GapToks(gap)))
    decreases |input| - p
  {
    hide Lives, PlaceOf, Gaps, Reaches, HasAt, LegalPiece, PieceText, PieceToks;
    LivesBounds(input, s, k, p, p, out);
    var r := Peek(input, p);
    if IsBlank(r) || IsBreak(r) || r == '#' {
      var piece := GapPieceFind(input, s, k, p, out);
      var q, out1 := p + |PieceText(piece)|, out + PieceToks(piece);
      var rest := GapFind(input, s, k, q, out1);
      gap := [piece] + rest;
      GapJoined(piece, rest, out);
      HasJoin(input, p, PieceText(piece), GapText(rest));
    } else {
      gap := [];
      HasNothing(input, p);
      assert out + [] == out;
    }
  }

  lemma GapJoined(piece: Piece, rest: seq<Piece>, out: seq<Token>)
    requires LegalPiece(piece) && LegalGap(rest)
    ensures var gap := [piece] + rest;
            && LegalGap(gap) && GapText(gap) == PieceText(piece) + GapText(rest)
            && out + GapToks(gap) == out + PieceToks(piece) + GapToks(rest)
  {
    hide LegalPiece, PieceText, PieceToks;
    assert ([piece] + rest)[1..] == rest;
  }

  lemma HasNothing(input: string, p: nat)
    requires p <= |input|
    ensures HasAt(input, p, "")
  {
  }

  lemma {:induction false} BlanksThere(input: string, p: nat) returns (b: string)
    requires p <= |input|
    ensures AreBlanks(b) && HasAt(input, p, b) && !IsBlank(Peek(input, p + |b|))
    decreases |input| - p
  {
    b := "";
    if p < |input| && IsBlank(input[p]) {
      var rest := BlanksThere(input, p + 1);
      b := [input[p]] + rest;
      HasRune(input, p, [input[p]]);
      HasJoin(input, p, [input[p]], rest);
    }
  }

  lemma BlanksFind(input: string, s: State, k: Stack, p: nat, out: seq<Token>) returns (b: string)
    requires Blanks(s, k) && Lives(input, Here(s, k, p, out))
    ensures AreBlanks(b) && HasAt(input, p, b) && !IsBlank(Peek(input, p + |b|))
    ensures Lives(input, Here(s, k, p + |b|, out)) && p + |b| <= |input|
  {
    hide Lives, PlaceOf, Blanks, Reaches, HasAt;
    LivesBounds(input, s, k, p, p, out);
    b := BlanksThere(input, p);
    BlanksForward(input, s, k, p, b, out);
    LivesOn(input, Here(s, k, p, out), Here(s, k, p + |b|, out));
    HasBounds(input, p, b);
  }

  // ---- names ----

  // The kinds of runes at which a name may begin.
  predicate BeginsName(r: char) {
    IsNameRune(r) || r == '"' || r == '\''
  }

  lemma BareThere(input: string, p: nat) returns (w: string)
    requires p < |input| && IsNameRune(input[p])
    ensures LegalBare(w) && HasAt(input, p, w) && !IsNameRune(Peek(input, p + |w|))
  {
    var q := Span(input, p, IsNameRune);
    w := input[p..q];
    assert q > p;
  }

  lemma KeyStartFails(input: string, k: Stack, p: nat, out: seq<Token>)
    requires Lives(input, Here(LexKeyStart, k, p, out)) && TakesKey(PlaceOf(k))
    requires !IsBlank(Peek(input, p)) && !IsBreak(Peek(input, p))
    ensures BeginsName(Peek(input, p))
  {
    hide PlaceOf, Lives, Step;
    LivesStep(input, Here(LexKeyStart, k, p, out));
    if !BeginsName(Peek(input, p)) {
      KeyStartStep(input, k, p, out);
      if Peek(input, p) != '=' {
        LivesStep(input, Here(LexBareKey, k, p, out + [Token(ItemKeyStart, [])]));
      }
    }
  }

  lemma KeyStartStep(input: string, k: Stack, p: nat, out: seq<Token>)
    requires p <= |input| && !IsBlank(Peek(input, p)) && !IsBreak(Peek(input, p)) && !BeginsName(Peek(input, p))
    ensures var d, b := Step(input, Here(LexKeyStart, k, p, out)),
            Here(LexBareKey, k, p, out + [Token(ItemKeyStart, [])]);
            if Peek(input, p) == '=' then d.state == LexDone && !EndsAtEOF(d.out)
            else d == b && Step(input, b).state == LexDone && !EndsAtEOF(Step(input, b).out)
  {
    assert p <= |input| ==> input[p..p] == [];
  }

  lemma BareKeyFails(input: string, k: Stack, start: nat, p: nat, out: seq<Token>)
    requires Lives(input, Config(LexBareKey, k, start, p, out)) && !IsNameRune(Peek(input, p))
    ensures EndsKey(Peek(input, p))
  {
    LivesStep(input, Config(LexBareKey, k, start, p, out));
  }

  // The name of a pair, up to the equals sign.
  lemma KeyFind(input: string, k: Stack, p: nat, out: seq<Token>) returns (name: Name)
    requires Lives(input, Here(LexKeyStart, k, p, out)) && TakesKey(PlaceOf(k))
    requires !IsBlank(Peek(input, p)) && !IsBreak(Peek(input, p))
    ensures LegalName(name) && HasAt(input, p, NameText(name))
    ensures var q := p + |NameText(name)|;
            q <= |input| && Lives(input, Here(LexKeyEnd, k, q, out + [Token(ItemKeyStart, []), NameToken(name)]))
  {
    hide Lives, PlaceOf, Reaches, HasAt, LegalString, Stops;
    LivesBounds(input, LexKeyStart, k, p, p, out);
    KeyStartFails(input, k, p, out);
    KeyStartForward(input, k, p, out);
    var out1 := out + [Token(ItemKeyStart, [])];
    assert forall t :: out1 + [t] == out + [Token(ItemKeyStart, []), t];
    var start := Here(LexKeyStart, k, p, out);
    if IsNameRune(input[p]) {
      var w := BareThere(input, p);
      name := Name(ItemText, w);
      assert NameText(name) == w;
      var q := p + |w|;
      LivesOn(input, start, Here(LexBareKey, k, p, out1));
      BareRun(input, LexBareKey, k, p, p, w, out1);
      LivesOn(input, Here(LexBareKey, k, p, out1), Config(LexBareKey, k, p, q, out1));
      BareKeyFails(input, k, p, q, out1);
      HasBounds(input, p, w);
      Sliced(input, p, w, 0, |w|);
      assert w[0..|w|] == w;
      BareKeyEnd(input, k, p, q, out1);
      LivesOn(input, Config(LexBareKey, k, p, q, out1), Here(LexKeyEnd, k, q, out1 + [NameToken(name)]));
    } else {
      var f := Frame(LexKeyEnd, k);
      KeyPlace(k);
      LivesOn(input, start, Here(LexValue, f, p, out1));
      var txt := StringFind(input, f, p, out1);
      name := Name(KindAt(input, p), txt);
      StringForward(input, name.typ, f, p, txt, out1);
      HasBounds(input, p, NameText(name));
      LivesOn(input, Here(LexValue, f, p, out1), Here(LexKeyEnd, k, p + |NameText(name)|, out1 + [NameToken(name)]));
    }
  }

  lemma KeyEndFails(input: string, k: Stack, p: nat, out: seq<Token>)
    requires Lives(input, Here(LexKeyEnd, k, p, out)) && !IsBlank(Peek(input, p))
    ensures p < |input| && input[p] == '='
  {
    LivesStep(input, Here(LexKeyEnd, k, p, out));
  }

  // A pair up to its value.
  lemma PairHeadFind(input: string, k: Stack, p: nat, out: seq<Token>) returns (name: Name, left: string, right: string)
    requires Lives(input, Here(LexKeyStart, k, p, out)) && TakesKey(PlaceOf(k))
    requires !IsBlank(Peek(input, p)) && !IsBreak(Peek(input, p))
    ensures LegalName(name) && AreBlanks(left) && AreBlanks(right)
    ensures var p1 := p + |NameText(name)|; var p2 := p1 + |left|; var p3 := p2 + 1 + |right|;
            && HasAt(input, p, NameText(name)) && HasAt(input, p1, left) && HasAt(input, p2, "=")
            && HasAt(input, p2 + 1, right) && p3 <= |input| && !IsBlank(Peek(input, p3))
            && Lives(input, Here(LexValue, k, p3, out + [Token(ItemKeyStart, []), NameToken(name)]))
  {
    hide Lives, PlaceOf, Reaches, HasAt, LegalName, NameText;
    name := KeyFind(input, k, p, out);
    var out1, p1 := out + [Token(ItemKeyStart, []), NameToken(name)], p + |NameText(name)|;
    left := BlanksFind(input, LexKeyEnd, k, p1, out1);
    var p2 := p1 + |left|;
    KeyEndFails(input, k, p2, out1);
    HasRune(input, p2, "=");
    EqualsForward(input, k, p2, out1);
    LivesOn(input, Here(LexKeyEnd, k, p2, out1), Here(LexValue, k, p2 + 1, out1));
    KeyTakesValue(k);
    right := BlanksFind(input, LexValue, k, p2 + 1, out1);
  }

  lemma KeyTakesValue(k: Stack)
    requires TakesKey(PlaceOf(k))
    ensures TakesValue(PlaceOf(k))
  {
  }

  // ---- values ----

  // A legal value, the place behind it, and a run that goes on there.
  ghost predicate Found(input: string, k: Stack, p: nat, v: Val, out: seq<Token>) {
    && LegalVal(v) && HasAt(input, p, ValText(v)) && k.Frame?
    && Lives(input, Popped(k, p + |ValText(v)|, out + ValToks(v)))
  }

  /** Where the lexer reads a value and comes to the end of the input without an error, there is a
      legal value. */
  lemma {:induction false} ValFind(input: string, k: Stack, p: nat, out: seq<Token>) returns (v: Val)
    requires Lives(input, Here(LexValue, k, p, out)) && TakesValue(PlaceOf(k)) && !IsBlank(Peek(input, p))
    ensures Found(input, k, p, v, out)
    decreases |input| - p, 0
  {
    hide Lives, PlaceOf, Reaches, HasAt, LegalScalar, LegalTail, LegalPairs, Stops, TailText, PairsText, TailToks,
        PairsToks;
    var start, r := Here(LexValue, k, p, out), Peek(input, p);
    LivesBounds(input, LexValue, k, p, p, out);
    if r == '[' {
      OpenForward(input, k, p, out);
      LivesOn(input, start, Here(LexArrayValue, k, p + 1, out + [Token(ItemArray, [])]));
      var tail := TailFind(input, k, p + 1, out + [Token(ItemArray, [])]);
      v := Arr(tail);
      HasRune(input, p, "[");
      HasJoin(input, p, "[", TailText(tail));
    } else if r == '{' {
      OpenForward(input, k, p, out);
      LivesOn(input, start, Here(LexInlineTableValue, k, p + 1, out + [Token(ItemInlineTableStart, [])]));
      var pairs := PairsFind(input, k, p + 1, out + [Token(ItemInlineTableStart, [])]);
      v := Inline(pairs);
      HasRune(input, p, "{");
      HasJoin(input, p, "{", PairsText(pairs));
    } else {
      var typ, txt := ScalarFind(input, k, p, out);
      v := Scalar(typ, txt);
    }
    ValForward(input, k, p, v, out);
    LivesOn(input, start, Popped(k, p + |ValText(v)|, out + ValToks(v)));
  }

  lemma ElementFails(input: string, k: Stack, p: nat, out: seq<Token>)
    requires Lives(input, Here(LexArrayValue, k, p, out)) && TakesValue(PlaceOf(k))
    ensures Peek(input, p) != ','
  {
    hide PlaceOf;
    LivesStep(input, Here(LexArrayValue, k, p, out));
  }

  lemma AfterElementFails(input: string, k: Stack, p: nat, out: seq<Token>)
    requires Lives(input, Here(LexArrayValueEnd, k, p, out)) && TakesValue(PlaceOf(k))
    requires var r := Peek(input, p); !IsBlank(r) && !IsBreak(r) && r != '#'
    ensures p < |input| && (input[p] == ',' || input[p] == ']')
  {
    hide PlaceOf;
    LivesStep(input, Here(LexArrayValueEnd, k, p, out));
  }

  lemma {:induction false} TailFind(input: string, k: Stack, p: nat, out: seq<Token>) returns (t: Tail)
    requires Lives(input, Here(LexArrayValue, k, p, out)) && TakesValue(PlaceOf(k))
    ensures LegalTail(t) && HasAt(input, p, TailText(t))
    decreases |input| - p, 2
  {
    hide Lives, PlaceOf, Reaches, HasAt, LegalVal, GapText, LegalGap, GapToks;
    var gap := GapFind(input, LexArrayValue, k, p, out);
    var p1, out1 := p + |GapText(gap)|, out + GapToks(gap);
    ElementFails(input, k, p1, out1);
    if Peek(input, p1) == ']' {
      t := Close(gap);
      HasRune(input, p1, "]");
      HasJoin(input, p, GapText(gap), "]");
    } else {
      t := ElementFind(input, k, p1, out1, gap);
      HasJoin(input, p, GapText(gap), ValText(t.val) + AfterVal(t));
    }
  }

  // An element behind a gap, and the rest of the array.
  lemma {:induction false} ElementFind(input: string, k: Stack, p: nat, out: seq<Token>, gap: seq<Piece>)
      returns (t: Tail)
    requires Lives(input, Here(LexArrayValue, k, p, out)) && TakesValue(PlaceOf(k))
    requires BeginsElement(Peek(input, p)) && LegalGap(gap)
    ensures LegalTail(t) && !t.Close? && t.gap == gap && HasAt(input, p, ValText(t.val) + AfterVal(t))
    decreases |input| - p, 1
  {
    hide Lives, PlaceOf, Reaches, HasAt, LegalVal, GapText, LegalGap, GapToks, ValText, ValToks;
    var f := Frame(LexArrayValueEnd, k);
    LivesBounds(input, LexArrayValue, k, p, p, out);
    ElementForward(input, k, p, out);
    LivesOn(input, Here(LexArrayValue, k, p, out), Here(LexValue, f, p, out));
    var v := ValFind(input, f, p, out);
    var p1, out1 := p + |ValText(v)|, out + ValToks(v);
    ValFirst(v);
    var after := GapFind(input, LexArrayValueEnd, k, p1, out1);
    var p2, out2 := p1 + |GapText(after)|, out1 + GapToks(after);
    AfterElementFails(input, k, p2, out2);
    HasRune(input, p2, [input[p2]]);
    if input[p2] == ']' {
      t := Last(gap, v, after);
      HasJoin(input, p1, GapText(after), "]");
    } else {
      CommaForward(input, LexArrayValueEnd, k, p2, out2);
      LivesOn(input, Here(LexArrayValueEnd, k, p2, out2), Here(LexArrayValue, k, p2 + 1, out2));
      var rest := TailFind(input, k, p2 + 1, out2);
      t := More(gap, v, after, rest);
      HasJoin(input, p2, ",", TailText(rest));
      HasJoin(input, p1, GapText(after), "," + TailText(rest));
    }
    HasJoin(input, p, ValText(v), AfterVal(t));
  }

  lemma PairFails(input: string, k: Stack, p: nat, out: seq<Token>)
    requires Lives(input, Here(LexInlineTableValue, k, p, out)) && TakesValue(PlaceOf(k)) && !IsBlank(Peek(input, p))
    ensures var r := Peek(input, p); r != ',' && !IsBreak(r)
  {
    hide PlaceOf;
    LivesStep(input, Here(LexInlineTableValue, k, p, out));
  }

  lemma AfterPairFails(input: string, k: Stack, p: nat, out: seq<Token>)
    requires Lives(input, Here(LexInlineTableValueEnd, k, p, out)) && TakesValue(PlaceOf(k))
    requires !IsBlank(Peek(input, p))
    ensures p < |input| && (input[p] == ',' || input[p] == '}' || input[p] == '#')
  {
    hide PlaceOf;
    LivesStep(input, Here(LexInlineTableValueEnd, k, p, out));
  }

  // A comment in an inline table leads to an error: the line break behind it is not allowed.
  lemma NoRemark(input: string, s: State, k: Stack, p: nat, out: seq<Token>)
    requires s == LexInlineTableValue || s == LexInlineTableValueEnd
    requires Lives(input, Here(s, k, p, out)) && TakesValue(PlaceOf(k))
    ensures Peek(input, p) != '#'
  {
    hide PlaceOf, Lives, Reaches;
    if Peek(input, p) == '#' {
      LivesBounds(input, s, k, p, p, out);
      var f := Frame(s, k);
      InlinePlace(s, k);
      var c := Config(LexCommentStart, f, p, p + 1, out);
      InlineMark(input, s, k, p, out);
      LivesOn(input, Here(s, k, p, out), c);
      var q := RemarkThere(input, p + 1);
      var out1 := out + RemarkToks(input[p + 1..q]);
      RemarkForward(input, f, p, p + 1, input[p + 1..q], out);
      LivesOn(input, c, Here(s, k, q, out1));
      InlineFails(input, s, k, q, out1);
    }
  }

  lemma InlinePlace(s: State, k: Stack)
    requires (s == LexInlineTableValue || s == LexInlineTableValueEnd) && TakesValue(PlaceOf(k))
    ensures TakesComment(PlaceOf(Frame(s, k)))
  {
  }

  lemma InlineMark(input: string, s: State, k: Stack, p: nat, out: seq<Token>)
    requires (s == LexInlineTableValue || s == LexInlineTableValueEnd) && TakesValue(PlaceOf(k))
    requires p < |input| && input[p] == '#'
    ensures Reaches(input, Here(s, k, p, out), Config(LexCommentStart, Frame(s, k), p, p + 1, out))
  {
    StepTo(input, Here(s, k, p, out), Config(LexCommentStart, Frame(s, k), p, p + 1, out));
  }

  lemma InlineFails(input: string, s: State, k: Stack, p: nat, out: seq<Token>)
    requires (s == LexInlineTableValue || s == LexInlineTableValueEnd) && TakesValue(PlaceOf(k))
    requires p <= |input| && (IsBreak(Peek(input, p)) || IsNul(Peek(input, p)))
    ensures !Lives(input, Here(s, k, p, out))
  {
    hide PlaceOf, Lives, Step;
    if Lives(input, Here(s, k, p, out)) {
      LivesStep(input, Here(s, k, p, out));
      InlineStep(input, s, k, p, out);
      var f := Frame(LexInlineTableValueEnd, k);
      if s == LexInlineTableValue && IsNul(Peek(input, p)) {
        assert TakesKey(PlaceOf(f)) by {
          ValueThenKey(k);
        }
        KeyStartFails(input, f, p, out);
      }
    }
  }

  lemma ValueThenKey(k: Stack)
    requires TakesValue(PlaceOf(k))
    ensures TakesKey(PlaceOf(Frame(LexInlineTableValueEnd, k)))
  {
  }

  lemma InlineStep(input: string, s: State, k: Stack, p: nat, out: seq<Token>)
    requires s == LexInlineTableValue || s == LexInlineTableValueEnd
    requires p <= |input| && (IsBreak(Peek(input, p)) || IsNul(Peek(input, p)))
    ensures var d := Step(input, Here(s, k, p, out));
            if s == LexInlineTableValue && IsNul(Peek(input, p)) then
              d == Here(LexKeyStart, Frame(LexInlineTableValueEnd, k), p, out)
            else d.state == LexDone && !EndsAtEOF(d.out)
  {
  }

  lemma {:induction false} PairsFind(input: string, k: Stack, p: nat, out: seq<Token>) returns (ps: Pairs)
    requires Lives(input, Here(LexInlineTableValue, k, p, out)) && TakesValue(PlaceOf(k))
    ensures LegalPairs(ps) && HasAt(input, p, PairsText(ps))
    decreases |input| - p, 2
  {
    hide Lives, PlaceOf, Reaches, HasAt, LegalPair, PairText;
    var before := BlanksFind(input, LexInlineTableValue, k, p, out);
    var p1 := p + |before|;
    PairFails(input, k, p1, out);
    NoRemark(input, LexInlineTableValue, k, p1, out);
    if Peek(input, p1) == '}' {
      ps := NoPair(before);
      HasRune(input, p1, "}");
      HasJoin(input, p, before, "}");
    } else {
      ps := PairFind(input, k, p1, out, before);
      HasJoin(input, p, before, PairText(ps.pair) + BehindPair(ps));
    }
  }

  // A pair behind blanks, and the rest of the inline table.
  lemma {:induction false} PairFind(input: string, k: Stack, p: nat, out: seq<Token>, before: string)
      returns (ps: Pairs)
    requires Lives(input, Here(LexInlineTableValue, k, p, out)) && TakesValue(PlaceOf(k))
    requires BeginsPair(Peek(input, p)) && AreBlanks(before)
    ensures LegalPairs(ps) && !ps.NoPair? && ps.before == before && HasAt(input, p, PairText(ps.pair) + BehindPair(ps))
    decreases |input| - p, 1
  {
    hide Lives, PlaceOf, Reaches, HasAt, LegalPair, PairText, PairToks;
    var f := Frame(LexInlineTableValueEnd, k);
    LivesBounds(input, LexInlineTableValue, k, p, p, out);
    PairStarts(input, k, p, out);
    LivesOn(input, Here(LexInlineTableValue, k, p, out), Here(LexKeyStart, f, p, out));
    var pair := OnePairFind(input, f, p, out);
    var p1, out1 := p + |PairText(pair)|, out + PairToks(pair);
    var after := BlanksFind(input, LexInlineTableValueEnd, k, p1, out1);
    var p2 := p1 + |after|;
    AfterPairFails(input, k, p2, out1);
    NoRemark(input, LexInlineTableValueEnd, k, p2, out1);
    HasRune(input, p2, [input[p2]]);
    if input[p2] == '}' {
      ps := LastPair(before, pair, after);
      HasJoin(input, p1, after, "}");
    } else {
      CommaForward(input, LexInlineTableValueEnd, k, p2, out1);
      LivesOn(input, Here(LexInlineTableValueEnd, k, p2, out1), Here(LexInlineTableValue, k, p2 + 1, out1));
      var rest := PairsFind(input, k, p2 + 1, out1);
      ps := MorePairs(before, pair, after, rest);
      HasJoin(input, p2, ",", PairsText(rest));
      HasJoin(input, p1, after, "," + PairsText(rest));
    }
    HasJoin(input, p, PairText(pair), BehindPair(ps));
  }

  lemma {:induction false} OnePairFind(input: string, k: Stack, p: nat, out: seq<Token>) returns (pair: Pair)
    requires Lives(input, Here(LexKeyStart, k, p, out)) && TakesKey(PlaceOf(k))
    requires !IsBlank(Peek(input, p)) && !IsBreak(Peek(input, p))
    ensures LegalPair(pair) && PairText(pair) != [] && HasAt(input, p, PairText(pair)) && k.Frame?
    ensures Lives(input, Popped(k, p + |PairText(pair)|, out + PairToks(pair)))
    decreases |input| - p, 0
  {
    hide Lives, PlaceOf, Reaches, HasAt, LegalVal, LegalName, NameText, ValText, ValToks;
    var name, left, right := PairHeadFind(input, k, p, out);
    var p1 := p + |NameText(name)|;
    var p2 := p1 + |left|;
    var p3, out1 := p2 + 1 + |right|, out + [Token(ItemKeyStart, []), NameToken(name)];
    KeyTakesValue(k);
    var v := ValFind(input, k, p3, out1);
    pair := Pair(name, left, right, v);
    HasJoin(input, p2 + 1, right, ValText(v));
    HasJoin(input, p2, "=", right + ValText(v));
    HasJoin(input, p1, left, "=" + (right + ValText(v)));
    HasJoin(input, p, NameText(name), left + ("=" + (right + ValText(v))));
    assert out1 + ValToks(v) == out + PairToks(pair);
  }

  // ---- headers ----

  // What becomes of a rune at which no piece of a header begins.
  predicate FailsSoon(input: string, k: Stack, p: nat, q: nat, out: seq<Token>)
    requires p <= q <= |input|
  {
    var d := Step(input, Here(LexTableNameStart, k, p, out));
    var bare, end := Here(LexBareTableName, k, q, out), Here(LexTableNameEnd, k, q, out + [Token(ItemText, [])]);
    || (d.state == LexDone && !EndsAtEOF(d.out))
    || (&& d == bare && Step(input, bare) == end
        && Step(input, end).state == LexDone && !EndsAtEOF(Step(input, end).out))
  }

  lemma PieceStepFails(input: string, k: Stack, p: nat, out: seq<Token>)
    requires p <= |input| && !BeginsName(Peek(input, SkipBlanks(input, p)))
    ensures FailsSoon(input, k, p, SkipBlanks(input, p), out)
  {
    var q := SkipBlanks(input, p);
    NoMoreBlanks(input, q);
    assert input[q..q] == [];
    hide SkipBlanks;
  }

  lemma PieceFails(input: string, k: Stack, p: nat, out: seq<Token>)
    requires Lives(input, Here(LexTableNameStart, k, p, out)) && PlaceOf(k) == InHeader
    ensures p <= |input| && BeginsName(Peek(input, SkipBlanks(input, p)))
  {
    hide PlaceOf, Lives, Step, SkipBlanks, BeginsName;
    LivesBounds(input, LexTableNameStart, k, p, p, out);
    LivesStep(input, Here(LexTableNameStart, k, p, out));
    var q := SkipBlanks(input, p);
    if !BeginsName(Peek(input, q)) {
      PieceStepFails(input, k, p, out);
      if Step(input, Here(LexTableNameStart, k, p, out)) == Here(LexBareTableName, k, q, out) {
        LivesStep(input, Here(LexBareTableName, k, q, out));
        LivesStep(input, Here(LexTableNameEnd, k, q, out + [Token(ItemText, [])]));
      }
    }
  }

  lemma NoMoreBlanks(input: string, q: nat)
    requires q <= |input| && !IsBlank(Peek(input, q))
    ensures SkipBlanks(input, q) == q
  {
  }

  lemma PieceEndFails(input: string, k: Stack, p: nat, out: seq<Token>)
    requires Lives(input, Here(LexTableNameEnd, k, p, out)) && PlaceOf(k) == InHeader
    ensures p <= |input|
    ensures var q := SkipBlanks(input, p); q < |input| && (input[q] == '.' || input[q] == ']')
  {
    hide PlaceOf;
    LivesStep(input, Here(LexTableNameEnd, k, p, out));
  }

  lemma BarePieceFind(input: string, k: Stack, q: nat, out: seq<Token>) returns (name: Name)
    requires Lives(input, Here(LexBareTableName, k, q, out)) && PlaceOf(k) == InHeader
    requires q < |input| && IsNameRune(input[q])
    ensures LegalName(name) && HasAt(input, q, NameText(name))
    ensures var e := q + |NameText(name)|;
            e <= |input| && Lives(input, Here(LexTableNameEnd, k, e, out + [NameToken(name)]))
  {
    hide Lives, PlaceOf, Reaches, HasAt, LegalString;
    var w := BareThere(input, q);
    name := Name(ItemText, w);
    assert NameText(name) == w;
    var e := q + |w|;
    BareRun(input, LexBareTableName, k, q, q, w, out);
    LivesOn(input, Here(LexBareTableName, k, q, out), Config(LexBareTableName, k, q, e, out));
    HasBounds(input, q, w);
    Sliced(input, q, w, 0, |w|);
    assert w[0..|w|] == w;
    BarePieceEnd(input, k, q, e, out);
    LivesOn(input, Config(LexBareTableName, k, q, e, out), Here(LexTableNameEnd, k, e, out + [NameToken(name)]));
  }

  lemma QuotedPieceFind(input: string, k: Stack, q: nat, out: seq<Token>) returns (name: Name)
    requires Lives(input, Here(LexValue, Frame(LexTableNameEnd, k), q, out)) && PlaceOf(k) == InHeader
    requires q < |input| && (input[q] == '"' || input[q] == '\'')
    ensures LegalName(name) && HasAt(input, q, NameText(name))
    ensures var e := q + |NameText(name)|;
            e <= |input| && Lives(input, Here(LexTableNameEnd, k, e, out + [NameToken(name)]))
  {
    hide Lives, PlaceOf, Reaches, HasAt, LegalString, Stops;
    var f := Frame(LexTableNameEnd, k);
    NamePlace(k);
    var txt := StringFind(input, f, q, out);
    name := Name(KindAt(input, q), txt);
    StringForward(input, name.typ, f, q, txt, out);
    HasBounds(input, q, NameText(name));
    LivesOn(input, Here(LexValue, f, q, out), Here(LexTableNameEnd, k, q + |NameText(name)|, out + [NameToken(name)]));
  }

  // A piece of a header with the blanks before it.
  lemma PieceFind(input: string, k: Stack, p: nat, out: seq<Token>) returns (before: string, name: Name)
    requires Lives(input, Here(LexTableNameStart, k, p, out)) && PlaceOf(k) == InHeader
    ensures AreBlanks(before) && LegalName(name)
    ensures HasAt(input, p, before) && HasAt(input, p + |before|, NameText(name))
    ensures var q := p + |before| + |NameText(name)|;
            q <= |input| && Lives(input, Here(LexTableNameEnd, k, q, out + [NameToken(name)]))
  {
    hide Lives, PlaceOf, Reaches, HasAt, LegalName, NameText, SkipBlanks, AreBlanks;
    LivesBounds(input, LexTableNameStart, k, p, p, out);
    PieceFails(input, k, p, out);
    before := BlanksThere(input, p);
    BlanksSkipped(input, p, before);
    HasBounds(input, p, before);
    var start, q := Here(LexTableNameStart, k, p, out), p + |before|;
    PieceStart(input, k, p, q, out);
    if IsNameRune(input[q]) {
      LivesOn(input, start, Here(LexBareTableName, k, q, out));
      name := BarePieceFind(input, k, q, out);
    } else {
      LivesOn(input, start, Here(LexValue, Frame(LexTableNameEnd, k), q, out));
      name := QuotedPieceFind(input, k, q, out);
    }
  }

  lemma PathThere(input: string, p: nat, path: Path)
    requires HasAt(input, p, path.before) && HasAt(input, p + |path.before|, NameText(path.name))
    requires var q := p + |path.before| + |NameText(path.name)|; var e := q + |path.after|;
             && HasAt(input, q, path.after) && HasAt(input, e, if path.LastPiece? then "]" else ".")
             && (path.MorePieces? ==> HasAt(input, e + 1, PathText(path.rest) + "]"))
    ensures HasAt(input, p, PathText(path) + "]")
  {
    hide HasAt, NameText, PathText;
    var q := p + |path.before| + |NameText(path.name)|;
    var tail := AfterPiece(path) + if path.LastPiece? then "" else "]";
    if path.LastPiece? {
      assert tail == "]";
    } else {
      HasJoin(input, q + |path.after|, ".", PathText(path.rest) + "]");
      assert "." + (PathText(path.rest) + "]") == tail;
    }
    HasJoin(input, q, path.after, tail);
    HasJoin(input, p + |path.before|, NameText(path.name), path.after + tail);
    HasJoin(input, p, path.before, NameText(path.name) + (path.after + tail));
    PathJoined(path);
  }

  lemma {:induction false} PathFind(input: string, k: Stack, p: nat, out: seq<Token>) returns (path: Path)
    requires Lives(input, Here(LexTableNameStart, k, p, out)) && PlaceOf(k) == InHeader
    ensures LegalPath(path) && HasAt(input, p, PathText(path) + "]") && k.Frame?
    ensures var q := p + |PathText(path)|; Lives(input, Config(k.top, k.rest, q, q + 1, out + PathTokens(path)))
    decreases |input| - p
  {
    hide Lives, PlaceOf, Reaches, HasAt, LegalName, NameText, SkipBlanks, PathText, PathTokens, AreBlanks, NameToken;
    var before, name := PieceFind(input, k, p, out);
    var q, out1 := p + |before| + |NameText(name)|, out + [NameToken(name)];
    PieceEndFails(input, k, q, out1);
    var after := BlanksThere(input, q);
    BlanksSkipped(input, q, after);
    var e := q + |after|;
    PieceEnd(input, k, q, e, out1);
    HasRune(input, e, [input[e]]);
    if input[e] == ']' {
      path := LastPiece(before, name, after);
      LivesOn(input, Here(LexTableNameEnd, k, q, out1), Config(k.top, k.rest, e, e + 1, out1));
      PathShape(path);
    } else {
      LivesOn(input, Here(LexTableNameEnd, k, q, out1), Here(LexTableNameStart, k, e + 1, out1));
      var rest := PathFind(input, k, e + 1, out1);
      path := MorePieces(before, name, after, rest);
      PathShape(path);
      Regroup(out, [NameToken(name)], PathTokens(rest));
    }
    PathThere(input, p, path);
  }

  lemma HeaderFind(input: string, p: nat, out: seq<Token>) returns (item: Entry)
    requires Lives(input, Here(LexTop, Empty, p, out)) && p < |input| && input[p] == '['
    ensures item.Header? && LegalItem(item) && HasAt(input, p, WrittenItem(item))
  {
    hide Lives, Reaches, HasAt, LegalPath, PathText, PathTokens, Inv, Step;
    var ofArray := Peek(input, p + 1) == '[';
    var k := HeaderStack(ofArray);
    OpenThere(input, p, ofArray);
    HeaderOpens(input, p, ofArray, out);
    var p1, out1 := p + |Open(ofArray)|, out + [OpenToken(ofArray)];
    LivesOn(input, Here(LexTop, Empty, p, out), Here(LexTableNameStart, k, p1, out1));
    var path := PathFind(input, k, p1, out1);
    item := Header(ofArray, path);
    var q := p1 + |PathText(path)|;
    HasSplit(input, p1, PathText(path), "]");
    RuneOf(input, q, "]", 0);
    if ofArray {
      ArrayCloseFails(input, q, out1 + PathTokens(path));
    }
    ClosingThere(input, q, ofArray);
    HasJoin(input, p1, PathText(path), Closing(ofArray));
    HasJoin(input, p, Open(ofArray), PathText(path) + Closing(ofArray));
  }

  lemma OpenThere(input: string, p: nat, ofArray: bool)
    requires p < |input| && input[p] == '[' && ofArray == (Peek(input, p + 1) == '[')
    ensures HasAt(input, p, Open(ofArray))
  {
    if ofArray {
      assert input[p..p + 2] == "[[";
    } else {
      assert input[p..p + 1] == "[";
    }
  }

  lemma ClosingThere(input: string, q: nat, ofArray: bool)
    requires q < |input| && input[q] == ']' && (ofArray ==> Peek(input, q + 1) == ']')
    ensures HasAt(input, q, Closing(ofArray))
  {
    if ofArray {
      assert input[q..q + 2] == "]]";
    } else {
      assert input[q..q + 1] == "]";
    }
  }

  lemma ArrayCloseFails(input: string, q: nat, out: seq<Token>)
    requires Lives(input, Config(LexArrayTableEnd, Empty, q, q + 1, out))
    ensures Peek(input, q + 1) == ']'
  {
    LivesStep(input, Config(LexArrayTableEnd, Empty, q, q + 1, out));
  }

  // ---- documents ----

  // A rune at which an item begins.
  predicate BeginsItem(r: char) {
    !IsBlank(r) && !IsBreak(r) && !IsNul(r) && r != '#'
  }

  lemma AssignmentBegins(input: string, p: nat, out: seq<Token>)
    requires Lives(input, Here(LexTop, Empty, p, out)) && p < |input| && BeginsItem(input[p]) && input[p] != '['
    ensures Lives(input, Here(LexKeyStart, KEYS, p, out))
  {
    LivesStep(input, Here(LexTop, Empty, p, out));
  }

  lemma ItemFind(input: string, p: nat, out: seq<Token>) returns (item: Entry)
    requires Lives(input, Here(LexTop, Empty, p, out)) && p < |input| && BeginsItem(input[p])
    ensures LegalItem(item) && WrittenItem(item) != [] && HasAt(input, p, WrittenItem(item))
    ensures item.Assignment? ==> Lives(input, Here(LexTopEnd, Empty, p + |WrittenItem(item)|, out + ItemToks(item)))
  {
    hide Lives, HasAt, LegalPair, PairText, PairToks, LegalPath, PathText;
    if input[p] == '[' {
      item := HeaderFind(input, p, out);
    } else {
      AssignmentBegins(input, p, out);
      var pair := OnePairFind(input, KEYS, p, out);
      item := Assignment(pair);
    }
  }

  lemma ItemLives(input: string, p: nat, item: Entry, out: seq<Token>)
    requires Lives(input, Here(LexTop, Empty, p, out)) && LegalItem(item) && HasAt(input, p, WrittenItem(item))
    requires item.Assignment? ==> Lives(input, Here(LexTopEnd, Empty, p + |WrittenItem(item)|, out + ItemToks(item)))
    ensures Lives(input, Here(LexTopEnd, Empty, p + |WrittenItem(item)|, out + ItemToks(item)))
  {
    hide Lives, HasAt, LegalPath, PathText;
    if item.Header? {
      HeaderForward(input, p, item.ofArray, item.path, out);
      LivesOn(input, Here(LexTop, Empty, p, out),
          Here(LexTopEnd, Empty, p + |WrittenItem(item)|, out + ItemToks(item)));
    }
  }

  lemma EndFails(input: string, start: nat, p: nat, out: seq<Token>)
    requires Lives(input, Config(LexTopEnd, Empty, start, p, out)) && !IsBlank(Peek(input, p))
    ensures var r := Peek(input, p); IsBreak(r) || IsNul(r) || r == '#'
  {
    LivesStep(input, Config(LexTopEnd, Empty, start, p, out));
  }

  lemma NulFails(input: string, p: nat, out: seq<Token>)
    requires Lives(input, Here(LexTop, Empty, p, out)) && IsNul(Peek(input, p))
    ensures p == |input|
  {
    LivesStep(input, Here(LexTop, Empty, p, out));
  }

  // A comment behind its mark, at top level: it ends with its line or with the input.
  lemma TopRemark(input: string, start: nat, p: nat, out: seq<Token>) returns (q: nat)
    requires start <= p <= |input| && Lives(input, Config(LexCommentStart, Frame(LexTop, Empty), start, p, out))
    ensures p <= q <= |input| && LegalRemark(input[p..q]) && (q == |input| || IsBreak(input[q]))
  {
    hide Lives;
    var k := Frame(LexTop, Empty);
    assert TakesComment(PlaceOf(k));
    q := RemarkThere(input, p);
    var txt := input[p..q];
    RemarkForward(input, k, start, p, txt, out);
    LivesOn(input, Config(LexCommentStart, k, start, p, out), Here(LexTop, Empty, q, out + RemarkToks(txt)));
    if IsNul(Peek(input, q)) {
      NulFails(input, q, out + RemarkToks(txt));
    }
  }

  lemma FillsJoin(input: string, p: nat, a: string, b: string)
    requires HasAt(input, p, a) && Fills(input, p + |a|, b)
    ensures Fills(input, p, a + b)
  {
    HasJoin(input, p, a, b);
  }

  lemma FillsRest(input: string, p: nat)
    requires p <= |input|
    ensures Fills(input, p, input[p..])
  {
  }

  // The line break or the comment with its line break at p.
  lemma PieceThere(input: string, p: nat, q: nat)
    requires p < q < |input| && input[p] == '#' && LegalRemark(input[p + 1..q]) && IsBreak(input[q])
    ensures var piece := Remark(input[p + 1..q], input[q]);
            EndsLine(piece) && LegalPiece(piece) && HasAt(input, p, PieceText(piece)) && p + |PieceText(piece)| == q + 1
  {
    HasRune(input, p, "#");
    HasRune(input, q, [input[q]]);
    HasJoin(input, p + 1, input[p + 1..q], [input[q]]);
    HasJoin(input, p, "#", input[p + 1..q] + [input[q]]);
  }

  /** From every place at top level from which the lexer comes to the end of the input without an
      error, the rest of the input is the text of a legal document. */
  lemma {:induction false} DocFind(input: string, p: nat, out: seq<Token>) returns (d: Doc)
    requires Lives(input, Here(LexTop, Empty, p, out))
    ensures LegalDoc(d) && Fills(input, p, DocText(d))
    decreases |input| - p, 3
  {
    hide Lives, Reaches, HasAt, Fills, LegalItem, WrittenItem, LegalRemark, PieceText;
    LivesBounds(input, LexTop, Empty, p, p, out);
    var r := Peek(input, p);
    if IsNul(r) {
      NulFails(input, p, out);
      d := Done;
      FillsRest(input, p);
      assert input[p..] == "";
    } else if BeginsItem(r) {
      d := LineFind(input, p, out);
    } else {
      d := GapDocFind(input, p, out);
    }
  }

  lemma SpaceThere(input: string, p: nat)
    requires p < |input|
    ensures PieceText(Space(input[p])) == [input[p]] && HasAt(input, p, PieceText(Space(input[p])))
  {
    HasRune(input, p, [input[p]]);
  }

  // A blank, a line break or a comment, and the rest of the document.
  lemma {:induction false} GapDocFind(input: string, p: nat, out: seq<Token>) returns (d: Doc)
    requires Lives(input, Here(LexTop, Empty, p, out)) && p < |input|
    requires IsBlank(input[p]) || IsBreak(input[p]) || input[p] == '#'
    ensures LegalDoc(d) && Fills(input, p, DocText(d))
    decreases |input| - p, 2
  {
    hide Lives, Reaches, HasAt, Fills, LegalItem, WrittenItem, LegalRemark, PieceText;
    if input[p] == '#' {
      MarkForward(input, LexTop, Empty, p, out);
      LivesOn(input, Here(LexTop, Empty, p, out), Config(LexCommentStart, Frame(LexTop, Empty), p, p + 1, out));
      var q := TopRemark(input, p, p + 1, out);
      if q == |input| {
        d := LastRemark(input[p + 1..q]);
        HasRune(input, p, "#");
        FillsRest(input, p + 1);
        assert input[p + 1..] == input[p + 1..q];
        FillsJoin(input, p, "#", input[p + 1..q]);
      } else {
        PieceThere(input, p, q);
        d := PieceDocFind(input, p, Remark(input[p + 1..q], input[q]), out);
      }
    } else {
      SpaceThere(input, p);
      d := PieceDocFind(input, p, Space(input[p]), out);
    }
  }

  lemma {:induction false} PieceDocFind(input: string, p: nat, piece: Piece, out: seq<Token>) returns (d: Doc)
    requires Lives(input, Here(LexTop, Empty, p, out))
    requires LegalPiece(piece) && HasAt(input, p, PieceText(piece)) && p < |input|
    ensures LegalDoc(d) && Fills(input, p, DocText(d))
    decreases |input| - p, 1
  {
    hide Lives, Reaches, HasAt, Fills, LegalItem, WrittenItem, LegalRemark;
    LayoutLex.PieceForward(input, LexTop, Empty, p, piece, out);
    var q, out1 := p + |PieceText(piece)|, out + PieceToks(piece);
    LivesOn(input, Here(LexTop, Empty, p, out), Here(LexTop, Empty, q, out1));
    var rest := DocFind(input, q, out1);
    d := Gap(piece, rest);
    FillsJoin(input, p, PieceText(piece), DocText(rest));
  }

  // An item, what ends its line, and the rest of the document.
  lemma {:induction false} LineFind(input: string, p: nat, out: seq<Token>) returns (d: Doc)
    requires Lives(input, Here(LexTop, Empty, p, out)) && p < |input| && BeginsItem(input[p])
    ensures LegalDoc(d) && Fills(input, p, DocText(d))
    decreases |input| - p, 2
  {
    hide Lives, Reaches, HasAt, Fills, LegalItem, WrittenItem, LegalRemark, PieceText, ItemToks;
    var item := ItemFind(input, p, out);
    ItemLives(input, p, item, out);
    var q, out1 := p + |WrittenItem(item)|, out + ItemToks(item);
    LivesBounds(input, LexTopEnd, Empty, q, q, out1);
    var after := BlanksThere(input, q);
    var e := q + |after|;
    HasBounds(input, q, after);
    EndBlanks(input, q, q, after, out1);
    LivesOn(input, Here(LexTopEnd, Empty, q, out1), Config(LexTopEnd, Empty, q, e, out1));
    d := LineEndFind(input, p, item, after, out1);
  }

  lemma {:induction false} LineEndFind(input: string, p: nat, item: Entry, after: string, out: seq<Token>)
      returns (d: Doc)
    requires LegalItem(item) && AreBlanks(after) && WrittenItem(item) != []
    requires HasAt(input, p, WrittenItem(item)) && HasAt(input, p + |WrittenItem(item)|, after)
    requires var q := p + |WrittenItem(item)|;
             Lives(input, Config(LexTopEnd, Empty, q, q + |after|, out)) && !IsBlank(Peek(input, q + |after|))
    ensures LegalDoc(d) && Fills(input, p, DocText(d))
    decreases |input| - p, 1
  {
    hide Lives, Reaches, HasAt, Fills, LegalItem, WrittenItem, LegalRemark, PieceText, AreBlanks, EndText, LegalEnd,
        DocText, LegalDoc;
    var q := p + |WrittenItem(item)|;
    var e := q + |after|;
    EndFails(input, q, e, out);
    LivesBounds(input, LexTopEnd, Empty, q, e, out);
    var r := Peek(input, e);
    if IsNul(r) {
      NulThere(input, e);
      d := LastThere(input, p, item, after, if e < |input| then AtNul(input[e + 1..]) else AtEnd);
    } else if IsBreak(r) {
      SpaceThere(input, e);
      d := RestFind(input, p, item, after, Space(r), out);
    } else {
      EndMark(input, q, e, out);
      LivesOn(input, Config(LexTopEnd, Empty, q, e, out),
          Config(LexCommentStart, Frame(LexTop, Empty), q, e + 1, out));
      var f := TopRemark(input, q, e + 1, out);
      if f == |input| {
        LastRemarkThere(input, e);
        d := LastThere(input, p, item, after, AtRemark(input[e + 1..]));
      } else {
        PieceThere(input, e, f);
        d := RestFind(input, p, item, after, Remark(input[e + 1..f], input[f]), out);
      }
    }
  }

  lemma LastRemarkThere(input: string, e: nat)
    requires e < |input| && input[e] == '#' && LegalRemark(input[e + 1..|input|])
    ensures LegalEnd(AtRemark(input[e + 1..])) && Fills(input, e, EndText(AtRemark(input[e + 1..])))
  {
    HasRune(input, e, "#");
    FillsRest(input, e + 1);
    assert input[e + 1..] == input[e + 1..|input|];
    FillsJoin(input, e, "#", input[e + 1..]);
  }

  lemma LastThere(input: string, p: nat, item: Entry, after: string, end: End) returns (d: Doc)
    requires LegalItem(item) && AreBlanks(after) && LegalEnd(end)
    requires var q := p + |WrittenItem(item)|;
             HasAt(input, p, WrittenItem(item)) && HasAt(input, q, after) && Fills(input, q + |after|, EndText(end))
    ensures LegalDoc(d) && Fills(input, p, DocText(d))
  {
    hide HasAt, Fills, LegalItem, WrittenItem, EndText;
    var q := p + |WrittenItem(item)|;
    d := LastItem(item, after, end);
    FillsJoin(input, q, after, EndText(end));
    FillsJoin(input, p, WrittenItem(item), after + EndText(end));
  }

  lemma NulThere(input: string, e: nat)
    requires e <= |input| && IsNul(Peek(input, e))
    ensures var end := if e < |input| then AtNul(input[e + 1..]) else AtEnd;
            LegalEnd(end) && Fills(input, e, EndText(end))
  {
    if e < |input| {
      assert input[e] == '\0';
      assert input[e..] == "\0" + input[e + 1..];
      FillsRest(input, e);
    } else {
      FillsRest(input, e);
      assert input[e..] == "";
    }
  }

  // The rest of the document behind an item, the blanks after it and the end of its line.
  lemma {:induction false} RestFind(input: string, p: nat, item: Entry, after: string, piece: Piece, out: seq<Token>)
      returns (d: Doc)
    requires LegalItem(item) && AreBlanks(after) && WrittenItem(item) != [] && EndsLine(piece)
    requires var q := p + |WrittenItem(item)|; var e := q + |after|;
             && HasAt(input, p, WrittenItem(item)) && HasAt(input, q, after) && HasAt(input, e, PieceText(piece))
             && Lives(input, Config(LexTopEnd, Empty, q, e, out))
    ensures LegalDoc(d) && Fills(input, p, DocText(d))
    decreases |input| - p, 0
  {
    hide Lives, Reaches, HasAt, Fills, LegalItem, WrittenItem, LegalRemark, PieceText, PieceToks;
    var q := p + |WrittenItem(item)|;
    var e := q + |after|;
    LineForward(input, q, e, piece, out);
    var f, out1 := e + |PieceText(piece)|, out + PieceToks(piece);
    LivesOn(input, Config(LexTopEnd, Empty, q, e, out), Here(LexTop, Empty, f, out1));
    LivesBounds(input, LexTop, Empty, f, f, out1);
    var rest := DocFind(input, f, out1);
    d := Line(item, after, piece, rest);
    FillsJoin(input, e, PieceText(piece), DocText(rest));
    FillsJoin(input, q, after, PieceText(piece) + DocText(rest));
    FillsJoin(input, p, WrittenItem(item), after + (PieceText(piece) + DocText(rest)));
  }

  // ---- the result ----

  ghost predicate IsDocument(input: string) {
    exists d :: LegalDoc(d) && DocText(d) == input
  }

  /** The lexer comes to the end of an input without an error exactly if the input is the text of a
      document of the grammar; then its tokens are those of the document. */
  lemma LexesExactly(input: string)
    ensures EndsAtEOF(LexAll(input)) <==> IsDocument(input)
    ensures forall d :: LegalDoc(d) && DocText(d) == input ==> LexAll(input) == DocToks(d)
  {
    forall d | LegalDoc(d) && DocText(d) == input
      ensures LexAll(input) == DocToks(d) && EndsAtEOF(LexAll(input))
    {
      DocTokens(d);
      DocEnds(d);
    }
    if EndsAtEOF(LexAll(input)) {
      assert Here(LexTop, Empty, 0, []) == LexSpec.INIT;
      var d := DocFind(input, 0, []);
      FillsAll(input, DocText(d));
    }
  }

  lemma FillsAll(input: string, s: string)
    requires Fills(input, 0, s)
    ensures input == s
  {
    assert input[0..|s|] == input;
  }

  lemma {:induction false} DocEnds(d: Doc)
    ensures EndsAtEOF(DocToks(d))
  {
    match d
    case Gap(_, rest) => DocEnds(rest);
    case Line(_, _, _, rest) => DocEnds(rest);
    case _ =>
  }
}
