/** Comments at top level and in arrays have no effect: for every input, parsing its tokens and
parsing them without these comments is the same. */
module Comments {
  import opened Tokens
  import opened LexRun
  import opened Outcomes
  import opened Grammar
  import opened Trees
  import opened ParserSpec
  import opened LexerMeetsParser

  // A comment where a top-level item or an element of an array may stand.
  predicate Dropped(g: Expected, t: Token) {
    t.typ.ItemCommentStart? && g.Then? && (g.sym.Document? || g.sym.Elements?)
  }

  // The tokens without these comments.
  function Uncommented(g: Expected, toks: seq<Token>): (bare: seq<Token>)
    requires Sentence(g, toks)
    ensures bare != []
    decreases |toks|
  {
    if IsTerminal(toks[0]) then toks
    else if !Dropped(g, toks[0]) then [toks[0]] + Uncommented(Feed(g, toks[0].typ).value, toks[1..])
    else
      CommentShape(g, toks);
      if IsTerminal(toks[1]) then toks[1..] else Uncommented(g, toks[2..])
  }

  lemma CommentShape(g: Expected, toks: seq<Token>)
    requires Sentence(g, toks) && Dropped(g, toks[0])
    ensures |toks| >= 2
    ensures !IsTerminal(toks[1]) ==> Sentence(g, toks[2..])
  {
    var rest := toks[1..];
    assert Feed(g, toks[0].typ).value == Then(CommentText, g);
    assert Sentence(Then(CommentText, g), rest);
    assert rest != [] && rest[1..] == toks[2..];
  }

  // A comment and what comes after it.
  lemma DropsComment(g: Expected, toks: seq<Token>)
    requires Stream(g, toks) && Dropped(g, toks[0])
    ensures |toks| >= 2
    ensures if toks[1].typ.ItemError? then Uncommented(g, toks)[0] == toks[1]
            else toks[1].typ.ItemText? && Stream(g, toks[2..]) && Uncommented(g, toks) == Uncommented(g, toks[2..])
  {
    Advance(g, toks);
    if !IsTerminal(toks[1]) {
      Advance(Then(CommentText, g), toks[1..]);
    }
  }

  // Any other token.
  lemma KeepsToken(g: Expected, toks: seq<Token>)
    requires Stream(g, toks) && !IsTerminal(toks[0]) && !Dropped(g, toks[0])
    ensures Feed(g, toks[0].typ).Some? && Stream(Feed(g, toks[0].typ).value, toks[1..])
    ensures Uncommented(g, toks)[0] == toks[0]
    ensures Uncommented(g, toks)[1..] == Uncommented(Feed(g, toks[0].typ).value, toks[1..])
  {
    Advance(g, toks);
  }

  lemma KeepsTerminal(g: Expected, toks: seq<Token>)
    requires Stream(g, toks) && IsTerminal(toks[0])
    ensures Uncommented(g, toks) == toks && |toks| == 1
  {
  }

  // The outcomes of reading toks up to rest, with and without comments.
  predicate Same<T(==)>(full: Outcome<Read<T>>, bare: Outcome<Read<T>>, g: Expected) {
    match full
    case Ok(read) => Stream(g, read.rest) && bare == Ok(Read(read.val, read.keys, Uncommented(g, read.rest)))
    case _ => bare == full
  }

  // ---- values ----

  lemma {:induction false} ValueSame(g0: Expected, g: Expected, context: Key, key: string, toks: seq<Token>)
    requires Stream(g0, toks) && BeforeValue(g0, g) && !IsTerminal(toks[0])
    requires g0 == g ==> !toks[0].typ.ItemArrayEnd? && !toks[0].typ.ItemCommentStart?
    ensures Uncommented(g0, toks)[0] == toks[0]
    ensures Same(ReadValue(context, key, toks[0], toks[1..]),
                 ReadValue(context, key, toks[0], Uncommented(g0, toks)[1..]), g)
    decreases |toks|, 0
  {
    var t := toks[0];
    KeepsToken(g0, toks);
    if t.typ.ItemArray? {
      ElementsSame(g, context, key, [], [], toks[1..]);
    } else if t.typ.ItemInlineTableStart? {
      PairsSame(g, context + [key], map[], [], toks[1..]);
    }
  }

  lemma {:induction false} ElementsSame(g: Expected, context: Key, key: string, vs: seq<Trees.Value>, keys: seq<Key>,
      toks: seq<Token>)
    requires Stream(Then(Elements, g), toks)
    ensures Same(ReadElements(context, key, vs, keys, toks),
                 ReadElements(context, key, vs, keys, Uncommented(Then(Elements, g), toks)), g)
    decreases |toks|, 1
  {
    var g0 := Then(Elements, g);
    var t := toks[0];
    if IsTerminal(t) {
      KeepsTerminal(g0, toks);
    } else if t.typ.ItemCommentStart? {
      DropsComment(g0, toks);
      if toks[1].typ.ItemText? {
        ElementsSame(g, context, key, vs, keys, toks[2..]);
      }
    } else if t.typ.ItemArrayEnd? {
      KeepsToken(g0, toks);
    } else {
      ValueSame(g0, g0, context, key, toks);
      var r := ReadValue(context, key, t, toks[1..]);
      if r.Ok? {
        ElementsSame(g, context, key, vs + [r.value.val], keys + r.value.keys, r.value.rest);
      }
    }
  }

  lemma {:induction false} PairsSame(g: Expected, context: Key, hash: map<string, Trees.Value>, keys: seq<Key>,
      toks: seq<Token>)
    requires Stream(Then(Pairs, g), toks)
    ensures Same(ReadPairs(context, hash, keys, toks),
                 ReadPairs(context, hash, keys, Uncommented(Then(Pairs, g), toks)), g)
    decreases |toks|, 1
  {
    var g0 := Then(Pairs, g);
    var t := toks[0];
    if IsTerminal(t) {
      KeepsTerminal(g0, toks);
    } else {
      KeepsToken(g0, toks);
      if t.typ.ItemKeyStart? {
        PairSame(g0, context, toks[1..]);
        var r := ReadPair(context, toks[1..]);
        if r.Ok? {
          var (name, v) := r.value.val;
          PairsSame(g, context, hash[name := v], keys + r.value.keys + [context + [name]], r.value.rest);
        }
      }
    }
  }

  lemma {:induction false} PairSame(g: Expected, context: Key, toks: seq<Token>)
    requires Stream(Then(KeyName, Then(Value, g)), toks)
    ensures Same(ReadPair(context, toks), ReadPair(context, Uncommented(Then(KeyName, Then(Value, g)), toks)), g)
    decreases |toks|, 2
  {
    var g0, k := Then(KeyName, Then(Value, g)), toks[0];
    if IsTerminal(k) {
      KeepsTerminal(g0, toks);
    } else {
      KeepsToken(g0, toks);
      if KeyString(k).Ok? {
        var v := toks[1..];
        if IsTerminal(v[0]) {
          KeepsTerminal(Then(Value, g), v);
        } else {
          ValueSame(Then(Value, g), g, context, KeyString(k).value, v);
        }
      }
    }
  }

  // ---- statements ----

  lemma {:induction false} HeaderSame(ofArray: bool, first: bool, path: Key, toks: seq<Token>)
    requires Stream(Then(Header(ofArray, first), START), toks)
    ensures var end := if ofArray then ItemArrayTableEnd else ItemTableEnd;
            Same(ReadHeader(end, path, toks),
                 ReadHeader(end, path, Uncommented(Then(Header(ofArray, first), START), toks)), START)
    decreases |toks|
  {
    var g, t := Then(Header(ofArray, first), START), toks[0];
    if IsTerminal(t) {
      KeepsTerminal(g, toks);
    } else {
      KeepsToken(g, toks);
      if IsName(t.typ) && KeyString(t).Ok? {
        HeaderSame(ofArray, false, path + [KeyString(t).value], toks[1..]);
      }
    }
  }

  lemma StmtSame(context: Key, toks: seq<Token>)
    requires Stream(START, toks) && !toks[0].typ.ItemCommentStart?
    ensures Same(ParseStmt(context, toks), ParseStmt(context, Uncommented(START, toks)), START)
  {
    var t := toks[0];
    if IsTerminal(t) {
      KeepsTerminal(START, toks);
    } else {
      KeepsToken(START, toks);
      if t.typ.ItemTableStart? {
        HeaderSame(false, true, [], toks[1..]);
      } else if t.typ.ItemArrayTableStart? {
        HeaderSame(true, true, [], toks[1..]);
      } else if t.typ.ItemKeyStart? {
        PairSame(START, context, toks[1..]);
      }
    }
  }

  lemma {:induction false} ParseSame(st: PState, toks: seq<Token>)
    requires Stream(START, toks)
    ensures ParseFrom(st, toks) == ParseFrom(st, Uncommented(START, toks))
    decreases |toks|
  {
    if IsTerminal(toks[0]) {
      KeepsTerminal(START, toks);
    } else if toks[0].typ.ItemCommentStart? {
      DropsComment(START, toks);
      if toks[1].typ.ItemText? {
        ParseSame(st, toks[2..]);
      }
    } else {
      KeepsToken(START, toks);
      StmtSame(st.context, toks);
      var r := ParseStmt(st.context, toks);
      if r.Ok? && Exec(st, r.value.val).Ok? {
        ParseSame(Exec(st, r.value.val).value, r.value.rest);
      }
    }
  }

  /** For every input: the comments at top level and in arrays can be dropped from its tokens. */
  lemma CommentsIgnored(input: string)
    ensures Stream(START, LexAll(input))
    ensures Parse(LexAll(input)) == Parse(Uncommented(START, LexAll(input)))
  {
    LexerStream(input);
    ParseSame(INIT, LexAll(input));
  }
}
