/** When exactly an assertion about tokens fails.

An offence in a token list need not be reached: the document may be rejected before it.  The
parser treats the tokens before the first offence alone as it treats them in the whole list, so
whether it gets there is seen by parsing just these tokens. */
module FirstOffence {
  import opened Tokens
  import opened LexRun
  import opened Outcomes
  import opened Grammar
  import opened Trees
  import opened ParserSpec
  import opened LexerMeetsParser
  import opened Documents
  import opened ContextLoss

  // The tokens before the first offence.
  function Before(g: Expected, toks: seq<Token>): (before: seq<Token>)
    requires Sentence(g, toks) && Offends(g, toks)
    ensures before < toks
    decreases |toks|
  {
    if IsOffence(g, toks[0]) then []
    else [toks[0]] + Before(Feed(g, toks[0].typ).value, toks[1..])
  }

  // The tokens from here on, with an offence among them.
  predicate Offending(g: Expected, toks: seq<Token>) {
    Stream(g, toks) && Offends(g, toks)
  }

  // One token of an offending list.
  lemma Step(g: Expected, toks: seq<Token>)
    requires Offending(g, toks)
    ensures !IsTerminal(toks[0])
    ensures IsOffence(g, toks[0]) ==> Before(g, toks) == []
    ensures !IsOffence(g, toks[0]) ==>
              && Feed(g, toks[0].typ).Some? && Offending(Feed(g, toks[0].typ).value, toks[1..])
              && Before(g, toks) == [toks[0]] + Before(Feed(g, toks[0].typ).value, toks[1..])
              && Before(g, toks)[1..] == Before(Feed(g, toks[0].typ).value, toks[1..])
  {
    Advance(g, toks);
  }

  // The outcomes of reading toks up to rest, and of reading only what comes before the first
  // offence: they agree, except that a failed assertion becomes the end of the list.
  predicate Tracks<T(==)>(full: Outcome<Read<T>>, cut: Outcome<Read<T>>, g: Expected) {
    match full
    case Ok(read) => Offending(g, read.rest) && cut == Ok(Read(read.val, read.keys, Before(g, read.rest)))
    case Rejected => cut == Rejected
    case Bug(_) => cut == Bug(PastEnd)
  }

  // ---- values ----

  lemma {:induction false} ValueTracks(g0: Expected, g: Expected, context: Key, key: string, toks: seq<Token>)
    requires Offending(g0, toks) && BeforeValue(g0, g) && !TornString(toks[0])
    requires g0 == g ==> !toks[0].typ.ItemArrayEnd? && !toks[0].typ.ItemCommentStart?
    ensures Before(g0, toks) != []
    ensures Tracks(ReadValue(context, key, toks[0], toks[1..]),
                   ReadValue(context, key, toks[0], Before(g0, toks)[1..]), g)
    decreases |toks|, 0
  {
    var t := toks[0];
    Step(g0, toks);
    if IsPrimitive(t.typ) {
      ScalarAgrees(t);
    } else if t.typ.ItemArray? {
      ElementsTrack(g, context, key, [], [], toks[1..]);
    } else if t.typ.ItemInlineTableStart? {
      PairsTrack(g, context + [key], map[], [], toks[1..]);
    }
  }

  lemma {:induction false} ElementsTrack(g: Expected, context: Key, key: string, vs: seq<Trees.Value>, keys: seq<Key>,
      toks: seq<Token>)
    requires Offending(Then(Elements, g), toks)
    ensures Tracks(ReadElements(context, key, vs, keys, toks),
                   ReadElements(context, key, vs, keys, Before(Then(Elements, g), toks)), g)
    decreases |toks|, 1
  {
    var g0 := Then(Elements, g);
    var t := toks[0];
    Step(g0, toks);
    if TornString(t) {
      ScalarAgrees(t);
      assert ReadValue(context, key, t, toks[1..]).Bug?;
    } else if t.typ.ItemCommentStart? {
      Step(Then(CommentText, g0), toks[1..]);
      ElementsTrack(g, context, key, vs, keys, toks[2..]);
    } else if !t.typ.ItemArrayEnd? {
      ValueTracks(g0, g0, context, key, toks);
      var r := ReadValue(context, key, t, toks[1..]);
      if r.Ok? {
        ElementsTrack(g, context, key, vs + [r.value.val], keys + r.value.keys, r.value.rest);
      }
    }
  }

  lemma {:induction false} PairsTrack(g: Expected, context: Key, hash: map<string, Trees.Value>, keys: seq<Key>,
      toks: seq<Token>)
    requires Offending(Then(Pairs, g), toks)
    ensures Tracks(ReadPairs(context, hash, keys, toks),
                   ReadPairs(context, hash, keys, Before(Then(Pairs, g), toks)), g)
    decreases |toks|, 1
  {
    var g0 := Then(Pairs, g);
    var t := toks[0];
    Step(g0, toks);
    if t.typ.ItemKeyStart? {
      PairTracks(g0, context, toks[1..]);
      var r := ReadPair(context, toks[1..]);
      if r.Ok? {
        var (name, v) := r.value.val;
        PairsTrack(g, context, hash[name := v], keys + r.value.keys + [context + [name]], r.value.rest);
      }
    }
  }

  lemma {:induction false} PairTracks(g: Expected, context: Key, toks: seq<Token>)
    requires Offending(Then(KeyName, Then(Value, g)), toks)
    ensures Tracks(ReadPair(context, toks), ReadPair(context, Before(Then(KeyName, Then(Value, g)), toks)), g)
    decreases |toks|, 2
  {
    var k := toks[0];
    Step(Then(KeyName, Then(Value, g)), toks);
    NameAgrees(k);
    if KeyString(k).Ok? {
      var v := toks[1..];
      Step(Then(Value, g), v);
      if TornString(v[0]) {
        ScalarAgrees(v[0]);
      } else {
        ValueTracks(Then(Value, g), g, context, KeyString(k).value, v);
      }
    }
  }

  // ---- statements ----

  lemma {:induction false} HeaderTracks(ofArray: bool, first: bool, path: Key, toks: seq<Token>)
    requires Offending(Then(Header(ofArray, first), START), toks) && (first <==> path == [])
    ensures var end := if ofArray then ItemArrayTableEnd else ItemTableEnd;
            Tracks(ReadHeader(end, path, toks),
                   ReadHeader(end, path, Before(Then(Header(ofArray, first), START), toks)), START)
    decreases |toks|
  {
    var t := toks[0];
    Step(Then(Header(ofArray, first), START), toks);
    if IsName(t.typ) {
      NameAgrees(t);
      if KeyString(t).Ok? {
        HeaderTracks(ofArray, false, path + [KeyString(t).value], toks[1..]);
      }
    }
  }

  lemma StmtTracks(context: Key, toks: seq<Token>)
    requires Offending(START, toks)
    ensures Tracks(ParseStmt(context, toks), ParseStmt(context, Before(START, toks)), START)
  {
    var t := toks[0];
    Step(START, toks);
    if t.typ.ItemCommentStart? {
      Step(Then(CommentText, START), toks[1..]);
    } else if t.typ.ItemTableStart? {
      HeaderTracks(false, true, [], toks[1..]);
    } else if t.typ.ItemArrayTableStart? {
      HeaderTracks(true, true, [], toks[1..]);
    } else if t.typ.ItemKeyStart? {
      PairTracks(START, context, toks[1..]);
    }
  }

  // A whole list and the part of it before the first offence: a failed assertion about tokens
  // becomes the end of the list, and every other outcome is the same.
  predicate SameButTokens(full: Outcome<PState>, cut: Outcome<PState>) {
    match full
    case Ok(_) => false
    case Rejected => cut == Rejected
    case Bug(site) => cut == Bug(if AboutTokens(site) then PastEnd else site)
  }

  lemma {:induction false} ParseTracks(st: PState, toks: seq<Token>)
    requires Offending(START, toks)
    ensures SameButTokens(ParseFrom(st, toks), ParseFrom(st, Before(START, toks)))
    decreases |toks|
  {
    Step(START, toks);
    StmtAgrees(st.context, toks);
    StmtTracks(st.context, toks);
    var r := ParseStmt(st.context, toks);
    if r.Ok? {
      ExecSites(st, r.value.val);
      if Exec(st, r.value.val).Ok? {
        ParseTracks(Exec(st, r.value.val).value, r.value.rest);
      }
    }
  }

  /** For every input: an assertion about tokens fails exactly if there is an offence and the
      tokens before the first one are not rejected by themselves, nor fail an assertion about the
      tree, but come to their end. */
  lemma TokenAssertions(input: string)
    ensures Stream(START, LexAll(input))
    ensures var toks := LexAll(input);
            && ((Parse(toks).Bug? && AboutTokens(Parse(toks).site)) <==>
                (Offends(START, toks) && Parse(Before(START, toks)) == Bug(PastEnd)))
            && (Offends(START, toks) && Parse(Before(START, toks)) != Bug(PastEnd) ==>
                Parse(toks) == Parse(Before(START, toks)))
  {
    var toks := LexAll(input);
    LexerAndParserAgree(input);
    if Offends(START, toks) {
      ParseTracks(INIT, toks);
    }
  }

  // The parser comes to the first offence.
  predicate ReachesOffence(toks: seq<Token>)
    requires Stream(START, toks)
  {
    Offends(START, toks) && Parse(Before(START, toks)) == Bug(PastEnd)
  }

  /** For every input: parsing fails an assertion, of whatever kind, exactly if it comes to an
      offence or assigns in a context that a stale mark has lost; otherwise the document is
      accepted or rejected. */
  lemma AssertionsFail(input: string)
    ensures Stream(START, LexAll(input))
    ensures Parse(LexAll(input)).Bug? <==>
              ReachesOffence(LexAll(input)) || LosesContext(ReadAll([], LexAll(input)).0)
  {
    hide Parse, LosesContext, Offends;
    TokenAssertions(input);
    ContextAssertions(input);
  }
}
