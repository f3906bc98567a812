/** The lexer and the parser agree.

Every token list of the lexer is a sentence of the grammar with well-formed tokens.  On such
lists the parser's assertions about tokens fail only in two situations, both of which can be
seen in the token list: a comment directly inside an inline table, and a multi-line basic
string that the walk over its text finds torn. */
module LexerMeetsParser {
  import opened Runes
  import opened Tokens
  import opened LexRun
  import opened LexTokens
  import opened LexText
  import opened Outcomes
  import opened Escapes
  import opened MultilineStrings
  import opened Grammar
  import opened Trees
  import opened ParserSpec

  // The assertions of the parser that are about the lexer.
  predicate AboutTokens(site: Site) {
    site.UnexpectedToken? || site.NoKeyStart? || site.NotABool? || site.NotAnInteger? || site.DanglingEscape?
        || site.PastEnd?
  }

  // A backslash before CR, or a backslash that lost its partner and meets no escape code.
  predicate TornString(t: Token) {
    t.typ.ItemMultilineString? && Walk(t.val, false) == Torn
  }

  // A comment directly inside an inline table, or a torn string.
  predicate IsOffence(g: Expected, t: Token) {
    TornString(t) || (g.Then? && g.sym.Pairs? && t.typ.ItemCommentStart?)
  }

  // Somewhere in toks, read from g, there is an offence.
  predicate Offends(g: Expected, toks: seq<Token>)
    requires Sentence(g, toks)
    decreases |toks|
  {
    !IsTerminal(toks[0]) &&
    (IsOffence(g, toks[0]) || Offends(Feed(g, toks[0].typ).value, toks[1..]))
  }

  predicate AllWellFormed(toks: seq<Token>) {
    forall i :: 0 <= i < |toks| ==> WellFormed(toks[i])
  }

  // The token list from here on, as the lexer makes it.
  predicate Stream(g: Expected, toks: seq<Token>) {
    Sentence(g, toks) && AllWellFormed(toks)
  }

  // The outcome of reading part of toks up to rest, where g0 was expected before and g is
  // expected after: a failed assertion needs an offence, and a successful read contains none.
  predicate Agrees<T>(g0: Expected, toks: seq<Token>, r: Outcome<Read<T>>, g: Expected)
    requires Stream(g0, toks)
  {
    match r
    case Ok(read) => Stream(g, read.rest) && (Offends(g0, toks) <==> Offends(g, read.rest))
    case Rejected => true
    case Bug(site) => AboutTokens(site) && Offends(g0, toks)
  }

  // One token of a stream.
  lemma Advance(g: Expected, toks: seq<Token>)
    requires Stream(g, toks) && !IsTerminal(toks[0])
    ensures Feed(g, toks[0].typ).Some? && Stream(Feed(g, toks[0].typ).value, toks[1..])
    ensures Offends(g, toks) <==> IsOffence(g, toks[0]) || Offends(Feed(g, toks[0].typ).value, toks[1..])
  {
  }

  // ---- scalars and names ----

  lemma {:induction false} UnderscoresGone(s: string)
    requires forall i :: 0 <= i < |s| ==> IsDigit(s[i]) || s[i] == '_'
    ensures AllDigits(WithoutUnderscores(s))
  {
    if s != [] {
      UnderscoresGone(s[1..]);
    }
  }

  lemma IntegerParses(s: string)
    requires IntegerText(s)
    ensures !ParseInt(WithoutUnderscores(s)).Bug?
  {
    var u := Unsigned(s);
    UnderscoresGone(u);
    assert WithoutUnderscores(u) == [u[0]] + WithoutUnderscores(u[1..]);
    if u != s {
      assert WithoutUnderscores(s) == [s[0]] + WithoutUnderscores(u);
    }
  }

  lemma ScalarAgrees(t: Token)
    requires IsPrimitive(t.typ) && WellFormed(t)
    ensures match Scalar(t)
            case Ok(_) => !TornString(t)
            case Rejected => !TornString(t)
            case Bug(site) => AboutTokens(site) && TornString(t)
  {
    if t.typ.ItemString? {
      UnescapeRejects(t.val);
    } else if t.typ.ItemMultilineString? {
      UnescapeSite(Trimmed(t.val));
      MultilineVerdict(t.val);
    } else if t.typ.ItemInteger? {
      IntegerParses(t.val);
    }
  }

  lemma NameAgrees(t: Token)
    requires IsName(t.typ) && WellFormed(t)
    ensures match KeyString(t)
            case Ok(_) => !TornString(t)
            case Rejected => !TornString(t)
            case Bug(site) => AboutTokens(site) && TornString(t)
  {
    if IsStringType(t.typ) {
      ScalarAgrees(t);
    }
  }

  // ---- values ----

  // What is expected when the parser reads a value: a value, or an element of an array.
  predicate BeforeValue(g0: Expected, g: Expected) {
    g0 == Then(Value, g) || (g0 == g && g.Then? && g.sym.Elements?)
  }

  lemma {:induction false} ValueAgrees(g0: Expected, g: Expected, context: Key, key: string, toks: seq<Token>)
    requires Stream(g0, toks) && BeforeValue(g0, g)
    requires !IsTerminal(toks[0])
    requires g0 == g ==> !toks[0].typ.ItemArrayEnd? && !toks[0].typ.ItemCommentStart?
    ensures Agrees(g0, toks, ReadValue(context, key, toks[0], toks[1..]), g)
    decreases |toks|, 0
  {
    var t := toks[0];
    Advance(g0, toks);
    if IsPrimitive(t.typ) {
      ScalarAgrees(t);
    } else if t.typ.ItemArray? {
      ElementsAgree(g, context, key, [], [], toks[1..]);
    } else if t.typ.ItemInlineTableStart? {
      PairsAgree(g, context + [key], map[], [], toks[1..]);
    }
  }

  lemma {:induction false} ElementsAgree(g: Expected, context: Key, key: string, vs: seq<Trees.Value>, keys: seq<Key>,
      toks: seq<Token>)
    requires Stream(Then(Elements, g), toks)
    ensures Agrees(Then(Elements, g), toks, ReadElements(context, key, vs, keys, toks), g)
    decreases |toks|, 1
  {
    var g0 := Then(Elements, g);
    var t := toks[0];
    if !IsTerminal(t) {
      Advance(g0, toks);
      if t.typ.ItemCommentStart? {
        if !IsTerminal(toks[1]) {
          Advance(Then(CommentText, g0), toks[1..]);
          ElementsAgree(g, context, key, vs, keys, toks[2..]);
        }
      } else if !t.typ.ItemArrayEnd? {
        ValueAgrees(g0, g0, context, key, toks);
        var r := ReadValue(context, key, t, toks[1..]);
        if r.Ok? {
          ElementsAgree(g, context, key, vs + [r.value.val], keys + r.value.keys, r.value.rest);
        }
      }
    }
  }

  lemma {:induction false} PairsAgree(g: Expected, context: Key, hash: map<string, Trees.Value>, keys: seq<Key>,
      toks: seq<Token>)
    requires Stream(Then(Pairs, g), toks)
    ensures Agrees(Then(Pairs, g), toks, ReadPairs(context, hash, keys, toks), g)
    decreases |toks|, 1
  {
    var g0 := Then(Pairs, g);
    var t := toks[0];
    if !IsTerminal(t) {
      Advance(g0, toks);
      if t.typ.ItemKeyStart? {
        PairAgrees(g0, context, toks[1..]);
        var r := ReadPair(context, toks[1..]);
        if r.Ok? {
          var (name, v) := r.value.val;
          PairsAgree(g, context, hash[name := v], keys + r.value.keys + [context + [name]], r.value.rest);
        }
      }
    }
  }

  lemma {:induction false} PairAgrees(g: Expected, context: Key, toks: seq<Token>)
    requires Stream(Then(KeyName, Then(Value, g)), toks)
    ensures Agrees(Then(KeyName, Then(Value, g)), toks, ReadPair(context, toks), g)
    decreases |toks|, 2
  {
    var k := toks[0];
    if !IsTerminal(k) {
      Advance(Then(KeyName, Then(Value, g)), toks);
      NameAgrees(k);
      if KeyString(k).Ok? && !IsTerminal(toks[1]) {
        ValueAgrees(Then(Value, g), g, context, KeyString(k).value, toks[1..]);
      }
    }
  }

  // ---- statements ----

  lemma {:induction false} HeaderAgrees(ofArray: bool, first: bool, path: Key, toks: seq<Token>)
    requires Stream(Then(Header(ofArray, first), START), toks)
    requires first <==> path == []
    ensures var r := ReadHeader(if ofArray then ItemArrayTableEnd else ItemTableEnd, path, toks);
            Agrees(Then(Header(ofArray, first), START), toks, r, START) && (r.Ok? ==> r.value.val != [])
    decreases |toks|
  {
    var t := toks[0];
    if !IsTerminal(t) {
      Advance(Then(Header(ofArray, first), START), toks);
      if IsName(t.typ) {
        NameAgrees(t);
        if KeyString(t).Ok? {
          HeaderAgrees(ofArray, false, path + [KeyString(t).value], toks[1..]);
        }
      }
    }
  }

  lemma StmtAgrees(context: Key, toks: seq<Token>)
    requires Stream(START, toks) && !IsTerminal(toks[0])
    ensures var r := ParseStmt(context, toks);
            && Agrees(START, toks, r, START)
            && (r.Ok? && (r.value.val.TableHeader? || r.value.val.ArrayHeader?) ==> r.value.val.path != [])
  {
    var t := toks[0];
    Advance(START, toks);
    if t.typ.ItemCommentStart? {
      if !IsTerminal(toks[1]) {
        Advance(Then(CommentText, START), toks[1..]);
      }
    } else if t.typ.ItemTableStart? {
      HeaderAgrees(false, true, [], toks[1..]);
    } else if t.typ.ItemArrayTableStart? {
      HeaderAgrees(true, true, [], toks[1..]);
    } else if t.typ.ItemKeyStart? {
      PairAgrees(START, context, toks[1..]);
    }
  }

  // Changing the tree raises assertions of its own only.
  lemma {:induction false} DrillSites(st: PState, todo: Key)
    ensures Drill(st, todo).Bug? ==> !AboutTokens(Drill(st, todo).site)
    decreases |todo|
  {
    if todo != [] && Context(st).Ok? {
      var hash := Context(st).value;
      var path := st.context + [todo[0]];
      if todo[0] in hash.entries {
        DrillSites(st.(context := path), todo[1..]);
      } else {
        DrillSites(st.(mapping := Put(st.mapping, st.context, With(hash, todo[0], Hash(EMPTY))),
                       implicits := st.implicits[Join(path) := true], context := path), todo[1..]);
      }
    }
  }

  lemma ExecSites(st: PState, s: Stmt)
    requires s.TableHeader? || s.ArrayHeader? ==> s.path != []
    ensures Exec(st, s).Bug? ==> !AboutTokens(Exec(st, s).site)
  {
    if s.TableHeader? || s.ArrayHeader? {
      DrillSites(st.(context := []), s.path[..|s.path| - 1]);
    }
  }

  lemma {:induction false} ParseAgrees(st: PState, toks: seq<Token>)
    requires Stream(START, toks)
    ensures match ParseFrom(st, toks)
            case Ok(_) => !Offends(START, toks)
            case Rejected => true
            case Bug(site) => AboutTokens(site) ==> Offends(START, toks)
    decreases |toks|
  {
    if !IsTerminal(toks[0]) {
      StmtAgrees(st.context, toks);
      var r := ParseStmt(st.context, toks);
      if r.Ok? {
        ExecSites(st, r.value.val);
        if Exec(st, r.value.val).Ok? {
          ParseAgrees(Exec(st, r.value.val).value, r.value.rest);
        }
      }
    }
  }

  lemma LexerStream(input: string)
    ensures Stream(START, LexAll(input))
  {
    LexerKeepsToGrammar(input);
    TokensWellFormed(input);
  }

  /** For every input: an assertion of the parser about the lexer fails only if the input has a
      comment directly inside an inline table or a torn multi-line string; and an input that
      has one is never accepted. */
  lemma LexerAndParserAgree(input: string)
    ensures Stream(START, LexAll(input))
    ensures match Parse(LexAll(input))
            case Ok(_) => !Offends(START, LexAll(input))
            case Rejected => true
            case Bug(site) => AboutTokens(site) ==> Offends(START, LexAll(input))
  {
    LexerStream(input);
    ParseAgrees(INIT, LexAll(input));
  }
}
