/** Documents of one multi-line string.

The verdict of the walk is what the whole front end does: the text between the quotes comes
through the lexer unchanged, and the parser accepts, rejects or fails as the walk says. */
module MultilineDocuments {
  import opened Runes
  import opened Tokens
  import opened LexSpec
  import opened LexRun
  import opened Outcomes
  import opened Escapes
  import opened Trees
  import opened ParserSpec
  import opened LexPrinted
  import opened LexDocument
  import opened RoundTrip
  import opened MultilineStrings

  // No NUL and no quote outside escape sequences.
  predicate Quoteless(w: string)
    decreases |w|
  {
    w == [] || (w[0] != EOF && w[0] != '"' && Quoteless(MultilineStrings.After(w)))
  }

  // ---- the lexer ----

  function In(k: Stack, start: nat, p: nat, out: seq<Token>): Config {
    Config(LexMultilineString, k, start, p, out)
  }

  lemma PassPlain(input: string, k: Stack, start: nat, p: nat, out: seq<Token>)
    requires start <= p < |input| && TakesString(PlaceOf(k))
    requires input[p] != '\\' && input[p] != '"' && input[p] != EOF
    ensures Reaches(input, In(k, start, p, out), In(k, start, p + 1, out))
  {
    StepTo(input, In(k, start, p, out), In(k, start, p + 1, out));
  }

  lemma PassBackslash(input: string, k: Stack, start: nat, p: nat, out: seq<Token>)
    requires start <= p < |input| && TakesString(PlaceOf(k)) && input[p] == '\\'
    ensures Reaches(input, In(k, start, p, out), Config(LexMultilineStringEscape, k, start, p + 1, out))
  {
    StepTo(input, In(k, start, p, out), Config(LexMultilineStringEscape, k, start, p + 1, out));
  }

  lemma PassTwo(input: string, k: Stack, start: nat, p: nat, out: seq<Token>)
    requires start <= p < |input| && TakesString(PlaceOf(k))
    requires IsNL(input[p]) || SimpleEscape(input[p]).Ok?
    ensures Reaches(input, Config(LexMultilineStringEscape, k, start, p, out), In(k, start, p + 1, out))
  {
    StepTo(input, Config(LexMultilineStringEscape, k, start, p, out), In(k, start, p + 1, out));
  }

  lemma PassMark(input: string, k: Stack, start: nat, p: nat, n: nat, out: seq<Token>)
    requires start <= p < |input| && TakesString(PlaceOf(k)) && Asks(input[p], n)
    ensures Reaches(input, Config(LexMultilineStringEscape, k, start, p, out),
                    Config(if n == 4 then LexShortUnicodeEscape else LexLongUnicodeEscape,
                           Frame(LexMultilineString, k), start, p + 1, out))
  {
    StepTo(input, Config(LexMultilineStringEscape, k, start, p, out),
           Config(if n == 4 then LexShortUnicodeEscape else LexLongUnicodeEscape,
                  Frame(LexMultilineString, k), start, p + 1, out));
  }

  lemma {:induction false} AllDigitsCounted(input: string, p: nat, n: nat)
    requires p + n <= |input| && AllHex(input[p..p + n])
    ensures HexDigits(input, p, n) == n
    decreases n
  {
    if n > 0 {
      assert input[p] == input[p..p + n][0];
      assert input[p + 1..p + 1 + (n - 1)] == input[p..p + n][1..];
      AllDigitsCounted(input, p + 1, n - 1);
    }
  }

  lemma PassDigits(input: string, k: Stack, start: nat, p: nat, n: nat, out: seq<Token>)
    requires start <= p && p + n <= |input| && TakesString(PlaceOf(k)) && (n == 4 || n == 8)
    requires AllHex(input[p..p + n])
    ensures Reaches(input, Config(if n == 4 then LexShortUnicodeEscape else LexLongUnicodeEscape,
                                  Frame(LexMultilineString, k), start, p, out),
                    In(k, start, p + n, out))
  {
    AllDigitsCounted(input, p, n);
    StepTo(input, Config(if n == 4 then LexShortUnicodeEscape else LexLongUnicodeEscape,
                         Frame(LexMultilineString, k), start, p, out),
           In(k, start, p + n, out));
  }

  lemma PassUnicode(input: string, k: Stack, start: nat, p: nat, n: nat, out: seq<Token>)
    requires start <= p && p + n + 2 <= |input| && TakesString(PlaceOf(k))
    requires input[p] == '\\' && Asks(input[p + 1], n) && AllHex(input[p + 2..p + 2 + n])
    ensures Reaches(input, In(k, start, p, out), In(k, start, p + 2 + n, out))
  {
    hide Reaches, AllHex;
    var e := Config(LexMultilineStringEscape, k, start, p + 1, out);
    var h := Config(if n == 4 then LexShortUnicodeEscape else LexLongUnicodeEscape,
                    Frame(LexMultilineString, k), start, p + 2, out);
    PassBackslash(input, k, start, p, out);
    PassMark(input, k, start, p + 1, n, out);
    PassDigits(input, k, start, p + 2, n, out);
    Chain(input, In(k, start, p, out), e, h);
    Chain(input, In(k, start, p, out), h, In(k, start, p + 2 + n, out));
  }

  lemma PassEscape(input: string, k: Stack, start: nat, p: nat, out: seq<Token>)
    requires start <= p < |input| - 1 && TakesString(PlaceOf(k))
    requires input[p] == '\\' && (IsNL(input[p + 1]) || SimpleEscape(input[p + 1]).Ok?)
    ensures Reaches(input, In(k, start, p, out), In(k, start, p + 2, out))
  {
    hide Reaches;
    PassBackslash(input, k, start, p, out);
    PassTwo(input, k, start, p + 1, out);
    Chain(input, In(k, start, p, out), Config(LexMultilineStringEscape, k, start, p + 1, out),
        In(k, start, p + 2, out));
  }

  // The runes of a piece at p.
  lemma PieceAt(input: string, p: nat, w: string)
    requires HasAt(input, p, w) && w != [] && PieceLength(w) <= |w|
    ensures HasAt(input, p + PieceLength(w), w[PieceLength(w)..])
    ensures input[p] == w[0] && (|w| >= 2 ==> input[p + 1] == w[1])
    ensures PieceLength(w) > 2 ==> input[p + 2..p + PieceLength(w)] == w[2..PieceLength(w)]
  {
    var n := PieceLength(w);
    var t := input[p..p + |w|];
    assert t == w;
    assert input[p] == t[0] && (|w| >= 2 ==> input[p + 1] == t[1]);
    assert |t| == |w|;
    if n > 2 {
      assert forall i :: 2 <= i < n ==> input[p + i] == t[i];
      assert input[p + 2..p + n] == t[2..n];
    }
    assert w == w[..n] + w[n..];
    HasSplit(input, p, w[..n], w[n..]);
  }

  lemma PassPiece(input: string, k: Stack, start: nat, p: nat, w: string, out: seq<Token>)
    requires start <= p && HasAt(input, p, w) && TakesString(PlaceOf(k))
    requires w != [] && MultiEscaped(w) && Quoteless(w)
    ensures Reaches(input, In(k, start, p, out), In(k, start, p + PieceLength(w), out))
  {
    hide Reaches, HasAt;
    PieceAt(input, p, w);
    if w[0] != '\\' {
      PassPlain(input, k, start, p, out);
    } else if PieceLength(w) == 2 {
      PassEscape(input, k, start, p, out);
    } else {
      assert PieceRune(w) == HexRune(w[2..PieceLength(w)]);
      PassUnicode(input, k, start, p, PieceLength(w) - 2, out);
    }
  }

  lemma Stay(input: string, c: Config)
    ensures Reaches(input, c, c)
  {
  }

  lemma TailPasses(w: string)
    requires w != [] && MultiEscaped(w) && Quoteless(w)
    ensures var n := PieceLength(w); n <= |w| && MultiEscaped(w[n..]) && Quoteless(w[n..])
  {
    assert w[PieceLength(w)..] == MultilineStrings.After(w);
  }

  lemma {:induction false} PassText(input: string, k: Stack, start: nat, p: nat, w: string, out: seq<Token>)
    requires start <= p && HasAt(input, p, w) && TakesString(PlaceOf(k))
    requires MultiEscaped(w) && Quoteless(w)
    ensures Reaches(input, In(k, start, p, out), In(k, start, p + |w|, out))
    decreases |w|
  {
    hide HasAt, PlaceOf, Reaches, MultiEscaped, Quoteless, PieceLength;
    if w == [] {
      Stay(input, In(k, start, p, out));
    } else {
      TailPasses(w);
      var n := PieceLength(w);
      PassPiece(input, k, start, p, w, out);
      PieceAt(input, p, w);
      PassText(input, k, start, p + n, w[n..], out);
      Chain(input, In(k, start, p, out), In(k, start, p + n, out), In(k, start, p + |w|, out));
    }
  }

  const QUOTES := "\"\"\""

  function Doc(w: string, rest: string): string {
    "a=" + QUOTES + w + QUOTES + rest
  }

  function DocTokens(w: string): seq<Token> {
    [Token(ItemKeyStart, []), Token(ItemText, "a"), Token(ItemMultilineString, w)]
  }

  lemma DocParts(w: string, rest: string)
    ensures var d := Doc(w, rest);
            && |d| >= 8 + |w| && d[0] == 'a' && d[1] == '=' && d[2] == '"' && d[3] == '"' && d[4] == '"'
            && HasAt(d, 5, w) && d[5..5 + |w|] == w
            && d[5 + |w|] == '"' && d[6 + |w|] == '"' && d[7 + |w|] == '"'
            && d[8 + |w|..] == rest
  {
  }

  lemma NameRead(input: string)
    requires |input| >= 2 && input[0] == 'a' && input[1] == '='
    ensures Reaches(input, LexSpec.INIT, Here(LexKeyEnd, TOP, 1, [Token(ItemKeyStart, []), Token(ItemText, "a")]))
  {
    var o1 := [Token(ItemKeyStart, [])];
    var o2 := [Token(ItemKeyStart, []), Token(ItemText, "a")];
    assert input[0..1] == "a" && [] + o1 == o1 && o1 + [Token(ItemText, "a")] == o2;
    assert Here(LexTop, Empty, 0, []) == LexSpec.INIT;
    EnterKey(input, 0, []);
    KeyStarts(input, 0, []);
    StepTo(input, Here(LexBareKey, TOP, 0, o1), Config(LexBareKey, TOP, 0, 1, o1));
    StepTo(input, Config(LexBareKey, TOP, 0, 1, o1), Here(LexKeyEnd, TOP, 1, o2));
  }

  lemma QuotesOpen(input: string, out: seq<Token>)
    requires |input| >= 5 && input[1] == '=' && input[2] == '"' && input[3] == '"' && input[4] == '"'
    ensures Reaches(input, Here(LexKeyEnd, TOP, 1, out), In(TOP, 5, 5, out))
  {
    StepTo(input, Here(LexKeyEnd, TOP, 1, out), Config(LexSkip(LexValue), TOP, 1, 2, out));
    StepTo(input, Config(LexSkip(LexValue), TOP, 1, 2, out), Here(LexValue, TOP, 2, out));
    StepTo(input, Here(LexValue, TOP, 2, out), In(TOP, 5, 5, out));
  }

  lemma QuotesClose(input: string, q: nat, out: seq<Token>)
    requires 5 <= q && q + 3 <= |input| && input[q] == '"' && input[q + 1] == '"' && input[q + 2] == '"'
    ensures Reaches(input, In(TOP, 5, q, out),
                    Here(LexTopEnd, Empty, q + 3, out + [Token(ItemMultilineString, input[5..q])]))
  {
    StepTo(input, In(TOP, 5, q, out), Here(LexTopEnd, Empty, q + 3, out + [Token(ItemMultilineString, input[5..q])]));
  }

  lemma DocRun(w: string, rest: string)
    requires MultiEscaped(w) && Quoteless(w)
    ensures Reaches(Doc(w, rest), LexSpec.INIT, Here(LexTopEnd, Empty, 8 + |w|, DocTokens(w)))
  {
    hide Reaches, HasAt, Doc, MultiEscaped, Quoteless;
    var input := Doc(w, rest);
    var o := [Token(ItemKeyStart, []), Token(ItemText, "a")];
    var end := Here(LexTopEnd, Empty, 8 + |w|, DocTokens(w));
    DocParts(w, rest);
    NameRead(input);
    QuotesOpen(input, o);
    PassText(input, TOP, 5, 5, w, o);
    QuotesClose(input, 5 + |w|, o);
    assert o + [Token(ItemMultilineString, w)] == DocTokens(w);
    Chain(input, LexSpec.INIT, Here(LexKeyEnd, TOP, 1, o), In(TOP, 5, 5, o));
    Chain(input, LexSpec.INIT, In(TOP, 5, 5, o), In(TOP, 5, 5 + |w|, o));
    Chain(input, LexSpec.INIT, In(TOP, 5, 5 + |w|, o), end);
  }

  // ---- the parser ----

  lemma DocRead(w: string, rest: seq<Token>)
    ensures var toks := DocTokens(w) + rest;
            match Unescape(Trimmed(w))
            case Ok(s) => ParseStmt([], toks) == Ok(Read(Assign("a", Str(s), []), [], rest))
            case failed => ParseStmt([], toks) == failed.PropagateFailure() && Parse(toks) == failed.PropagateFailure()
  {
    var toks := DocTokens(w) + rest;
    var t := Token(ItemMultilineString, w);
    assert toks[1..][0] == Token(ItemText, "a") && toks[1..][1..][0] == t && toks[1..][2..] == rest;
    hide Unescape;
    assert ReadPair([], toks[1..]) ==
      match Unescape(Trimmed(w))
      case Ok(s) => Ok(Read(("a", Str(s)), [], rest))
      case failed => failed.PropagateFailure();
  }

  lemma EmptyEnd(w: string) returns (st: PState)
    ensures Parse(DocTokens(w) + [Token(ItemEOF, [])]) ==
              (match Unescape(Trimmed(w))
               case Ok(_) => Ok(st)
               case failed => failed.PropagateFailure())
    ensures Unescape(Trimmed(w)).Ok? ==> st.mapping == With(EMPTY, "a", Str(Unescape(Trimmed(w)).value))
  {
    hide Unescape, Trimmed, ParseStmt;
    var end := [Token(ItemEOF, [])];
    DocRead(w, end);
    st := ParserSpec.INIT;
    if Unescape(Trimmed(w)).Ok? {
      st := Exec(ParserSpec.INIT, Assign("a", Str(Unescape(Trimmed(w)).value), [])).value;
      assert ParseFrom(st, end) == Ok(st);
    }
  }

  lemma DocTail(w: string)
    requires MultiEscaped(w) && Quoteless(w)
    ensures LexAll(Doc(w, "\n")) == DocTokens(w) + [Token(ItemEOF, [])]
  {
    hide Reaches, Doc, MultiEscaped, Quoteless;
    var input := Doc(w, "\n");
    var n := |input|;
    var toks := DocTokens(w);
    var last := Here(LexTop, Empty, n, toks);
    var end := Here(LexDone, Empty, n, toks + [Token(ItemEOF, [])]);
    DocRun(w, "\n");
    DocParts(w, "\n");
    assert n == 9 + |w| && input[8 + |w|] == input[8 + |w|..][0];
    EndItem(input, 8 + |w|, toks);
    EndOfText(input, toks);
    Chain(input, LexSpec.INIT, Here(LexTopEnd, Empty, 8 + |w|, toks), last);
    Chain(input, LexSpec.INIT, last, end);
    ReachesSameEnd(input, LexSpec.INIT, end);
  }

  lemma DocPrefix(w: string, rest: string)
    requires MultiEscaped(w) && Quoteless(w)
    ensures DocTokens(w) <= LexAll(Doc(w, rest))
  {
    hide Reaches, Doc, MultiEscaped, Quoteless;
    DocRun(w, rest);
    ReachesSameEnd(Doc(w, rest), LexSpec.INIT, Here(LexTopEnd, Empty, 8 + |w|, DocTokens(w)));
  }

  lemma DocFails(w: string, toks: seq<Token>)
    requires DocTokens(w) <= toks
    ensures Walk(w, false) == Torn && MultiEscaped(w) ==> Parse(toks) == Bug(DanglingEscape)
    ensures Walk(w, false) == Refused && MultiEscaped(w) ==> Parse(toks) == Rejected
  {
    hide Unescape, Trimmed, Walk, MultiEscaped, Parse, ParseStmt;
    assert toks == DocTokens(w) + toks[3..];
    DocRead(w, toks[3..]);
    if MultiEscaped(w) {
      MultilineVerdict(w);
      UnescapeSite(Trimmed(w));
    }
  }

  /** A document that assigns a multi-line string fails an assertion, is rejected or is accepted
      as the walk over the text between the quotes says; and the first two whatever follows. */
  lemma MultilineDocument(w: string, rest: string)
    requires MultiEscaped(w) && Quoteless(w)
    ensures Walk(w, false) == Torn ==> Parse(LexAll(Doc(w, rest))) == Bug(DanglingEscape)
    ensures Walk(w, false) == Refused ==> Parse(LexAll(Doc(w, rest))) == Rejected
    ensures Walk(w, false) == Fine ==>
              && Unescape(Trimmed(w)).Ok?
              && Parse(LexAll(Doc(w, "\n"))).Ok?
              && Parse(LexAll(Doc(w, "\n"))).value.mapping == With(EMPTY, "a", Str(Unescape(Trimmed(w)).value))
  {
    hide Unescape, Trimmed, Walk, MultiEscaped, Quoteless, Parse, LexAll, Doc;
    MultilineVerdict(w);
    DocPrefix(w, rest);
    DocFails(w, LexAll(Doc(w, rest)));
    DocTail(w);
    var st := EmptyEnd(w);
  }

  // ---- three texts ----

  const RETURN_TEXT := "\\\r\n"
  const TORN_TEXT := "\\\\\n"
  const TAB_TEXT := "\\\\\nt"

  lemma TextsPass()
    ensures MultiEscaped(RETURN_TEXT) && Quoteless(RETURN_TEXT) && Walk(RETURN_TEXT, false) == Torn
    ensures MultiEscaped(TORN_TEXT) && Quoteless(TORN_TEXT) && Walk(TORN_TEXT, false) == Torn
    ensures MultiEscaped(TAB_TEXT) && Quoteless(TAB_TEXT) && Walk(TAB_TEXT, false) == Fine
  {
    assert RETURN_TEXT[2..] == "\n" && "\n"[1..] == "";
    assert TORN_TEXT[2..] == "\n" && TORN_TEXT[3..] == "";
    assert TAB_TEXT[2..] == "\nt" && "\nt"[1..] == "t" && TAB_TEXT[3..] == "t" && "t"[1..] == "";
    assert Walk("", true) == Torn;
    assert Walk("t", true) == Walk("", false);
  }

  /** A backslash at the end of a line fails an assertion if lines end in CR LF. */
  lemma ReturnFailsAssertion(rest: string)
    ensures Parse(LexAll("a=\"\"\"\\\r\n\"\"\"" + rest)) == Bug(DanglingEscape)
  {
    hide MultiEscaped, Quoteless, Walk, Parse, LexAll;
    TextsPass();
    MultilineDocument(RETURN_TEXT, rest);
    assert Doc(RETURN_TEXT, rest) == "a=\"\"\"\\\r\n\"\"\"" + rest;
  }

  /** So does an escaped backslash at the end of the last line. */
  lemma TornStringFailsAssertion(rest: string)
    ensures Parse(LexAll("a=\"\"\"\\\\\n\"\"\"" + rest)) == Bug(DanglingEscape)
  {
    hide MultiEscaped, Quoteless, Walk, Parse, LexAll;
    TextsPass();
    MultilineDocument(TORN_TEXT, rest);
    assert Doc(TORN_TEXT, rest) == "a=\"\"\"\\\\\n\"\"\"" + rest;
  }

  /** With a t on the next line the text is accepted, as a TAB. */
  lemma TornStringReadAsTab()
    ensures Parse(LexAll("a=\"\"\"\\\\\nt\"\"\"\n")).Ok?
    ensures Parse(LexAll("a=\"\"\"\\\\\nt\"\"\"\n")).value.mapping == Table(map["a" := Str("\t")])
  {
    hide MultiEscaped, Quoteless, Walk, Parse, LexAll, Unescape, Trimmed;
    TextsPass();
    MultilineDocument(TAB_TEXT, []);
    TabText();
    assert Doc(TAB_TEXT, "\n") == "a=\"\"\"\\\\\nt\"\"\"\n";
    assert With(EMPTY, "a", Str("\t")) == Table(map["a" := Str("\t")]);
  }

  lemma TabText()
    ensures Unescape(Trimmed(TAB_TEXT)) == Ok("\t")
  {
    var w := TAB_TEXT;
    assert w[1..][2..] == "t" && "t"[1..] == "";
    StripOne(w);
    StripNewline(w[1..]);
    StripOne("t");
    assert StripEscapedWhitespace(w) == "\\" + ("t" + "") == "\\t";
    var t := "\\t";
    assert Unescape("") == Ok([]);
    assert PieceLength(t) == 2 && PieceRune(t) == Ok('\t') && t[2..] == "";
    assert Unescape(t) == Ok(['\t'] + []);
    assert ['\t'] + [] == "\t" && StripFirstNewline(t) == t;
  }
}
