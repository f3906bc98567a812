/** The contents of tokens, and the conservation of input. */
module LexTokens {
  import opened Runes
  import opened Tokens
  import opened LexSpec
  import opened LexRun
  import opened LexText
  import opened Escapes

  // ---- escape sequences of basic strings ----

  // An aligned text followed by the unfinished escape sequence mark.
  predicate InEscape(multi: bool, w: string, mark: string) {
    |mark| <= |w| && w[|w| - |mark|..] == mark && Aligned(multi, w[..|w| - |mark|])
  }

  predicate Escaped(multi: bool, s: State, w: string) {
    match s
    case LexMultilineStringEscape => InEscape(multi, w, "\\")
    case LexStringEscape => InEscape(multi, w, "\\")
    case LexShortUnicodeEscape => InEscape(multi, w, "\\u")
    case LexLongUnicodeEscape => InEscape(multi, w, "\\U")
    case _ => Aligned(multi, w)
  }

  predicate EscapesOk(multi: bool, input: string, c: Config)
    requires InBounds(input, c)
  {
    InBasic(multi, c) ==> Escaped(multi, c.state, Pending(input, c))
  }

  lemma CloseEscape(multi: bool, w: string, mark: string, tail: string)
    requires InEscape(multi, w, mark) && Aligned(multi, mark + tail)
    ensures Aligned(multi, w + tail)
  {
    AlignedAppend(multi, w[..|w| - |mark|], mark + tail);
    hide Aligned;
    assert w + tail == w[..|w| - |mark|] + (mark + tail);
  }

  // A rune after an aligned text.
  lemma OpenEscape(multi: bool, w: string, r: char)
    requires Aligned(multi, w)
    ensures if r == '\\' then InEscape(multi, w + [r], "\\") else Aligned(multi, w + [r])
  {
    if r != '\\' {
      AlignedAppend(multi, w, [r]);
    } else {
      assert (w + [r])[..|w|] == w;
    }
  }

  lemma SimpleAligned(multi: bool, r: char)
    requires SimpleEscape(r).Ok? || (multi && IsNL(r))
    ensures Aligned(multi, "\\" + [r])
  {
    var s := "\\" + [r];
    assert s[PieceLength(s)..] == [];
  }

  // A rune after a backslash.
  lemma NextEscape(multi: bool, w: string, r: char)
    requires InEscape(multi, w, "\\")
    ensures r == 'u' ==> InEscape(multi, w + [r], "\\u")
    ensures r == 'U' ==> InEscape(multi, w + [r], "\\U")
    ensures SimpleEscape(r).Ok? || (multi && IsNL(r)) ==> Aligned(multi, w + [r])
  {
    if r == 'u' || r == 'U' {
      assert (w + [r])[..|w| - 1] == w[..|w| - 1];
      assert w == w[..|w| - 1] + w[|w| - 1..];
    } else if SimpleEscape(r).Ok? || (multi && IsNL(r)) {
      SimpleAligned(multi, r);
      CloseEscape(multi, w, "\\", [r]);
    }
  }

  // All the digits after a u or U.
  lemma HexEscape(multi: bool, w: string, u: char, digits: string)
    requires InEscape(multi, w, ['\\', u])
    requires AllHex(digits) && ((u == 'u' && |digits| == 4) || (u == 'U' && |digits| == 8))
    ensures Aligned(multi, w + digits)
  {
    HexAligned(multi, u, digits);
    CloseEscape(multi, w, ['\\', u], digits);
  }

  lemma HexAligned(multi: bool, u: char, digits: string)
    requires AllHex(digits) && ((u == 'u' && |digits| == 4) || (u == 'U' && |digits| == 8))
    ensures Aligned(multi, ['\\', u] + digits)
  {
    var s := ['\\', u] + digits;
    assert s[2..] == digits && s[PieceLength(s)..] == [];
    assert WellEscaped(s) && MultiEscaped(s);
  }

  // The pending text after a call that reads on up to q.
  lemma ReadsOn(input: string, c: Config, q: nat)
    requires InBounds(input, c) && c.pos <= q <= |input|
    ensures input[c.start..q] == Pending(input, c) + input[c.pos..q]
  {
  }

  lemma ReadsOne(input: string, c: Config)
    requires InBounds(input, c) && c.pos < |input|
    ensures input[c.start..c.pos + 1] == Pending(input, c) + [input[c.pos]]
  {
  }

  // The calls inside a basic string continue it or leave it.
  lemma CallString(multi: bool, input: string, c: Config)
    requires InBounds(input, c) && c.state == Inside(multi) && TakesString(PlaceOf(c.stack))
    requires Aligned(multi, Pending(input, c))
    ensures EscapesOk(multi, input, if multi then StepMultilineString(input, c) else StepString(input, c))
  {
    hide Aligned, InEscape, PlaceOf;
    PopPlace(c.stack);
    if c.pos < |input| {
      ReadsOne(input, c);
      OpenEscape(multi, Pending(input, c), input[c.pos]);
    }
  }

  lemma CallStringEscape(multi: bool, input: string, c: Config)
    requires InBounds(input, c) && PlaceOf(c.stack) == InString && c.stack.Frame? && c.stack.top == Inside(multi)
    requires c.state == LexStringEscape || c.state == LexMultilineStringEscape
    requires InEscape(multi, Pending(input, c), "\\")
    ensures EscapesOk(multi, input, StepStringEscape(input, c))
  {
    hide Aligned, InEscape, PlaceOf;
    PopPlace(c.stack);
    if c.pos < |input| {
      ReadsOne(input, c);
      NextEscape(multi, Pending(input, c), input[c.pos]);
    }
  }

  lemma CallMultilineStringEscape(input: string, c: Config)
    requires InBounds(input, c) && c.state == LexMultilineStringEscape && TakesString(PlaceOf(c.stack))
    requires InEscape(true, Pending(input, c), "\\")
    ensures EscapesOk(true, input, StepMultilineStringEscape(input, c))
  {
    hide Aligned, InEscape, StepStringEscape;
    if !IsNL(Peek(input, c.pos)) {
      CallStringEscape(true, input, LexSpec.Push(c, LexMultilineString));
    } else {
      ReadsOne(input, c);
      NextEscape(true, Pending(input, c), input[c.pos]);
    }
  }

  lemma CallUnicodeEscape(multi: bool, input: string, c: Config, u: char, n: nat, e: LexError)
    requires InBounds(input, c) && PlaceOf(c.stack) == InString && c.stack.Frame? && c.stack.top == Inside(multi)
    requires (c.state == LexShortUnicodeEscape && u == 'u' && n == 4)
             || (c.state == LexLongUnicodeEscape && u == 'U' && n == 8)
    requires InEscape(multi, Pending(input, c), ['\\', u])
    ensures EscapesOk(multi, input, StepUnicodeEscape(input, c, n, e))
  {
    hide Aligned, InEscape, PlaceOf, HexDigits, AllHex;
    if HexDigits(input, c.pos, n) == n {
      PopPlace(c.stack);
      ReadsOn(input, c, c.pos + n);
      DigitsRead(input, c.pos, n);
      HexEscape(multi, Pending(input, c), u, input[c.pos..c.pos + n]);
    }
  }

  lemma DigitsRead(input: string, p: nat, n: nat)
    requires p <= |input| && HexDigits(input, p, n) == n
    ensures p + n <= |input| && AllHex(input[p..p + n])
  {
  }

  lemma CallBasic(multi: bool, input: string, c: Config)
    requires Inv(input, c) && InBasic(multi, c)
    requires Escaped(multi, c.state, Pending(input, c))
    ensures EscapesOk(multi, input, Step(input, c))
  {
    hide EscapesOk, Aligned, InEscape;
    match c.state
    case LexString => CallString(false, input, c);
    case LexMultilineString => CallString(true, input, c);
    case LexMultilineStringEscape => CallMultilineStringEscape(input, c);
    case LexStringEscape => CallStringEscape(multi, input, c);
    case LexShortUnicodeEscape => CallUnicodeEscape(multi, input, c, 'u', 4, BadShortEscape);
    case LexLongUnicodeEscape => CallUnicodeEscape(multi, input, c, 'U', 8, BadLongEscape);
  }

  lemma StepEscapes(multi: bool, input: string, c: Config)
    requires Inv(input, c) && c.state != LexDone && EscapesOk(multi, input, c)
    ensures var d := Step(input, c);
            GoodText(input, c, d) ==>
              && EscapesOk(multi, input, d)
              && (|d.out| > |c.out| && d.out[|c.out|].typ == BasicType(multi) ==> Aligned(multi, d.out[|c.out|].val))
  {
    hide Step, Shape, TextOk, TokenOk, Moves, Aligned, InEscape;
    if InBasic(multi, c) {
      CallBasic(multi, input, c);
    } else if InBasic(multi, Step(input, c)) {
      EmptyAligned(multi);
      assert |Pending(input, Step(input, c))| == 0 || !GoodText(input, c, Step(input, c));
    }
  }

  lemma EmptyAligned(multi: bool)
    ensures Aligned(multi, [])
  {
  }

  // ---- whole runs ----

  // What the parser may rely on: integers and booleans look like ones, and the escape
  // sequences of basic strings are complete, except that a backslash may stand before a line
  // break in a multi-line string.
  predicate WellFormed(t: Token) {
    && TokenOk(t)
    && (t.typ == ItemString ==> WellEscaped(t.val))
    && (t.typ == ItemMultilineString ==> MultiEscaped(t.val))
  }

  predicate Good(input: string, c: Config) {
    && Inv(input, c)
    && TextOk(c.state, Pending(input, c))
    && EscapesOk(false, input, c)
    && EscapesOk(true, input, c)
  }

  lemma StepWellFormed(input: string, c: Config)
    requires Good(input, c) && c.state != LexDone
    ensures Good(input, Step(input, c))
    ensures |Step(input, c).out| > |c.out| ==> WellFormed(Step(input, c).out[|c.out|])
  {
    StepAdvances(input, c);
    StepText(input, c);
    StepEscapes(false, input, c);
    StepEscapes(true, input, c);
    hide Step, TextOk, Escaped, MultiEscaped, WellEscaped;
  }

  lemma {:induction false} RunWellFormed(input: string, c: Config)
    requires Good(input, c)
    ensures forall t :: t in Run(input, c).out[|c.out|..] ==> WellFormed(t)
    decreases Measure(input, c)
  {
    if c.state != LexDone {
      StepAdvances(input, c);
      StepWellFormed(input, c);
      var d := Step(input, c);
      RunWellFormed(input, d);
      TailMembers(c.out, d.out, Run(input, d).out);
    }
  }

  lemma TailMembers(a: seq<Token>, b: seq<Token>, c: seq<Token>)
    requires a <= b <= c && |b| <= |a| + 1
    ensures forall t :: t in c[|a|..] ==> t in c[|b|..] || (|b| > |a| && t == b[|a|])
  {
    assert c[|a|..] == b[|a|..] + c[|b|..];
  }

  /** Every token of every input has the contents its type promises. */
  lemma TokensWellFormed(input: string)
    ensures forall t :: t in LexAll(input) ==> WellFormed(t)
  {
    RunWellFormed(input, INIT);
    assert LexAll(input)[0..] == LexAll(input);
  }

  // ---- conservation ----

  // The tokens are the slices of input given by spans, in order; between them, and between
  // the last one and end, there are only delimiters.
  predicate Located(input: string, end: nat, toks: seq<Token>, spans: seq<(nat, nat)>) {
    && |spans| == |toks|
    && Last(spans) <= end <= |input|
    && (forall i :: 0 <= i < |spans| ==> Last(spans[..i]) <= spans[i].0 <= spans[i].1 <= |input|)
    && (forall i :: 0 <= i < |spans| ==> toks[i].val == input[spans[i].0..spans[i].1])
    && (forall i :: 0 <= i < |spans| ==> Gap(input[Last(spans[..i])..spans[i].0]))
    && Gap(input[Last(spans)..end])
  }

  function Last(spans: seq<(nat, nat)>): nat {
    if spans == [] then 0 else spans[|spans| - 1].1
  }

  lemma GapAppend(input: string, a: nat, b: nat, c: nat)
    requires a <= b <= c <= |input| && Gap(input[a..b]) && Gap(input[b..c])
    ensures Gap(input[a..c])
  {
    assert input[a..c] == input[a..b] + input[b..c];
  }

  lemma LocateMore(input: string, end: nat, toks: seq<Token>, spans: seq<(nat, nat)>, t: Token, span: (nat, nat),
      end': nat)
    requires Located(input, end, toks, spans)
    requires end <= span.0 <= span.1 <= end' <= |input|
    requires t.val == input[span.0..span.1] && Gap(input[end..span.0]) && Gap(input[span.1..end'])
    ensures Located(input, end', toks + [t], spans + [span])
  {
    GapAppend(input, Last(spans), end, span.0);
    forall i | 0 <= i <= |spans|
      ensures Last((spans + [span])[..i]) == Last(spans[..i])
    {
      assert (spans + [span])[..i] == spans[..i];
    }
    assert spans[..|spans|] == spans;
  }

  lemma SlideLocated(input: string, end: nat, toks: seq<Token>, spans: seq<(nat, nat)>, end': nat)
    requires Located(input, end, toks, spans) && end <= end' <= |input| && Gap(input[end..end'])
    ensures Located(input, end', toks, spans)
  {
    GapAppend(input, Last(spans), end, end');
  }

  lemma MoveLocated(input: string, c: Config, d: Config, spans: seq<(nat, nat)>) returns (spans': seq<(nat, nat)>)
    requires InBounds(input, c) && InBounds(input, d) && Moves(input, c, d) && Emits(c, d)
    requires Located(input, c.start, c.out, spans)
    ensures Located(input, d.start, d.out, spans')
  {
    hide Located, Gap;
    if d.out == c.out {
      SlideLocated(input, c.start, c.out, spans, d.start);
      spans' := spans;
    } else {
      var t := d.out[|c.out|];
      var span := if t.val == [] then (d.start, d.start) else (c.start, c.start + |t.val|);
      GapEmpty(input, c.start);
      GapEmpty(input, d.start);
      LocateMore(input, c.start, c.out, spans, t, span, d.start);
      spans' := spans + [span];
    }
  }

  lemma GapEmpty(input: string, p: nat)
    requires p <= |input|
    ensures Gap(input[p..p])
  {
  }

  lemma {:induction false} RunLocated(input: string, c: Config, spans: seq<(nat, nat)>)
      returns (spans': seq<(nat, nat)>)
    requires Inv(input, c) && TextOk(c.state, Pending(input, c))
    requires Located(input, c.start, c.out, spans)
    ensures Located(input, Run(input, c).start, Run(input, c).out, spans')
    decreases Measure(input, c)
  {
    if c.state == LexDone {
      spans' := spans;
    } else {
      StepAdvances(input, c);
      StepText(input, c);
      spans' := MoveLocated(input, c, Step(input, c), spans);
      spans' := RunLocated(input, Step(input, c), spans');
    }
  }

  // Without NUL characters, an EOF token means the end of the input.
  lemma {:induction false} EOFAtEnd(input: string, c: Config)
    requires Inv(input, c) && c.state != LexDone && EOF !in input
    ensures var d := Run(input, c); d.out != [] && (d.out[|d.out| - 1].typ == ItemEOF ==> d.start == |input|)
    decreases Measure(input, c)
  {
    hide Shape, PlaceOf, Rank;
    StepAdvances(input, c);
    var d := Step(input, c);
    if d.state == LexDone {
      EOFStep(input, c);
    } else {
      EOFAtEnd(input, d);
    }
  }

  lemma EOFStep(input: string, c: Config)
    requires Inv(input, c) && c.state != LexDone && EOF !in input
    requires Step(input, c).out != c.out
    ensures var d := Step(input, c); |d.out| > 0 && d.out[|d.out| - 1].typ == ItemEOF ==> d.start == |input|
  {
    hide Shape, PlaceOf, SkipBlanks, SkipLetters, HexDigits, Measure;
    if c.state != LexTop && c.state != LexTopEnd {
      NoEOF(input, c);
    }
  }

  lemma NoEOF(input: string, c: Config)
    requires InBounds(input, c) && c.state != LexTop && c.state != LexTopEnd && c.state != LexDone
    requires Step(input, c).out != c.out
    ensures var d := Step(input, c); |d.out| > 0 && d.out[|d.out| - 1].typ != ItemEOF
  {
    hide SkipBlanks, SkipLetters, HexDigits, Pending;
    if IsStringState(c.state) || c.state.LexRawString? || c.state.LexMultilineRawString? || c.state.LexBool? {
      NoEOFInside(input, c);
    } else if c.state.LexSkip? || c.state.LexComment? || c.state.LexCommentStart? || c.state.LexArrayEnd?
              || c.state.LexInlineTableEnd? || c.state.LexValue? || c.state.LexArrayValue? {
      NoEOFBetween(input, c);
    }
  }

  lemma NoEOFInside(input: string, c: Config)
    requires InBounds(input, c)
    requires IsStringState(c.state) || c.state.LexRawString? || c.state.LexMultilineRawString? || c.state.LexBool?
    requires Step(input, c).out != c.out
    ensures var d := Step(input, c); |d.out| > 0 && d.out[|d.out| - 1].typ != ItemEOF
  {
    hide Pending, StepStringEscape, StepUnicodeEscape, StepString, StepMultilineString, StepRawString,
      StepMultilineRawString, StepBool;
    if c.state.LexStringEscape? || c.state.LexMultilineStringEscape? {
      NoEOFEscape(input, c);
      NoEOFEscape(input, LexSpec.Push(c, LexMultilineString));
    } else if c.state.LexShortUnicodeEscape? {
      NoEOFDigits(input, c, 4, BadShortEscape);
    } else if c.state.LexLongUnicodeEscape? {
      NoEOFDigits(input, c, 8, BadLongEscape);
    } else {
      NoEOFText(input, c);
    }
  }

  predicate EmitsNoEOF(c: Config, d: Config) {
    d.out == c.out || (|d.out| > 0 && d.out[|d.out| - 1].typ != ItemEOF)
  }

  lemma NoEOFText(input: string, c: Config)
    requires InBounds(input, c)
    ensures EmitsNoEOF(c, StepString(input, c)) && EmitsNoEOF(c, StepMultilineString(input, c))
    ensures EmitsNoEOF(c, StepRawString(input, c)) && EmitsNoEOF(c, StepMultilineRawString(input, c))
    ensures EmitsNoEOF(c, StepBool(input, c))
  {
    hide Pending;
  }

  lemma NoEOFEscape(input: string, c: Config)
    requires InBounds(input, c)
    ensures var d := StepStringEscape(input, c); |d.out| > |c.out| ==> d.out[|d.out| - 1].typ != ItemEOF
    ensures StepStringEscape(input, c).out == c.out || |StepStringEscape(input, c).out| > |c.out|
  {
  }

  lemma NoEOFDigits(input: string, c: Config, n: nat, e: LexError)
    requires InBounds(input, c)
    ensures var d := StepUnicodeEscape(input, c, n, e); |d.out| > |c.out| ==> d.out[|d.out| - 1].typ != ItemEOF
    ensures var d := StepUnicodeEscape(input, c, n, e); d.out == c.out || |d.out| > |c.out|
  {
  }

  lemma NoEOFBetween(input: string, c: Config)
    requires InBounds(input, c)
    requires c.state.LexSkip? || c.state.LexComment? || c.state.LexCommentStart? || c.state.LexArrayEnd?
             || c.state.LexInlineTableEnd? || c.state.LexValue? || c.state.LexArrayValue?
    requires Step(input, c).out != c.out
    ensures var d := Step(input, c); |d.out| > 0 && d.out[|d.out| - 1].typ != ItemEOF
  {
    hide Pending;
  }

  /** Conservation of input: when a NUL-free input is lexed to its end, the token texts are
      disjoint slices of it, in order, and nothing but blanks, newlines and delimiters is lost. */
  lemma Conservation(input: string) returns (spans: seq<(nat, nat)>)
    requires EOF !in input
    requires exists t :: t in LexAll(input) && t.typ == ItemEOF
    ensures Located(input, |input|, LexAll(input), spans)
  {
    EOFAtEnd(input, INIT);
    StackDiscipline(input);
    spans := RunLocated(input, INIT, []);
  }
}
