/** What the lexer does with the text it reads.

`TextOk` describes the pending text in each state.  From it follow the contents of tokens
(the parser relies on them) and the conservation of input: what is dropped between tokens is
only blanks, newlines and delimiters. */
module LexText {
  import opened Runes
  import opened Tokens
  import opened LexSpec
  import opened LexRun

  // The state inside a basic string, multi-line or not, between escape sequences.
  function Inside(multi: bool): State {
    if multi then LexMultilineString else LexString
  }

  // Inside a basic string, possibly in an escape sequence of it.
  predicate InBasic(multi: bool, c: Config) {
    || c.state == Inside(multi)
    || (multi && c.state == LexMultilineStringEscape)
    || (&& (c.state == LexStringEscape || c.state == LexShortUnicodeEscape || c.state == LexLongUnicodeEscape)
        && c.stack.Frame? && c.stack.top == Inside(multi))
  }

  // A call enters a basic string with no pending text; between escape sequences it may end it,
  // and then the pending text is the token.
  predicate EntersAndEnds(multi: bool, input: string, c: Config, d: Config)
    requires InBounds(input, c) && |c.out| <= |d.out|
  {
    && (InBasic(multi, d) && !InBasic(multi, c) ==> d.state == Inside(multi) && d.start == d.pos)
    && (|d.out| > |c.out| && d.out[|c.out|].typ == BasicType(multi) ==>
          c.state == Inside(multi) && d.out[|c.out|].val == Pending(input, c))
  }

  predicate IsStringState(s: State) {
    s.LexString? || s.LexMultilineString? || s.LexMultilineStringEscape? || s.LexStringEscape?
    || s.LexShortUnicodeEscape? || s.LexLongUnicodeEscape?
  }

  // A call outside basic strings.
  lemma Outside(input: string, c: Config, d: Config)
    requires InBounds(input, c) && |c.out| <= |d.out| <= |c.out| + 1
    requires !IsStringState(d.state)
    requires |d.out| > |c.out| ==> !d.out[|c.out|].typ.ItemString? && !d.out[|c.out|].typ.ItemMultilineString?
    ensures EntersAndEnds(false, input, c, d) && EntersAndEnds(true, input, c, d)
  {
  }

  function BasicType(multi: bool): TokenType {
    if multi then ItemMultilineString else ItemString
  }

  // The runes that the lexer may drop.
  predicate IsDelimiter(r: char) {
    || IsWhitespace(r) || IsNL(r)
    || r == '=' || r == ',' || r == '.' || r == '#' || r == '[' || r == ']' || r == '{' || r == '}'
    || r == '"' || r == '\''
  }

  predicate Gap(s: string) {
    forall i :: 0 <= i < |s| ==> IsDelimiter(s[i])
  }

  predicate AllBlank(s: string) {
    forall i :: 0 <= i < |s| ==> IsWhitespace(s[i])
  }

  function Unsigned(s: string): string {
    if s != [] && (s[0] == '+' || s[0] == '-') then s[1..] else s
  }

  // An optional sign, a digit, then digits and underscores.
  predicate IntegerText(s: string) {
    var u := Unsigned(s);
    && u != []
    && IsDigit(u[0])
    && forall i :: 0 <= i < |u| ==> IsDigit(u[i]) || u[i] == '_'
  }

  predicate TextOk(s: State, w: string) {
    if s.LexTop? || s.LexTableNameStart? || s.LexTableNameEnd? || s.LexKeyStart? || s.LexKeyEnd? || s.LexValue?
       || s.LexArrayValue? || s.LexArrayValueEnd? || s.LexInlineTableValue? || s.LexInlineTableValueEnd?
       || s.LexNumberOrDateStart? || s.LexBool? then w == []
    else if s.LexTopEnd? then AllBlank(w)
    else if s.LexTableStart? then w == "["
    else if s.LexTableEnd? || s.LexArrayTableEnd? || s.LexArrayEnd? then w == "]"
    else if s.LexInlineTableEnd? then w == "}"
    else if s.LexCommentStart? then Gap(w)
    else if s.LexSkip? then |w| == 1 && IsDelimiter(w[0])
    else if s.LexNumberStart? then w == "+" || w == "-"
    else if s.LexNumberOrDate? || s.LexNumber? then IntegerText(w)
    else true
  }

  // What the lexer promises about the text of a token.
  predicate TokenOk(t: Token) {
    match t.typ
    case ItemInteger => IntegerText(t.val)
    case ItemBool => t.val == "true" || t.val == "false"
    case ItemError(_) => t.val == []
    case _ => true
  }

  // One call emits the head of the pending text, or nothing, and drops delimiters only.
  predicate Moves(input: string, c: Config, d: Config)
    requires InBounds(input, c) && InBounds(input, d)
  {
    && c.start <= d.start
    && |c.out| <= |d.out|
    && if |d.out| == |c.out| || d.out[|c.out|].val == [] then Gap(input[c.start..d.start])
       else var m := c.start + |d.out[|c.out|].val|;
            && m <= d.start
            && d.out[|c.out|].val == input[c.start..m]
            && Gap(input[m..d.start])
  }

  predicate GoodText(input: string, c: Config, d: Config)
    requires InBounds(input, c) && InBounds(input, d)
  {
    && TextOk(d.state, Pending(input, d))
    && Moves(input, c, d)
    && (|d.out| > |c.out| ==> TokenOk(d.out[|c.out|]))
    && EntersAndEnds(false, input, c, d)
    && EntersAndEnds(true, input, c, d)
  }

  // n quotes at p.
  predicate Quotes(input: string, p: nat, quote: char, n: nat) {
    p + n <= |input| && forall i :: p <= i < p + n ==> input[i] == quote
  }

  // The end of a string: the pending text is emitted and the quotes are dropped.
  lemma Closes(input: string, c: Config, typ: TokenType, n: nat)
    requires InBounds(input, c) && TakesString(PlaceOf(c.stack))
    requires Quotes(input, c.pos, '"', n) || Quotes(input, c.pos, '\'', n)
    requires typ in {ItemString, ItemRawString, ItemMultilineString, ItemRawMultilineString}
    requires typ == ItemString ==> c.state == LexString
    requires typ == ItemMultilineString ==> c.state == LexMultilineString
    ensures GoodText(input, c, Pop(Emit(input, c, typ).(start := c.pos + n, pos := c.pos + n)))
  {
    hide PlaceOf, IsDelimiter, EntersAndEnds;
    ClosesGap(input, c.pos, n);
    ClosesEnds(input, c, typ, n);
    PopPlace(c.stack);
  }

  lemma ClosesGap(input: string, p: nat, n: nat)
    requires Quotes(input, p, '"', n) || Quotes(input, p, '\'', n)
    ensures Gap(input[p..p + n])
  {
    assert forall i :: p <= i < p + n ==> IsDelimiter(input[i]);
  }

  lemma ClosesEnds(input: string, c: Config, typ: TokenType, n: nat)
    requires InBounds(input, c) && TakesString(PlaceOf(c.stack)) && c.pos + n <= |input|
    requires typ in {ItemString, ItemRawString, ItemMultilineString, ItemRawMultilineString}
    requires typ == ItemString ==> c.state == LexString
    requires typ == ItemMultilineString ==> c.state == LexMultilineString
    ensures var d := Pop(Emit(input, c, typ).(start := c.pos + n, pos := c.pos + n));
            EntersAndEnds(false, input, c, d) && EntersAndEnds(true, input, c, d)
  {
    PopPlace(c.stack);
  }

  // The start of a string: the quotes are dropped.
  lemma Opens(input: string, c: Config, n: nat, s: State)
    requires InBounds(input, c) && c.start == c.pos
    requires Quotes(input, c.pos, '"', n) || Quotes(input, c.pos, '\'', n)
    requires s in {LexString, LexMultilineString, LexRawString, LexMultilineRawString}
    ensures GoodText(input, c, Goto(c.(start := c.pos + n, pos := c.pos + n), s))
  {
    assert forall i :: c.pos <= i < c.pos + n ==> IsDelimiter(input[i]);
  }

  // A call that fails, and a call that reads one more rune of a string.
  lemma Fails(input: string, c: Config, e: LexError)
    requires InBounds(input, c)
    ensures GoodText(input, c, Fail(Next(input, c), e))
  {
  }

  lemma Stays(input: string, c: Config, s: State)
    requires InBounds(input, c)
    requires
      || s == LexRawString || s == LexMultilineRawString
      || (s == LexString && c.state == s)
      || ((s == LexMultilineString || s == LexMultilineStringEscape) && c.state == LexMultilineString)
    ensures GoodText(input, c, Goto(Next(input, c), s))
  {
  }

  lemma StartsEscape(input: string, c: Config)
    requires InBounds(input, c) && c.state == LexString
    ensures GoodText(input, c, Goto(Push(Next(input, c), LexString), LexStringEscape))
  {
  }

  lemma IntegerGrows(w: string, r: char)
    requires IntegerText(w)
    ensures IsDigit(r) || r == '_' ==> IntegerText(w + [r])
  {
    assert Unsigned(w + [r]) == Unsigned(w) + [r];
  }

  lemma TextTop(input: string, c: Config)
    requires InBounds(input, c) && c.state == LexTop && TextOk(c.state, Pending(input, c))
    ensures GoodText(input, c, StepTop(input, c))
  {
  }

  lemma TextTopEnd(input: string, c: Config)
    requires InBounds(input, c) && c.state == LexTopEnd && TextOk(c.state, Pending(input, c))
    ensures GoodText(input, c, StepTopEnd(input, c))
  {
    hide EntersAndEnds;
    Outside(input, c, StepTopEnd(input, c));
    if c.pos < |input| {
      assert input[c.start..c.pos + 1] == Pending(input, c) + [input[c.pos]];
    }
  }

  lemma TextTableStart(input: string, c: Config)
    requires InBounds(input, c) && c.state == LexTableStart && TextOk(c.state, Pending(input, c))
    ensures GoodText(input, c, StepTableStart(input, c))
  {
    if c.pos < |input| {
      assert input[c.start..c.pos + 1] == Pending(input, c) + [input[c.pos]];
    }
  }

  lemma TextTableEnd(input: string, c: Config)
    requires InBounds(input, c) && c.state == LexTableEnd && TextOk(c.state, Pending(input, c))
    ensures GoodText(input, c, StepTableEnd(input, c))
  {
  }

  lemma TextArrayTableEnd(input: string, c: Config)
    requires InBounds(input, c) && c.state == LexArrayTableEnd && TextOk(c.state, Pending(input, c))
    ensures GoodText(input, c, StepArrayTableEnd(input, c))
  {
    if c.pos < |input| {
      assert input[c.start..c.pos + 1] == Pending(input, c) + [input[c.pos]];
    }
  }

  lemma TextTableNameStart(input: string, c: Config)
    requires InBounds(input, c) && c.state == LexTableNameStart && TextOk(c.state, Pending(input, c))
    ensures GoodText(input, c, StepTableNameStart(input, c))
  {
    if c.pos < |input| {
      assert input[c.start..c.pos + 1] == Pending(input, c) + [input[c.pos]];
    }
  }

  lemma TextBareTableName(input: string, c: Config)
    requires InBounds(input, c) && c.state == LexBareTableName && TextOk(c.state, Pending(input, c))
    ensures GoodText(input, c, StepBareTableName(input, c))
  {
  }

  lemma BlanksGap(input: string, p: nat)
    requires p <= |input|
    ensures var q := SkipBlanks(input, p);
            Gap(input[p..q]) && (q < |input| && IsDelimiter(input[q]) ==> Gap(input[p..q + 1]))
  {
  }

  // Dropping the blanks before q, and the rune there too if further says so, in the state s.
  lemma Drops(input: string, c: Config, d: Config, q: nat)
    requires InBounds(input, c) && c.start == c.pos && q == SkipBlanks(input, c.pos) && InBounds(input, d)
    requires d.out == c.out
    requires d.start == q || (d.start == q + 1 && q < |input| && IsDelimiter(input[q]))
    ensures Moves(input, c, d)
  {
    hide SkipBlanks;
    BlanksGap(input, c.pos);
  }

  lemma FailMoves(input: string, c: Config, d: Config, q: nat)
    requires InBounds(input, c) && c.start == c.pos && q == SkipBlanks(input, c.pos) && InBounds(input, d)
    requires d.start == q && d.out == c.out + [Token(ItemError(NoTableNameEnd), [])]
    ensures Moves(input, c, d)
  {
    hide SkipBlanks;
    BlanksGap(input, c.pos);
  }

  // Behind a piece of a header: the next piece, the end of the header, or an error.
  lemma NextPiece(input: string, c: Config, q: nat)
    requires InBounds(input, c) && c.start == c.pos && q == SkipBlanks(input, c.pos) && Peek(input, q) == '.'
    ensures GoodText(input, c, Goto(Ignore(Next(input, c.(start := q, pos := q))), LexTableNameStart))
  {
    hide EntersAndEnds, Gap, SkipBlanks, Moves;
    var d := Goto(Ignore(Next(input, c.(start := q, pos := q))), LexTableNameStart);
    Outside(input, c, d);
    Drops(input, c, d, q);
  }

  lemma HeaderEnds(input: string, c: Config, q: nat)
    requires InBounds(input, c) && c.start == c.pos && q == SkipBlanks(input, c.pos) && Peek(input, q) == ']'
    requires PlaceOf(c.stack) == InHeader
    ensures GoodText(input, c, Pop(Next(input, c.(start := q, pos := q))))
  {
    hide EntersAndEnds, Gap, SkipBlanks, Moves, PlaceOf;
    var d := Pop(Next(input, c.(start := q, pos := q)));
    PopPlace(c.stack);
    Outside(input, c, d);
    Drops(input, c, d, q);
    assert input[q..q + 1] == "]";
  }

  lemma HeaderFails(input: string, c: Config, q: nat)
    requires InBounds(input, c) && c.start == c.pos && q == SkipBlanks(input, c.pos)
    ensures GoodText(input, c, Fail(Next(input, c.(start := q, pos := q)), NoTableNameEnd))
  {
    hide EntersAndEnds, Gap, SkipBlanks, Moves;
    var d := Fail(Next(input, c.(start := q, pos := q)), NoTableNameEnd);
    Outside(input, c, d);
    FailMoves(input, c, d, q);
  }

  lemma TextTableNameEnd(input: string, c: Config)
    requires InBounds(input, c) && c.state == LexTableNameEnd && TextOk(c.state, Pending(input, c))
    requires PlaceOf(c.stack) == InHeader
    ensures GoodText(input, c, StepTableNameEnd(input, c))
  {
    hide GoodText, SkipBlanks, PlaceOf;
    var q := SkipBlanks(input, c.pos);
    assert c.start == c.pos by {
      assert |Pending(input, c)| == 0;
    }
    if Peek(input, q) == '.' {
      NextPiece(input, c, q);
    } else if Peek(input, q) == ']' {
      HeaderEnds(input, c, q);
    } else {
      HeaderFails(input, c, q);
    }
  }

  lemma TextKeyStart(input: string, c: Config)
    requires InBounds(input, c) && c.state == LexKeyStart && TextOk(c.state, Pending(input, c))
    ensures GoodText(input, c, StepKeyStart(input, c))
  {
    hide EntersAndEnds;
    Outside(input, c, StepKeyStart(input, c));
  }

  lemma TextBareKey(input: string, c: Config)
    requires InBounds(input, c) && c.state == LexBareKey && TextOk(c.state, Pending(input, c))
    ensures GoodText(input, c, StepBareKey(input, c))
  {
  }

  lemma TextKeyEnd(input: string, c: Config)
    requires InBounds(input, c) && c.state == LexKeyEnd && TextOk(c.state, Pending(input, c))
    ensures GoodText(input, c, StepKeyEnd(input, c))
  {
  }

  lemma TextValue(input: string, c: Config)
    requires InBounds(input, c) && c.state == LexValue && TextOk(c.state, Pending(input, c))
    requires !IsQuote(Peek(input, c.pos))
    ensures GoodText(input, c, StepValue(input, c))
  {
    hide EntersAndEnds, IntegerText;
    Outside(input, c, StepValue(input, c));
  }

  lemma TextArrayValue(input: string, c: Config)
    requires InBounds(input, c) && c.state == LexArrayValue && TextOk(c.state, Pending(input, c))
    ensures GoodText(input, c, StepArrayValue(input, c))
  {
  }

  lemma TextArrayValueEnd(input: string, c: Config)
    requires InBounds(input, c) && c.state == LexArrayValueEnd && TextOk(c.state, Pending(input, c))
    ensures GoodText(input, c, StepArrayValueEnd(input, c))
  {
    hide EntersAndEnds;
    Outside(input, c, StepArrayValueEnd(input, c));
    if c.pos < |input| {
      assert input[c.start..c.pos + 1] == Pending(input, c) + [input[c.pos]];
    }
  }

  lemma TextArrayEnd(input: string, c: Config)
    requires InBounds(input, c) && c.state == LexArrayEnd && TextOk(c.state, Pending(input, c))
    requires TakesValue(PlaceOf(c.stack))
    ensures GoodText(input, c, StepArrayEnd(input, c))
  {
    PopPlace(c.stack);
  }

  lemma TextInlineTableValue(input: string, c: Config)
    requires InBounds(input, c) && c.state == LexInlineTableValue && TextOk(c.state, Pending(input, c))
    ensures GoodText(input, c, StepInlineTableValue(input, c))
  {
  }

  lemma TextInlineTableValueEnd(input: string, c: Config)
    requires InBounds(input, c) && c.state == LexInlineTableValueEnd && TextOk(c.state, Pending(input, c))
    ensures GoodText(input, c, StepInlineTableValueEnd(input, c))
  {
    hide EntersAndEnds;
    Outside(input, c, StepInlineTableValueEnd(input, c));
    if c.pos < |input| {
      assert input[c.start..c.pos + 1] == Pending(input, c) + [input[c.pos]];
    }
  }

  lemma TextInlineTableEnd(input: string, c: Config)
    requires InBounds(input, c) && c.state == LexInlineTableEnd && TextOk(c.state, Pending(input, c))
    requires TakesValue(PlaceOf(c.stack))
    ensures GoodText(input, c, StepInlineTableEnd(input, c))
  {
    PopPlace(c.stack);
  }

  lemma TextString(input: string, c: Config)
    requires InBounds(input, c) && c.state == LexString && TextOk(c.state, Pending(input, c))
    requires TakesString(PlaceOf(c.stack))
    ensures GoodText(input, c, StepString(input, c))
  {
    hide GoodText;
    if Peek(input, c.pos) == '"' {
      assert Quotes(input, c.pos, '"', 1);
      Closes(input, c, ItemString, 1);
    } else if Peek(input, c.pos) == EOF {
      Fails(input, c, UnexpectedEOF);
    } else if IsNL(Peek(input, c.pos)) {
      Fails(input, c, NewlineInString);
    } else if Peek(input, c.pos) == '\\' {
      StartsEscape(input, c);
    } else {
      Stays(input, c, LexString);
    }
  }

  lemma TextMultilineString(input: string, c: Config)
    requires InBounds(input, c) && c.state == LexMultilineString && TextOk(c.state, Pending(input, c))
    requires TakesString(PlaceOf(c.stack))
    ensures GoodText(input, c, StepMultilineString(input, c))
  {
    hide GoodText;
    if Peek(input, c.pos) == '"' && Peek(input, c.pos + 1) == '"' && Peek(input, c.pos + 2) == '"' {
      assert Quotes(input, c.pos, '"', 3);
      Closes(input, c, ItemMultilineString, 3);
    } else if Peek(input, c.pos) == EOF {
      Fails(input, c, UnexpectedEOF);
    } else if Peek(input, c.pos) == '\\' {
      Stays(input, c, LexMultilineStringEscape);
    } else {
      Stays(input, c, LexMultilineString);
    }
  }

  lemma TextRawString(input: string, c: Config)
    requires InBounds(input, c) && c.state == LexRawString && TextOk(c.state, Pending(input, c))
    requires TakesString(PlaceOf(c.stack))
    ensures GoodText(input, c, StepRawString(input, c))
  {
    hide GoodText;
    if Peek(input, c.pos) == '\'' {
      assert Quotes(input, c.pos, '\'', 1);
      Closes(input, c, ItemRawString, 1);
    } else if Peek(input, c.pos) == EOF {
      Fails(input, c, UnexpectedEOF);
    } else if IsNL(Peek(input, c.pos)) {
      Fails(input, c, NewlineInString);
    } else {
      Stays(input, c, LexRawString);
    }
  }

  lemma TextMultilineRawString(input: string, c: Config)
    requires InBounds(input, c) && c.state == LexMultilineRawString && TextOk(c.state, Pending(input, c))
    requires TakesString(PlaceOf(c.stack))
    ensures GoodText(input, c, StepMultilineRawString(input, c))
  {
    hide GoodText;
    if Peek(input, c.pos) == '\'' && Peek(input, c.pos + 1) == '\'' && Peek(input, c.pos + 2) == '\'' {
      assert Quotes(input, c.pos, '\'', 3);
      Closes(input, c, ItemRawMultilineString, 3);
    } else if Peek(input, c.pos) == EOF {
      Fails(input, c, UnexpectedEOF);
    } else {
      Stays(input, c, LexMultilineRawString);
    }
  }

  lemma TextMultilineStringEscape(input: string, c: Config)
    requires InBounds(input, c) && c.state == LexMultilineStringEscape && TextOk(c.state, Pending(input, c))
    ensures GoodText(input, c, StepMultilineStringEscape(input, c))
  {
  }

  lemma TextStringEscape(input: string, c: Config)
    requires InBounds(input, c) && c.state == LexStringEscape && TextOk(c.state, Pending(input, c))
    requires PlaceOf(c.stack) == InString
    ensures GoodText(input, c, StepStringEscape(input, c))
  {
    PopPlace(c.stack);
  }

  lemma TextShortUnicodeEscape(input: string, c: Config)
    requires InBounds(input, c) && c.state == LexShortUnicodeEscape && TextOk(c.state, Pending(input, c))
    requires PlaceOf(c.stack) == InString
    ensures GoodText(input, c, StepUnicodeEscape(input, c, 4, BadShortEscape))
  {
    PopPlace(c.stack);
  }

  lemma TextLongUnicodeEscape(input: string, c: Config)
    requires InBounds(input, c) && c.state == LexLongUnicodeEscape && TextOk(c.state, Pending(input, c))
    requires PlaceOf(c.stack) == InString
    ensures GoodText(input, c, StepUnicodeEscape(input, c, 8, BadLongEscape))
  {
    PopPlace(c.stack);
  }

  lemma TextNumberOrDateStart(input: string, c: Config)
    requires InBounds(input, c) && c.state == LexNumberOrDateStart && TextOk(c.state, Pending(input, c))
    requires IsDigit(Peek(input, c.pos))
    ensures GoodText(input, c, StepNumberOrDateStart(input, c))
  {
    if c.pos < |input| {
      assert input[c.start..c.pos + 1] == Pending(input, c) + [input[c.pos]];
    }
  }

  lemma TextNumberOrDate(input: string, c: Config)
    requires InBounds(input, c) && c.state == LexNumberOrDate && TextOk(c.state, Pending(input, c))
    requires TakesValue(PlaceOf(c.stack))
    ensures GoodText(input, c, StepNumberOrDate(input, c))
  {
    hide EntersAndEnds, GoodText, TokenOk, Moves;
    var r := Peek(input, c.pos);
    if IsDigit(r) || r == '_' {
      NumberGrows(input, c, if IsDigit(r) then LexNumberOrDate else LexNumber);
    } else if r == '-' {
      RuneRead(input, c, LexDatetime);
    } else if r == '.' || r == 'e' || r == 'E' {
      RuneRead(input, c, LexFloat);
    } else {
      IntegerEnds(input, c);
    }
  }

  // A number, a date or a float is read on, or an integer ends.
  lemma NumberGrows(input: string, c: Config, s: State)
    requires InBounds(input, c) && IntegerText(Pending(input, c)) && (s == LexNumberOrDate || s == LexNumber)
    requires IsDigit(Peek(input, c.pos)) || Peek(input, c.pos) == '_'
    ensures GoodText(input, c, Goto(Next(input, c), s))
  {
    hide EntersAndEnds, TokenOk;
    var r := Peek(input, c.pos);
    assert input[c.start..c.pos + 1] == Pending(input, c) + [r];
    IntegerGrows(Pending(input, c), r);
    Outside(input, c, Goto(Next(input, c), s));
  }

  lemma RuneRead(input: string, c: Config, s: State)
    requires InBounds(input, c) && (s == LexDatetime || s == LexFloat)
    ensures GoodText(input, c, Goto(Next(input, c), s))
  {
    hide EntersAndEnds, TokenOk;
    Outside(input, c, Goto(Next(input, c), s));
  }

  lemma IntegerEnds(input: string, c: Config)
    requires InBounds(input, c) && IntegerText(Pending(input, c)) && TakesValue(PlaceOf(c.stack))
    ensures GoodText(input, c, Pop(Emit(input, c, ItemInteger)))
  {
    hide EntersAndEnds, IntegerText;
    PopPlace(c.stack);
    Outside(input, c, Pop(Emit(input, c, ItemInteger)));
  }

  lemma TextDatetime(input: string, c: Config)
    requires InBounds(input, c) && c.state == LexDatetime && TextOk(c.state, Pending(input, c))
    requires TakesValue(PlaceOf(c.stack))
    ensures GoodText(input, c, StepDatetime(input, c))
  {
    hide EntersAndEnds;
    PopPlace(c.stack);
    Outside(input, c, StepDatetime(input, c));
  }

  lemma TextNumberStart(input: string, c: Config)
    requires InBounds(input, c) && c.state == LexNumberStart && TextOk(c.state, Pending(input, c))
    ensures GoodText(input, c, StepNumberStart(input, c))
  {
    if c.pos < |input| {
      assert input[c.start..c.pos + 1] == Pending(input, c) + [input[c.pos]];
    }
  }

  lemma TextNumber(input: string, c: Config)
    requires InBounds(input, c) && c.state == LexNumber && TextOk(c.state, Pending(input, c))
    requires TakesValue(PlaceOf(c.stack))
    ensures GoodText(input, c, StepNumber(input, c))
  {
    hide EntersAndEnds, GoodText, TokenOk, Moves;
    var r := Peek(input, c.pos);
    if IsDigit(r) || r == '_' {
      NumberGrows(input, c, LexNumber);
    } else if r == '.' || r == 'e' || r == 'E' {
      RuneRead(input, c, LexFloat);
    } else {
      IntegerEnds(input, c);
    }
  }

  lemma TextFloat(input: string, c: Config)
    requires InBounds(input, c) && c.state == LexFloat && TextOk(c.state, Pending(input, c))
    requires TakesValue(PlaceOf(c.stack))
    ensures GoodText(input, c, StepFloat(input, c))
  {
    hide EntersAndEnds;
    PopPlace(c.stack);
    Outside(input, c, StepFloat(input, c));
  }

  lemma TextBool(input: string, c: Config)
    requires InBounds(input, c) && c.state == LexBool && TextOk(c.state, Pending(input, c))
    requires TakesValue(PlaceOf(c.stack))
    ensures GoodText(input, c, StepBool(input, c))
  {
    hide EntersAndEnds;
    PopPlace(c.stack);
    Outside(input, c, StepBool(input, c));
  }

  lemma TextCommentStart(input: string, c: Config)
    requires InBounds(input, c) && c.state == LexCommentStart && TextOk(c.state, Pending(input, c))
    ensures GoodText(input, c, StepCommentStart(input, c))
  {
  }

  lemma TextComment(input: string, c: Config)
    requires InBounds(input, c) && c.state == LexComment && TextOk(c.state, Pending(input, c))
    requires TakesComment(PlaceOf(c.stack))
    ensures GoodText(input, c, StepComment(input, c))
  {
    PopPlace(c.stack);
  }

  lemma TextSkip(input: string, c: Config, next: State)
    requires Inv(input, c) && c.state == LexSkip(next) && TextOk(c.state, Pending(input, c))
    ensures GoodText(input, c, StepSkip(input, c, next))
  {
  }

  lemma TextQuote(input: string, c: Config)
    requires InBounds(input, c) && c.state == LexValue && TextOk(c.state, Pending(input, c))
    requires IsQuote(Peek(input, c.pos))
    ensures GoodText(input, c, StepValue(input, c))
  {
    hide GoodText;
    var r := Peek(input, c.pos);
    if Peek(input, c.pos + 1) == r && Peek(input, c.pos + 2) == r {
      assert Quotes(input, c.pos, r, 3);
      Opens(input, c, 3, if r == '"' then LexMultilineString else LexMultilineRawString);
    } else {
      assert Quotes(input, c.pos, r, 1);
      Opens(input, c, 1, if r == '"' then LexString else LexRawString);
    }
  }

  lemma StepText(input: string, c: Config)
    requires Inv(input, c) && c.state != LexDone && TextOk(c.state, Pending(input, c))
    ensures GoodText(input, c, Step(input, c))
  {
    hide GoodText;
    match c.state
    case LexTop => TextTop(input, c);
    case LexTopEnd => TextTopEnd(input, c);
    case LexTableStart => TextTableStart(input, c);
    case LexTableEnd => TextTableEnd(input, c);
    case LexArrayTableEnd => TextArrayTableEnd(input, c);
    case LexTableNameStart => TextTableNameStart(input, c);
    case LexBareTableName => TextBareTableName(input, c);
    case LexTableNameEnd => TextTableNameEnd(input, c);
    case LexKeyStart => TextKeyStart(input, c);
    case LexBareKey => TextBareKey(input, c);
    case LexKeyEnd => TextKeyEnd(input, c);
    case LexValue => if IsQuote(Peek(input, c.pos)) { TextQuote(input, c); } else { TextValue(input, c); }
    case LexArrayValue => TextArrayValue(input, c);
    case LexArrayValueEnd => TextArrayValueEnd(input, c);
    case LexArrayEnd => TextArrayEnd(input, c);
    case LexInlineTableValue => TextInlineTableValue(input, c);
    case LexInlineTableValueEnd => TextInlineTableValueEnd(input, c);
    case LexInlineTableEnd => TextInlineTableEnd(input, c);
    case LexString => TextString(input, c);
    case LexMultilineString => TextMultilineString(input, c);
    case LexRawString => TextRawString(input, c);
    case LexMultilineRawString => TextMultilineRawString(input, c);
    case LexMultilineStringEscape => TextMultilineStringEscape(input, c);
    case LexStringEscape => TextStringEscape(input, c);
    case LexShortUnicodeEscape => TextShortUnicodeEscape(input, c);
    case LexLongUnicodeEscape => TextLongUnicodeEscape(input, c);
    case LexNumberOrDateStart => TextNumberOrDateStart(input, c);
    case LexNumberOrDate => TextNumberOrDate(input, c);
    case LexDatetime => TextDatetime(input, c);
    case LexNumberStart => TextNumberStart(input, c);
    case LexNumber => TextNumber(input, c);
    case LexFloat => TextFloat(input, c);
    case LexBool => TextBool(input, c);
    case LexCommentStart => TextCommentStart(input, c);
    case LexComment => TextComment(input, c);
    case LexSkip(next) => TextSkip(input, c, next);
  }
}
