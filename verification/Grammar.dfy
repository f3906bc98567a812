/** The grammar of token streams, and the proof that the lexer keeps to it.

The grammar is the one that the parser reads, as a predictive stack machine: a stack of
symbols says what may come, and `Feed` replaces the topmost one on a token.  It knows nothing
of the lexer's states. */
module Grammar {
  import opened Options
  import opened Tokens
  import opened LexSpec
  import opened LexRun

  datatype Symbol =
    | Document                            // top-level items, up to EOF
    | CommentText
    | Header(ofArray: bool, first: bool)  // the pieces of a table name and its end
    | KeyName
    | Value
    | Elements                            // of an array, up to its end
    | Pairs                               // of an inline table, up to its end

  datatype Expected = Nothing | Then(sym: Symbol, rest: Expected)

  const START := Then(Document, Nothing)

  predicate IsStringType(t: TokenType) {
    t.ItemString? || t.ItemMultilineString? || t.ItemRawString? || t.ItemRawMultilineString?
  }

  predicate IsName(t: TokenType) {
    t.ItemText? || IsStringType(t)
  }

  predicate IsPrimitive(t: TokenType) {
    IsStringType(t) || t.ItemBool? || t.ItemInteger? || t.ItemFloat? || t.ItemDatetime?
  }

  // A value begins with t; g is what comes after it.
  function Begin(g: Expected, t: TokenType): Option<Expected> {
    if IsPrimitive(t) then Some(g)
    else if t.ItemArray? then Some(Then(Elements, g))
    else if t.ItemInlineTableStart? then Some(Then(Pairs, g))
    else None
  }

  function Feed(g: Expected, t: TokenType): Option<Expected> {
    if g.Nothing? then None else
      match g.sym
      case Document =>
        if t.ItemCommentStart? then Some(Then(CommentText, g))
        else if t.ItemTableStart? then Some(Then(Header(false, true), g))
        else if t.ItemArrayTableStart? then Some(Then(Header(true, true), g))
        else if t.ItemKeyStart? then Some(Then(KeyName, Then(Value, g)))
        else if t.ItemEOF? then Some(g.rest)
        else None
      case CommentText => if t.ItemText? then Some(g.rest) else None
      case Header(ofArray, first) =>
        if IsName(t) then Some(Then(Header(ofArray, false), g.rest))
        else if !first && t == (if ofArray then ItemArrayTableEnd else ItemTableEnd) then Some(g.rest)
        else None
      case KeyName => if IsName(t) then Some(g.rest) else None
      case Value => Begin(g.rest, t)
      case Elements =>
        if t.ItemArrayEnd? then Some(g.rest)
        else if t.ItemCommentStart? then Some(Then(CommentText, g))
        else Begin(g, t)
      case Pairs =>
        if t.ItemInlineTableEnd? then Some(g.rest)
        else if t.ItemKeyStart? then Some(Then(KeyName, Then(Value, g)))
        else if t.ItemCommentStart? then Some(Then(CommentText, g))
        else None
  }

  // toks is a sentence from g: it runs to EOF, or is cut off by an error token.
  predicate Sentence(g: Expected, toks: seq<Token>)
    decreases |toks|
  {
    && toks != []
    && if toks[0].typ.ItemError? then |toks| == 1
       else Feed(g, toks[0].typ).Some?
            && if toks[0].typ.ItemEOF? then |toks| == 1 && Feed(g, toks[0].typ).value == Nothing
               else Sentence(Feed(g, toks[0].typ).value, toks[1..])
  }

  // ---- what the lexer's states stand for ----

  // What may come when the lexer goes on with the topmost frame.
  function AfterPop(k: Stack): Expected {
    if k.Empty? then Nothing
    else if k.top.LexTopEnd? || k.top.LexTop? then START
    else if k.top.LexArrayValueEnd? || k.top.LexArrayValue? then Then(Elements, AfterPop(k.rest))
    else if k.top.LexInlineTableValueEnd? || k.top.LexInlineTableValue? then Then(Pairs, AfterPop(k.rest))
    else if k.top.LexKeyEnd? then Then(Value, AfterPop(k.rest))
    else if k.top.LexTableEnd? then Then(Header(false, false), START)
    else if k.top.LexArrayTableEnd? then Then(Header(true, false), START)
    else if k.top.LexTableNameEnd? then AfterPop(k.rest)
    else Nothing
  }

  // What may come before the string, number and so on that is being lexed.
  predicate BeforeString(k: Stack, g: Expected) {
    && k.Frame?
    && if k.top.LexArrayValueEnd? then g == AfterPop(k)
       else if k.top.LexKeyEnd? then g == Then(KeyName, AfterPop(k))
       else if k.top.LexTableNameEnd? then InName(k.rest, g)
       else g == Then(Value, AfterPop(k))
  }

  // Before a piece of a header, the first one or a later one.
  predicate InName(k: Stack, g: Expected) {
    && k.Frame?
    && (g == Then(Header(k.top.LexArrayTableEnd?, false), START)
        || g == Then(Header(k.top.LexArrayTableEnd?, true), START))
  }

  predicate Expects(s: State, k: Stack, g: Expected) {
    if s.LexDone? then true
    else if s.LexTop? || s.LexTopEnd? || s.LexTableStart? then g == START
    else if s.LexTableEnd? then g == Then(Header(false, false), START)
    else if s.LexArrayTableEnd? then g == Then(Header(true, false), START)
    else if s.LexTableNameStart? || s.LexBareTableName? then InName(k, g)
    else if s.LexTableNameEnd? || s.LexKeyStart? || s.LexCommentStart? then g == AfterPop(k)
    else if s.LexBareKey? then g == Then(KeyName, Then(Value, AfterPop(k)))
    else if s.LexKeyEnd? then g == Then(Value, AfterPop(k))
    else if s.LexArrayValue? || s.LexArrayValueEnd? || s.LexArrayEnd? then g == Then(Elements, AfterPop(k))
    else if s.LexInlineTableValue? || s.LexInlineTableValueEnd? || s.LexInlineTableEnd? then
        g == Then(Pairs, AfterPop(k))
    else if s.LexStringEscape? || s.LexShortUnicodeEscape? || s.LexLongUnicodeEscape? then
        k.Frame? && BeforeString(k.rest, g)
    else if s.LexComment? then g == Then(CommentText, AfterPop(k))
    else if s.LexSkip? then !s.next.LexSkip? && Expects(s.next, k, g)
    else BeforeString(k, g)
  }

  // A call from c to d is a move of the grammar from g.
  predicate Follows(c: Config, d: Config, g: Expected) {
    if d.out == c.out then Expects(d.state, d.stack, g)
    else
      && |d.out| == |c.out| + 1
      && (d.out[|c.out|].typ.ItemError? ||
          (&& Feed(g, d.out[|c.out|].typ).Some?
           && (d.out[|c.out|].typ.ItemEOF? ==> Feed(g, ItemEOF) == Some(Nothing))
           && Expects(d.state, d.stack, Feed(g, d.out[|c.out|].typ).value)))
  }

  // After a value or a name, the popped state expects what AfterPop says.
  lemma PopExpects(k: Stack, g: Expected)
    requires TakesString(PlaceOf(k)) || TakesComment(PlaceOf(k)) || PlaceOf(k) == InHeader
    requires g == AfterPop(k)
    ensures k.Frame? && Expects(k.top, k.rest, g)
  {
    PopPlace(k);
  }

  lemma NameFeeds(k: Stack, g: Expected, t: TokenType)
    requires TakesString(PlaceOf(k)) && BeforeString(k, g)
    requires IsStringType(t) || (TakesValue(PlaceOf(k)) && IsPrimitive(t))
    ensures Feed(g, t) == Some(AfterPop(k))
  {
    PopPlace(k);
  }

  lemma FollowsTop(input: string, c: Config, g: Expected)
    requires InBounds(input, c) && c.state == LexTop && Expects(c.state, c.stack, g)
    ensures Follows(c, StepTop(input, c), g)
  {
  }

  lemma FollowsTopEnd(input: string, c: Config, g: Expected)
    requires InBounds(input, c) && c.state == LexTopEnd && Expects(c.state, c.stack, g)
    ensures Follows(c, StepTopEnd(input, c), g)
  {
  }

  lemma FollowsTableStart(input: string, c: Config, g: Expected)
    requires InBounds(input, c) && c.state == LexTableStart && Expects(c.state, c.stack, g)
    ensures Follows(c, StepTableStart(input, c), g)
  {
  }

  lemma FollowsTableEnd(input: string, c: Config, g: Expected)
    requires InBounds(input, c) && c.state == LexTableEnd && Expects(c.state, c.stack, g)
    ensures Follows(c, StepTableEnd(input, c), g)
  {
  }

  lemma FollowsArrayTableEnd(input: string, c: Config, g: Expected)
    requires InBounds(input, c) && c.state == LexArrayTableEnd && Expects(c.state, c.stack, g)
    ensures Follows(c, StepArrayTableEnd(input, c), g)
  {
  }

  lemma FollowsTableNameStart(input: string, c: Config, g: Expected)
    requires InBounds(input, c) && c.state == LexTableNameStart && Expects(c.state, c.stack, g)
    requires PlaceOf(c.stack) == InHeader
    ensures Follows(c, StepTableNameStart(input, c), g)
  {
    PopPlace(c.stack);
  }

  lemma FollowsBareTableName(input: string, c: Config, g: Expected)
    requires InBounds(input, c) && c.state == LexBareTableName && Expects(c.state, c.stack, g)
    requires PlaceOf(c.stack) == InHeader
    ensures Follows(c, StepBareTableName(input, c), g)
  {
    PopPlace(c.stack);
  }

  lemma FollowsTableNameEnd(input: string, c: Config, g: Expected)
    requires InBounds(input, c) && c.state == LexTableNameEnd && Expects(c.state, c.stack, g)
    requires PlaceOf(c.stack) == InHeader
    ensures Follows(c, StepTableNameEnd(input, c), g)
  {
    PopPlace(c.stack);
    PopExpects(c.stack, AfterPop(c.stack));
  }

  lemma FollowsKeyStart(input: string, c: Config, g: Expected)
    requires InBounds(input, c) && c.state == LexKeyStart && Expects(c.state, c.stack, g) && TakesKey(PlaceOf(c.stack))
    ensures Follows(c, StepKeyStart(input, c), g)
  {
    PopPlace(c.stack);
  }

  lemma FollowsBareKey(input: string, c: Config, g: Expected)
    requires InBounds(input, c) && c.state == LexBareKey && Expects(c.state, c.stack, g) && TakesKey(PlaceOf(c.stack))
    ensures Follows(c, StepBareKey(input, c), g)
  {
    PopPlace(c.stack);
  }

  lemma FollowsKeyEnd(input: string, c: Config, g: Expected)
    requires InBounds(input, c) && c.state == LexKeyEnd && Expects(c.state, c.stack, g) && TakesKey(PlaceOf(c.stack))
    ensures Follows(c, StepKeyEnd(input, c), g)
  {
    PopPlace(c.stack);
  }

  lemma FollowsQuote(input: string, c: Config, g: Expected)
    requires InBounds(input, c) && c.state == LexValue && Expects(c.state, c.stack, g)
    requires IsQuote(Peek(input, c.pos)) && TakesString(PlaceOf(c.stack))
    ensures Follows(c, StepValue(input, c), g)
  {
  }

  lemma FollowsValue(input: string, c: Config, g: Expected)
    requires InBounds(input, c) && c.state == LexValue && Expects(c.state, c.stack, g)
    requires !IsQuote(Peek(input, c.pos)) && TakesValue(PlaceOf(c.stack))
    ensures Follows(c, StepValue(input, c), g)
  {
    var r := Peek(input, c.pos);
    if r == '[' || r == '{' {
      FollowsOpening(input, c, g);
    } else {
      FollowsScalar(input, c, g);
    }
  }

  lemma FollowsOpening(input: string, c: Config, g: Expected)
    requires InBounds(input, c) && c.state == LexValue && Expects(c.state, c.stack, g) && TakesValue(PlaceOf(c.stack))
    requires Peek(input, c.pos) == '[' || Peek(input, c.pos) == '{'
    ensures Follows(c, StepValue(input, c), g)
  {
    if Peek(input, c.pos) == '[' {
      assert StepValue(input, c).state == LexArrayValue;
    }
  }

  lemma FollowsScalar(input: string, c: Config, g: Expected)
    requires InBounds(input, c) && c.state == LexValue && Expects(c.state, c.stack, g) && TakesValue(PlaceOf(c.stack))
    requires !IsQuote(Peek(input, c.pos)) && Peek(input, c.pos) != '[' && Peek(input, c.pos) != '{'
    ensures Follows(c, StepValue(input, c), g)
  {
    PopPlace(c.stack);
  }

  lemma FollowsArrayValue(input: string, c: Config, g: Expected)
    requires InBounds(input, c) && c.state == LexArrayValue && Expects(c.state, c.stack, g)
    requires TakesValue(PlaceOf(c.stack))
    ensures Follows(c, StepArrayValue(input, c), g)
  {
  }

  lemma FollowsArrayValueEnd(input: string, c: Config, g: Expected)
    requires InBounds(input, c) && c.state == LexArrayValueEnd && Expects(c.state, c.stack, g)
    requires TakesValue(PlaceOf(c.stack))
    ensures Follows(c, StepArrayValueEnd(input, c), g)
  {
  }

  lemma FollowsArrayEnd(input: string, c: Config, g: Expected)
    requires InBounds(input, c) && c.state == LexArrayEnd && Expects(c.state, c.stack, g)
    requires TakesValue(PlaceOf(c.stack))
    ensures Follows(c, StepArrayEnd(input, c), g)
  {
    PopPlace(c.stack);
    PopExpects(c.stack, AfterPop(c.stack));
  }

  lemma FollowsInlineTableValue(input: string, c: Config, g: Expected)
    requires InBounds(input, c) && c.state == LexInlineTableValue && Expects(c.state, c.stack, g)
    requires TakesValue(PlaceOf(c.stack))
    ensures Follows(c, StepInlineTableValue(input, c), g)
  {
  }

  lemma FollowsInlineTableValueEnd(input: string, c: Config, g: Expected)
    requires InBounds(input, c) && c.state == LexInlineTableValueEnd && Expects(c.state, c.stack, g)
    requires TakesValue(PlaceOf(c.stack))
    ensures Follows(c, StepInlineTableValueEnd(input, c), g)
  {
  }

  lemma FollowsInlineTableEnd(input: string, c: Config, g: Expected)
    requires InBounds(input, c) && c.state == LexInlineTableEnd && Expects(c.state, c.stack, g)
    requires TakesValue(PlaceOf(c.stack))
    ensures Follows(c, StepInlineTableEnd(input, c), g)
  {
    PopPlace(c.stack);
    PopExpects(c.stack, AfterPop(c.stack));
  }

  lemma FollowsString(input: string, c: Config, g: Expected)
    requires InBounds(input, c) && c.state == LexString && Expects(c.state, c.stack, g) && TakesString(PlaceOf(c.stack))
    ensures Follows(c, StepString(input, c), g)
  {
    PopPlace(c.stack);
    NameFeeds(c.stack, g, ItemString);
    PopExpects(c.stack, AfterPop(c.stack));
  }

  lemma FollowsMultilineString(input: string, c: Config, g: Expected)
    requires InBounds(input, c) && c.state == LexMultilineString && Expects(c.state, c.stack, g)
    requires TakesString(PlaceOf(c.stack))
    ensures Follows(c, StepMultilineString(input, c), g)
  {
    PopPlace(c.stack);
    NameFeeds(c.stack, g, ItemMultilineString);
    PopExpects(c.stack, AfterPop(c.stack));
  }

  lemma FollowsRawString(input: string, c: Config, g: Expected)
    requires InBounds(input, c) && c.state == LexRawString && Expects(c.state, c.stack, g)
    requires TakesString(PlaceOf(c.stack))
    ensures Follows(c, StepRawString(input, c), g)
  {
    PopPlace(c.stack);
    NameFeeds(c.stack, g, ItemRawString);
    PopExpects(c.stack, AfterPop(c.stack));
  }

  lemma FollowsMultilineRawString(input: string, c: Config, g: Expected)
    requires InBounds(input, c) && c.state == LexMultilineRawString && Expects(c.state, c.stack, g)
    requires TakesString(PlaceOf(c.stack))
    ensures Follows(c, StepMultilineRawString(input, c), g)
  {
    PopPlace(c.stack);
    NameFeeds(c.stack, g, ItemRawMultilineString);
    PopExpects(c.stack, AfterPop(c.stack));
  }

  lemma FollowsMultilineStringEscape(input: string, c: Config, g: Expected)
    requires InBounds(input, c) && c.state == LexMultilineStringEscape && Expects(c.state, c.stack, g)
    requires TakesString(PlaceOf(c.stack))
    ensures Follows(c, StepMultilineStringEscape(input, c), g)
  {
    PopPlace(c.stack);
  }

  lemma FollowsStringEscape(input: string, c: Config, g: Expected)
    requires InBounds(input, c) && c.state == LexStringEscape && Expects(c.state, c.stack, g)
    requires PlaceOf(c.stack) == InString
    ensures Follows(c, StepStringEscape(input, c), g)
  {
    PopPlace(c.stack);
  }

  lemma FollowsShortUnicodeEscape(input: string, c: Config, g: Expected)
    requires InBounds(input, c) && c.state == LexShortUnicodeEscape && Expects(c.state, c.stack, g)
    requires PlaceOf(c.stack) == InString
    ensures Follows(c, StepUnicodeEscape(input, c, 4, BadShortEscape), g)
  {
    PopPlace(c.stack);
  }

  lemma FollowsLongUnicodeEscape(input: string, c: Config, g: Expected)
    requires InBounds(input, c) && c.state == LexLongUnicodeEscape && Expects(c.state, c.stack, g)
    requires PlaceOf(c.stack) == InString
    ensures Follows(c, StepUnicodeEscape(input, c, 8, BadLongEscape), g)
  {
    PopPlace(c.stack);
  }

  lemma FollowsNumberOrDateStart(input: string, c: Config, g: Expected)
    requires InBounds(input, c) && c.state == LexNumberOrDateStart && Expects(c.state, c.stack, g)
    ensures Follows(c, StepNumberOrDateStart(input, c), g)
  {
  }

  lemma FollowsNumberOrDate(input: string, c: Config, g: Expected)
    requires InBounds(input, c) && c.state == LexNumberOrDate && Expects(c.state, c.stack, g)
    requires TakesValue(PlaceOf(c.stack))
    ensures Follows(c, StepNumberOrDate(input, c), g)
  {
    PopPlace(c.stack);
    NameFeeds(c.stack, g, ItemInteger);
    PopExpects(c.stack, AfterPop(c.stack));
  }

  lemma FollowsDatetime(input: string, c: Config, g: Expected)
    requires InBounds(input, c) && c.state == LexDatetime && Expects(c.state, c.stack, g)
    requires TakesValue(PlaceOf(c.stack))
    ensures Follows(c, StepDatetime(input, c), g)
  {
    PopPlace(c.stack);
    NameFeeds(c.stack, g, ItemDatetime);
    PopExpects(c.stack, AfterPop(c.stack));
  }

  lemma FollowsNumberStart(input: string, c: Config, g: Expected)
    requires InBounds(input, c) && c.state == LexNumberStart && Expects(c.state, c.stack, g)
    ensures Follows(c, StepNumberStart(input, c), g)
  {
  }

  lemma FollowsNumber(input: string, c: Config, g: Expected)
    requires InBounds(input, c) && c.state == LexNumber && Expects(c.state, c.stack, g) && TakesValue(PlaceOf(c.stack))
    ensures Follows(c, StepNumber(input, c), g)
  {
    PopPlace(c.stack);
    NameFeeds(c.stack, g, ItemInteger);
    PopExpects(c.stack, AfterPop(c.stack));
  }

  lemma FollowsFloat(input: string, c: Config, g: Expected)
    requires InBounds(input, c) && c.state == LexFloat && Expects(c.state, c.stack, g) && TakesValue(PlaceOf(c.stack))
    ensures Follows(c, StepFloat(input, c), g)
  {
    PopPlace(c.stack);
    NameFeeds(c.stack, g, ItemFloat);
    PopExpects(c.stack, AfterPop(c.stack));
  }

  lemma FollowsBool(input: string, c: Config, g: Expected)
    requires InBounds(input, c) && c.state == LexBool && Expects(c.state, c.stack, g) && TakesValue(PlaceOf(c.stack))
    ensures Follows(c, StepBool(input, c), g)
  {
    PopPlace(c.stack);
    NameFeeds(c.stack, g, ItemBool);
    PopExpects(c.stack, AfterPop(c.stack));
  }

  lemma FollowsCommentStart(input: string, c: Config, g: Expected)
    requires InBounds(input, c) && c.state == LexCommentStart && Expects(c.state, c.stack, g)
    requires TakesComment(PlaceOf(c.stack))
    ensures Follows(c, StepCommentStart(input, c), g)
  {
    PopPlace(c.stack);
  }

  lemma FollowsComment(input: string, c: Config, g: Expected)
    requires InBounds(input, c) && c.state == LexComment && Expects(c.state, c.stack, g)
    requires TakesComment(PlaceOf(c.stack))
    ensures Follows(c, StepComment(input, c), g)
  {
    PopPlace(c.stack);
    PopExpects(c.stack, AfterPop(c.stack));
  }

  predicate HeaderState(s: State) {
    s.LexTop? || s.LexTopEnd? || s.LexTableStart? || s.LexTableEnd? || s.LexArrayTableEnd? || s.LexTableNameStart?
        || s.LexBareTableName? || s.LexTableNameEnd?
  }

  lemma StepFollowsHeader(input: string, c: Config, g: Expected)
    requires Inv(input, c) && HeaderState(c.state) && Expects(c.state, c.stack, g)
    ensures Follows(c, Step(input, c), g)
  {
    match c.state
    case LexTop => FollowsTop(input, c, g);
    case LexTopEnd => FollowsTopEnd(input, c, g);
    case LexTableStart => FollowsTableStart(input, c, g);
    case LexTableEnd => FollowsTableEnd(input, c, g);
    case LexArrayTableEnd => FollowsArrayTableEnd(input, c, g);
    case LexTableNameStart => FollowsTableNameStart(input, c, g);
    case LexBareTableName => FollowsBareTableName(input, c, g);
    case LexTableNameEnd => FollowsTableNameEnd(input, c, g);
    case _ =>
  }

  predicate PairState(s: State) {
    s.LexKeyStart? || s.LexBareKey? || s.LexKeyEnd? || s.LexInlineTableValue? || s.LexInlineTableValueEnd?
        || s.LexInlineTableEnd?
  }

  lemma StepFollowsPair(input: string, c: Config, g: Expected)
    requires Inv(input, c) && PairState(c.state) && Expects(c.state, c.stack, g)
    ensures Follows(c, Step(input, c), g)
  {
    match c.state
    case LexKeyStart => FollowsKeyStart(input, c, g);
    case LexBareKey => FollowsBareKey(input, c, g);
    case LexKeyEnd => FollowsKeyEnd(input, c, g);
    case LexInlineTableValue => FollowsInlineTableValue(input, c, g);
    case LexInlineTableValueEnd => FollowsInlineTableValueEnd(input, c, g);
    case LexInlineTableEnd => FollowsInlineTableEnd(input, c, g);
    case _ =>
  }

  predicate ValueState(s: State) {
    s.LexValue? || s.LexArrayValue? || s.LexArrayValueEnd? || s.LexArrayEnd? || s.LexCommentStart? || s.LexComment?
  }

  lemma StepFollowsValue(input: string, c: Config, g: Expected)
    requires Inv(input, c) && ValueState(c.state) && Expects(c.state, c.stack, g)
    ensures Follows(c, Step(input, c), g)
  {
    match c.state
    case LexValue =>
      if IsQuote(Peek(input, c.pos)) {
        FollowsQuote(input, c, g);
      } else {
        FollowsValue(input, c, g);
      }
    case LexArrayValue => FollowsArrayValue(input, c, g);
    case LexArrayValueEnd => FollowsArrayValueEnd(input, c, g);
    case LexArrayEnd => FollowsArrayEnd(input, c, g);
    case LexCommentStart => FollowsCommentStart(input, c, g);
    case LexComment => FollowsComment(input, c, g);
    case _ =>
  }

  predicate StringState(s: State) {
    s.LexString? || s.LexMultilineString? || s.LexRawString? || s.LexMultilineRawString? || s.LexMultilineStringEscape?
        || s.LexStringEscape? || s.LexShortUnicodeEscape? || s.LexLongUnicodeEscape?
  }

  lemma StepFollowsString(input: string, c: Config, g: Expected)
    requires Inv(input, c) && StringState(c.state) && Expects(c.state, c.stack, g)
    ensures Follows(c, Step(input, c), g)
  {
    match c.state
    case LexString => FollowsString(input, c, g);
    case LexMultilineString => FollowsMultilineString(input, c, g);
    case LexRawString => FollowsRawString(input, c, g);
    case LexMultilineRawString => FollowsMultilineRawString(input, c, g);
    case LexMultilineStringEscape => FollowsMultilineStringEscape(input, c, g);
    case LexStringEscape => FollowsStringEscape(input, c, g);
    case LexShortUnicodeEscape => FollowsShortUnicodeEscape(input, c, g);
    case LexLongUnicodeEscape => FollowsLongUnicodeEscape(input, c, g);
    case _ =>
  }

  predicate ScalarState(s: State) {
    s.LexNumberOrDateStart? || s.LexNumberOrDate? || s.LexDatetime? || s.LexNumberStart? || s.LexNumber? || s.LexFloat?
        || s.LexBool?
  }

  lemma StepFollowsScalar(input: string, c: Config, g: Expected)
    requires Inv(input, c) && ScalarState(c.state) && Expects(c.state, c.stack, g)
    ensures Follows(c, Step(input, c), g)
  {
    match c.state
    case LexNumberOrDateStart => FollowsNumberOrDateStart(input, c, g);
    case LexNumberOrDate => FollowsNumberOrDate(input, c, g);
    case LexDatetime => FollowsDatetime(input, c, g);
    case LexNumberStart => FollowsNumberStart(input, c, g);
    case LexNumber => FollowsNumber(input, c, g);
    case LexFloat => FollowsFloat(input, c, g);
    case LexBool => FollowsBool(input, c, g);
    case _ =>
  }

  lemma StepFollows(input: string, c: Config, g: Expected)
    requires Inv(input, c) && c.state != LexDone && Expects(c.state, c.stack, g)
    ensures Follows(c, Step(input, c), g)
  {
    if HeaderState(c.state) {
      StepFollowsHeader(input, c, g);
    } else if PairState(c.state) {
      StepFollowsPair(input, c, g);
    } else if ValueState(c.state) {
      StepFollowsValue(input, c, g);
    } else if StringState(c.state) {
      StepFollowsString(input, c, g);
    } else if ScalarState(c.state) {
      StepFollowsScalar(input, c, g);
    }
  }

  // ---- whole runs ----

  lemma {:induction false} RunSentence(input: string, c: Config, g: Expected)
    requires Inv(input, c) && c.state != LexDone && Expects(c.state, c.stack, g)
    ensures Sentence(g, Run(input, c).out[|c.out|..])
    decreases Measure(input, c)
  {
    hide Step, Shape, Expects, Rank;
    StepAdvances(input, c);
    StepFollows(input, c, g);
    var d := Step(input, c);
    var all := Run(input, d).out;
    if d.out == c.out {
      RunSentence(input, d, g);
    } else {
      var t := d.out[|c.out|];
      assert all[|c.out|..] == [t] + all[|d.out|..];
      if d.state == LexDone {
        assert all == d.out;
      } else {
        RunSentence(input, d, Feed(g, t.typ).value);
      }
    }
  }

  /** The tokens of every input are a sentence of the grammar, up to EOF or an error token. */
  lemma LexerKeepsToGrammar(input: string)
    ensures Sentence(START, LexAll(input))
  {
    RunSentence(input, INIT, START);
    assert LexAll(input)[0..] == LexAll(input);
  }
}
