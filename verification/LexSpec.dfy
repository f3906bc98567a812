/** The lexer as a transition function on values.

A configuration holds what a run of the lexer depends on: the state to call, the stack of
continuation states, the start of the pending text, the read position (both counted in
runes) and the tokens emitted so far.  Where the source reads and backs up, this
specification looks ahead; the class in Lexer.dfy shows that the two agree. */
module LexSpec {
  import opened Runes
  import opened Tokens

  // The stack of continuation states, most recent first.
  datatype Stack = Empty | Frame(top: State, rest: Stack)

  datatype Config = Config(state: State, stack: Stack, start: nat, pos: nat, out: seq<Token>)

  const INIT := Config(LexTop, Empty, 0, 0, [])

  predicate InBounds(input: string, c: Config) {
    c.start <= c.pos <= |input|
  }

  // The rune at position p, EOF past the end.
  function Peek(input: string, p: nat): char {
    if p < |input| then input[p] else EOF
  }

  function After(input: string, p: nat): nat {
    if p < |input| then p + 1 else p
  }

  function Pending(input: string, c: Config): string
    requires InBounds(input, c)
  {
    input[c.start..c.pos]
  }

  function Next(input: string, c: Config): (d: Config)
    requires InBounds(input, c)
    ensures InBounds(input, d)
  {
    c.(pos := After(input, c.pos))
  }

  function Goto(c: Config, s: State): Config {
    c.(state := s)
  }

  function Push(c: Config, s: State): Config {
    c.(stack := Frame(s, c.stack))
  }

  function Ignore(c: Config): Config {
    c.(start := c.pos)
  }

  function Emit(input: string, c: Config, typ: TokenType): (d: Config)
    requires InBounds(input, c)
    ensures InBounds(input, d)
  {
    c.(out := c.out + [Token(typ, Pending(input, c))], start := c.pos)
  }

  function Fail(c: Config, e: LexError): Config {
    c.(state := LexDone, out := c.out + [Token(ItemError(e), [])])
  }

  function Pop(c: Config): Config {
    match c.stack
    case Empty => Fail(c, NoStateToPop)
    case Frame(top, rest) => c.(state := top, stack := rest)
  }

  function SkipBlanks(input: string, p: nat): (q: nat)
    requires p <= |input|
    ensures p <= q <= |input|
    ensures forall k :: p <= k < q ==> IsWhitespace(input[k])
    ensures !IsWhitespace(Peek(input, q))
    decreases |input| - p
  {
    if p < |input| && IsWhitespace(input[p]) then SkipBlanks(input, p + 1) else p
  }

  function SkipLetters(input: string, p: nat): (q: nat)
    requires p <= |input|
    ensures p <= q <= |input|
    ensures !IsLetter(Peek(input, q))
    decreases |input| - p
  {
    if p < |input| && IsLetter(input[p]) then SkipLetters(input, p + 1) else p
  }

  // The number of hexadecimal digits at p, at most n.
  function HexDigits(input: string, p: nat, n: nat): (k: nat)
    requires p <= |input|
    ensures k <= n && p + k <= |input|
    ensures forall i :: p <= i < p + k ==> IsHexadecimal(input[i])
    ensures k < n ==> !IsHexadecimal(Peek(input, p + k))
    decreases n
  {
    if n > 0 && p < |input| && IsHexadecimal(input[p]) then 1 + HexDigits(input, p + 1, n - 1) else 0
  }

  // ---- top level ----

  function StepTop(input: string, c: Config): (d: Config)
    requires InBounds(input, c)
    ensures InBounds(input, d)
  {
    var r := Peek(input, c.pos);
    var n := Next(input, c);
    if IsWhitespace(r) || IsNL(r) then Goto(n, LexSkip(LexTop))
    else if r == '#' then Goto(Push(n, LexTop), LexCommentStart)
    else if r == '[' then Goto(n, LexTableStart)
    else if r == EOF then
      if n.pos > n.start then Fail(n, UnexpectedEOF) else Goto(Emit(input, n, ItemEOF), LexDone)
    else Goto(Push(c, LexTopEnd), LexKeyStart)
  }

  function StepTopEnd(input: string, c: Config): (d: Config)
    requires InBounds(input, c)
    ensures InBounds(input, d)
  {
    var r := Peek(input, c.pos);
    var n := Next(input, c);
    if r == '#' then Goto(Push(n, LexTop), LexCommentStart)
    else if IsWhitespace(r) then Goto(n, LexTopEnd)
    else if IsNL(r) then Goto(Ignore(n), LexTop)
    else if r == EOF then Goto(Emit(input, n, ItemEOF), LexDone)
    else Fail(n, NoTopLevelEnd)
  }

  // ---- table headers ----

  function StepTableStart(input: string, c: Config): (d: Config)
    requires InBounds(input, c)
    ensures InBounds(input, d)
  {
    if Peek(input, c.pos) == '[' then
      Goto(Push(Emit(input, Next(input, c), ItemArrayTableStart), LexArrayTableEnd), LexTableNameStart)
    else
      Goto(Push(Emit(input, c, ItemTableStart), LexTableEnd), LexTableNameStart)
  }

  function StepTableEnd(input: string, c: Config): (d: Config)
    requires InBounds(input, c)
    ensures InBounds(input, d)
  {
    Goto(Emit(input, c, ItemTableEnd), LexTopEnd)
  }

  function StepArrayTableEnd(input: string, c: Config): (d: Config)
    requires InBounds(input, c)
    ensures InBounds(input, d)
  {
    var n := Next(input, c);
    if Peek(input, c.pos) != ']' then Fail(n, NoArrayTableEnd)
    else Goto(Emit(input, n, ItemArrayTableEnd), LexTopEnd)
  }

  function StepTableNameStart(input: string, c: Config): (d: Config)
    requires InBounds(input, c)
    ensures InBounds(input, d)
  {
    var q := SkipBlanks(input, c.pos);
    var s := c.(start := q, pos := q);
    var r := Peek(input, q);
    if r == ']' || r == EOF then Fail(s, EmptyTableName)
    else if r == '.' then Fail(s, EmptyTableName)
    else if r == '"' || r == '\'' then Goto(Push(s, LexTableNameEnd), LexValue)
    else Goto(s, LexBareTableName)
  }

  function StepBareTableName(input: string, c: Config): (d: Config)
    requires InBounds(input, c)
    ensures InBounds(input, d)
  {
    if IsBareKeyChar(Peek(input, c.pos)) then Goto(Next(input, c), LexBareTableName)
    else Goto(Emit(input, c, ItemText), LexTableNameEnd)
  }

  function StepTableNameEnd(input: string, c: Config): (d: Config)
    requires InBounds(input, c)
    ensures InBounds(input, d)
  {
    var q := SkipBlanks(input, c.pos);
    var s := c.(start := q, pos := q);
    var r := Peek(input, q);
    if r == '.' then Goto(Ignore(Next(input, s)), LexTableNameStart)
    else if r == ']' then Pop(Next(input, s))
    else Fail(Next(input, s), NoTableNameEnd)
  }

  // ---- keys ----

  function StepKeyStart(input: string, c: Config): (d: Config)
    requires InBounds(input, c)
    ensures InBounds(input, d)
  {
    var r := Peek(input, c.pos);
    if r == '=' then Fail(c, NoKeyBeforeSeparator)
    else if IsWhitespace(r) || IsNL(r) then Goto(Next(input, c), LexSkip(LexKeyStart))
    else if r == '"' || r == '\'' then Goto(Push(Emit(input, Ignore(c), ItemKeyStart), LexKeyEnd), LexValue)
    else Goto(Emit(input, Ignore(c), ItemKeyStart), LexBareKey)
  }

  function StepBareKey(input: string, c: Config): (d: Config)
    requires InBounds(input, c)
    ensures InBounds(input, d)
  {
    var r := Peek(input, c.pos);
    if IsBareKeyChar(r) then Goto(Next(input, c), LexBareKey)
    else if IsWhitespace(r) || r == '=' then Goto(Emit(input, c, ItemText), LexKeyEnd)
    else Fail(Next(input, c), BadBareKey)
  }

  function StepKeyEnd(input: string, c: Config): (d: Config)
    requires InBounds(input, c)
    ensures InBounds(input, d)
  {
    var r := Peek(input, c.pos);
    var n := Next(input, c);
    if r == '=' then Goto(n, LexSkip(LexValue))
    else if IsWhitespace(r) then Goto(n, LexSkip(LexKeyEnd))
    else Fail(n, NoKeySeparator)
  }

  // ---- values ----

  function StepValue(input: string, c: Config): (d: Config)
    requires InBounds(input, c)
    ensures InBounds(input, d)
  {
    var r := Peek(input, c.pos);
    var n := Next(input, c);
    if IsWhitespace(r) then Goto(n, LexSkip(LexValue))
    else if IsDigit(r) then Goto(c, LexNumberOrDateStart)
    else if r == '[' then Goto(Emit(input, Ignore(n), ItemArray), LexArrayValue)
    else if r == '{' then Goto(Emit(input, Ignore(n), ItemInlineTableStart), LexInlineTableValue)
    else if r == '"' then
      if Peek(input, n.pos) == '"' && Peek(input, n.pos + 1) == '"' then
        Goto(n.(start := n.pos + 2, pos := n.pos + 2), LexMultilineString)
      else Goto(Ignore(n), LexString)
    else if r == '\'' then
      if Peek(input, n.pos) == '\'' && Peek(input, n.pos + 1) == '\'' then
        Goto(n.(start := n.pos + 2, pos := n.pos + 2), LexMultilineRawString)
      else Goto(Ignore(n), LexRawString)
    else if r == '+' || r == '-' then Goto(n, LexNumberStart)
    else if r == '.' then Fail(n, FloatWithoutDigit)
    else if IsLetter(r) then Goto(c, LexBool)
    else Fail(n, NoValue)
  }

  // ---- arrays ----

  function StepArrayValue(input: string, c: Config): (d: Config)
    requires InBounds(input, c)
    ensures InBounds(input, d)
  {
    var r := Peek(input, c.pos);
    var n := Next(input, c);
    if IsWhitespace(r) || IsNL(r) then Goto(n, LexSkip(LexArrayValue))
    else if r == '#' then Goto(Push(n, LexArrayValue), LexCommentStart)
    else if r == ',' then Fail(n, UnexpectedComma)
    else if r == ']' then Goto(n, LexArrayEnd)
    else Goto(Push(c, LexArrayValueEnd), LexValue)
  }

  function StepArrayValueEnd(input: string, c: Config): (d: Config)
    requires InBounds(input, c)
    ensures InBounds(input, d)
  {
    var r := Peek(input, c.pos);
    var n := Next(input, c);
    if IsWhitespace(r) || IsNL(r) then Goto(n, LexSkip(LexArrayValueEnd))
    else if r == '#' then Goto(Push(n, LexArrayValueEnd), LexCommentStart)
    else if r == ',' then Goto(Ignore(n), LexArrayValue)
    else if r == ']' then Goto(n, LexArrayEnd)
    else Fail(n, NoArrayEnd)
  }

  function StepArrayEnd(input: string, c: Config): (d: Config)
    requires InBounds(input, c)
    ensures InBounds(input, d)
  {
    Pop(Emit(input, Ignore(c), ItemArrayEnd))
  }

  // ---- inline tables ----

  function StepInlineTableValue(input: string, c: Config): (d: Config)
    requires InBounds(input, c)
    ensures InBounds(input, d)
  {
    var r := Peek(input, c.pos);
    var n := Next(input, c);
    if IsWhitespace(r) then Goto(n, LexSkip(LexInlineTableValue))
    else if IsNL(r) then Fail(n, NewlineInInlineTable)
    else if r == '#' then Goto(Push(n, LexInlineTableValue), LexCommentStart)
    else if r == ',' then Fail(n, UnexpectedComma)
    else if r == '}' then Goto(n, LexInlineTableEnd)
    else Goto(Push(c, LexInlineTableValueEnd), LexKeyStart)
  }

  function StepInlineTableValueEnd(input: string, c: Config): (d: Config)
    requires InBounds(input, c)
    ensures InBounds(input, d)
  {
    var r := Peek(input, c.pos);
    var n := Next(input, c);
    if IsWhitespace(r) then Goto(n, LexSkip(LexInlineTableValueEnd))
    else if IsNL(r) then Fail(n, NewlineInInlineTable)
    else if r == '#' then Goto(Push(n, LexInlineTableValueEnd), LexCommentStart)
    else if r == ',' then Goto(Ignore(n), LexInlineTableValue)
    else if r == '}' then Goto(n, LexInlineTableEnd)
    else Fail(n, NoInlineTableEnd)
  }

  function StepInlineTableEnd(input: string, c: Config): (d: Config)
    requires InBounds(input, c)
    ensures InBounds(input, d)
  {
    Pop(Emit(input, Ignore(c), ItemInlineTableEnd))
  }

  // ---- strings ----

  function StepString(input: string, c: Config): (d: Config)
    requires InBounds(input, c)
    ensures InBounds(input, d)
  {
    var r := Peek(input, c.pos);
    var n := Next(input, c);
    if r == EOF then Fail(n, UnexpectedEOF)
    else if IsNL(r) then Fail(n, NewlineInString)
    else if r == '\\' then Goto(Push(n, LexString), LexStringEscape)
    else if r == '"' then Pop(Ignore(Next(input, Emit(input, c, ItemString))))
    else Goto(n, LexString)
  }

  function StepMultilineString(input: string, c: Config): (d: Config)
    requires InBounds(input, c)
    ensures InBounds(input, d)
  {
    var r := Peek(input, c.pos);
    var n := Next(input, c);
    if r == EOF then Fail(n, UnexpectedEOF)
    else if r == '\\' then Goto(n, LexMultilineStringEscape)
    else if r == '"' && Peek(input, n.pos) == '"' && Peek(input, n.pos + 1) == '"' then
      var e := Emit(input, c, ItemMultilineString);
      Pop(e.(start := c.pos + 3, pos := c.pos + 3))
    else Goto(n, LexMultilineString)
  }

  function StepRawString(input: string, c: Config): (d: Config)
    requires InBounds(input, c)
    ensures InBounds(input, d)
  {
    var r := Peek(input, c.pos);
    var n := Next(input, c);
    if r == EOF then Fail(n, UnexpectedEOF)
    else if IsNL(r) then Fail(n, NewlineInString)
    else if r == '\'' then Pop(Ignore(Next(input, Emit(input, c, ItemRawString))))
    else Goto(n, LexRawString)
  }

  function StepMultilineRawString(input: string, c: Config): (d: Config)
    requires InBounds(input, c)
    ensures InBounds(input, d)
  {
    var r := Peek(input, c.pos);
    var n := Next(input, c);
    if r == EOF then Fail(n, UnexpectedEOF)
    else if r == '\'' && Peek(input, n.pos) == '\'' && Peek(input, n.pos + 1) == '\'' then
      var e := Emit(input, c, ItemRawMultilineString);
      Pop(e.(start := c.pos + 3, pos := c.pos + 3))
    else Goto(n, LexMultilineRawString)
  }

  function StepStringEscape(input: string, c: Config): (d: Config)
    requires InBounds(input, c)
    ensures InBounds(input, d)
  {
    var r := Peek(input, c.pos);
    var n := Next(input, c);
    if r == 'b' || r == 't' || r == 'n' || r == 'f' || r == 'r' || r == '"' || r == '\\' then Pop(n)
    else if r == 'u' then Goto(n, LexShortUnicodeEscape)
    else if r == 'U' then Goto(n, LexLongUnicodeEscape)
    else Fail(n, BadEscape)
  }

  function StepMultilineStringEscape(input: string, c: Config): (d: Config)
    requires InBounds(input, c)
    ensures InBounds(input, d)
  {
    if IsNL(Peek(input, c.pos)) then Goto(Next(input, c), LexMultilineString)
    else StepStringEscape(input, Push(c, LexMultilineString))
  }

  function StepUnicodeEscape(input: string, c: Config, n: nat, e: LexError): (d: Config)
    requires InBounds(input, c)
    ensures InBounds(input, d)
  {
    var k := HexDigits(input, c.pos, n);
    if k < n then Fail(Next(input, c.(pos := c.pos + k)), e) else Pop(c.(pos := c.pos + n))
  }

  // ---- numbers, dates, booleans ----

  function StepNumberOrDateStart(input: string, c: Config): (d: Config)
    requires InBounds(input, c)
    ensures InBounds(input, d)
  {
    var r := Peek(input, c.pos);
    var n := Next(input, c);
    if IsDigit(r) then Goto(n, LexNumberOrDate)
    else if r == '_' then Goto(n, LexNumber)
    else if r == 'e' || r == 'E' then Goto(n, LexFloat)
    else if r == '.' then Fail(n, FloatWithoutDigit)
    else Fail(n, NoDigit)
  }

  function StepNumberOrDate(input: string, c: Config): (d: Config)
    requires InBounds(input, c)
    ensures InBounds(input, d)
  {
    var r := Peek(input, c.pos);
    var n := Next(input, c);
    if IsDigit(r) then Goto(n, LexNumberOrDate)
    else if r == '-' then Goto(n, LexDatetime)
    else if r == '_' then Goto(n, LexNumber)
    else if r == '.' || r == 'e' || r == 'E' then Goto(n, LexFloat)
    else Pop(Emit(input, c, ItemInteger))
  }

  function StepDatetime(input: string, c: Config): (d: Config)
    requires InBounds(input, c)
    ensures InBounds(input, d)
  {
    var r := Peek(input, c.pos);
    if IsDigit(r) || r == '-' || r == 'T' || r == ':' || r == '.' || r == 'Z' then Goto(Next(input, c), LexDatetime)
    else Pop(Emit(input, c, ItemDatetime))
  }

  function StepNumberStart(input: string, c: Config): (d: Config)
    requires InBounds(input, c)
    ensures InBounds(input, d)
  {
    var r := Peek(input, c.pos);
    var n := Next(input, c);
    if IsDigit(r) then Goto(n, LexNumber)
    else if r == '.' then Fail(n, FloatWithoutDigit)
    else Fail(n, NoDigit)
  }

  function StepNumber(input: string, c: Config): (d: Config)
    requires InBounds(input, c)
    ensures InBounds(input, d)
  {
    var r := Peek(input, c.pos);
    var n := Next(input, c);
    if IsDigit(r) || r == '_' then Goto(n, LexNumber)
    else if r == '.' || r == 'e' || r == 'E' then Goto(n, LexFloat)
    else Pop(Emit(input, c, ItemInteger))
  }

  function StepFloat(input: string, c: Config): (d: Config)
    requires InBounds(input, c)
    ensures InBounds(input, d)
  {
    var r := Peek(input, c.pos);
    if IsDigit(r) || r == '_' || r == '.' || r == '-' || r == '+' || r == 'e' || r == 'E' then
      Goto(Next(input, c), LexFloat)
    else Pop(Emit(input, c, ItemFloat))
  }

  function StepBool(input: string, c: Config): (d: Config)
    requires InBounds(input, c)
    ensures InBounds(input, d)
  {
    var q := SkipLetters(input, c.pos);
    var s := input[c.pos..q];
    var n := c.(pos := q);
    if s == "true" || s == "false" then Pop(Emit(input, n, ItemBool)) else Fail(n, NoValue)
  }

  // ---- comments ----

  function StepCommentStart(input: string, c: Config): (d: Config)
    requires InBounds(input, c)
    ensures InBounds(input, d)
  {
    Goto(Emit(input, Ignore(c), ItemCommentStart), LexComment)
  }

  function StepComment(input: string, c: Config): (d: Config)
    requires InBounds(input, c)
    ensures InBounds(input, d)
  {
    var r := Peek(input, c.pos);
    if IsNL(r) || r == EOF then Pop(Emit(input, c, ItemText)) else Goto(Next(input, c), LexComment)
  }

  function StepSkip(input: string, c: Config, next: State): (d: Config)
    requires InBounds(input, c)
    ensures InBounds(input, d)
  {
    Goto(Ignore(c), next)
  }

  // One call of the state function the lexer is in.
  function Step(input: string, c: Config): (d: Config)
    requires InBounds(input, c)
    ensures InBounds(input, d)
  {
    match c.state
    case LexTop => StepTop(input, c)
    case LexTopEnd => StepTopEnd(input, c)
    case LexTableStart => StepTableStart(input, c)
    case LexTableEnd => StepTableEnd(input, c)
    case LexArrayTableEnd => StepArrayTableEnd(input, c)
    case LexTableNameStart => StepTableNameStart(input, c)
    case LexBareTableName => StepBareTableName(input, c)
    case LexTableNameEnd => StepTableNameEnd(input, c)
    case LexKeyStart => StepKeyStart(input, c)
    case LexBareKey => StepBareKey(input, c)
    case LexKeyEnd => StepKeyEnd(input, c)
    case LexValue => StepValue(input, c)
    case LexArrayValue => StepArrayValue(input, c)
    case LexArrayValueEnd => StepArrayValueEnd(input, c)
    case LexArrayEnd => StepArrayEnd(input, c)
    case LexInlineTableValue => StepInlineTableValue(input, c)
    case LexInlineTableValueEnd => StepInlineTableValueEnd(input, c)
    case LexInlineTableEnd => StepInlineTableEnd(input, c)
    case LexString => StepString(input, c)
    case LexMultilineString => StepMultilineString(input, c)
    case LexRawString => StepRawString(input, c)
    case LexMultilineRawString => StepMultilineRawString(input, c)
    case LexMultilineStringEscape => StepMultilineStringEscape(input, c)
    case LexStringEscape => StepStringEscape(input, c)
    case LexShortUnicodeEscape => StepUnicodeEscape(input, c, 4, BadShortEscape)
    case LexLongUnicodeEscape => StepUnicodeEscape(input, c, 8, BadLongEscape)
    case LexNumberOrDateStart => StepNumberOrDateStart(input, c)
    case LexNumberOrDate => StepNumberOrDate(input, c)
    case LexDatetime => StepDatetime(input, c)
    case LexNumberStart => StepNumberStart(input, c)
    case LexNumber => StepNumber(input, c)
    case LexFloat => StepFloat(input, c)
    case LexBool => StepBool(input, c)
    case LexCommentStart => StepCommentStart(input, c)
    case LexComment => StepComment(input, c)
    case LexSkip(next) => StepSkip(input, c, next)
    case LexDone => c
  }
}
