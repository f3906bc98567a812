/** Stack discipline, termination and whole runs of the lexer.

`Shape` says which continuation states are on the stack in each state; it is kept by every
step, so a state function never pops an empty stack.  `Measure` bounds the number of calls
still to come, so that runs can be written as a recursive function. */
module LexRun {
  import opened Runes
  import opened Tokens
  import opened LexSpec

  // ---- stack discipline ----

  // What a stack of continuations says about the place the lexer is at.
  datatype Place =
    | Bare        // empty: between top-level items
    | InHeader    // the end of a table header
    | AtTop       // a top-level key or value
    | InArray     // a value, or a comment after a value, of an open array
    | InTable     // the same in an open inline table
    | InName      // a quoted key or a quoted piece of a header
    | InString    // an escape sequence of a string
    | InComment   // a comment before a value or between top-level items
    | Broken

  // The place under one more frame.
  function Enter(s: State, p: Place): Place {
    if s.LexTopEnd? && p == Bare then AtTop
    else if s.LexArrayValueEnd? && TakesValue(p) then InArray
    else if s.LexInlineTableValueEnd? && TakesValue(p) then InTable
    else if s.LexKeyEnd? && TakesKey(p) then InName
    else if (s.LexTableEnd? || s.LexArrayTableEnd?) && p == Bare then InHeader
    else if s.LexTableNameEnd? && p == InHeader then InName
    else if (s.LexString? || s.LexMultilineString?) && TakesString(p) then InString
    else if s.LexTop? && p == Bare then InComment
    else if (s.LexArrayValue? || s.LexInlineTableValue?) && TakesValue(p) then InComment
    else Broken
  }

  // Values stand at top level, in an array or in an inline table.
  predicate TakesValue(p: Place) {
    p == AtTop || p == InArray || p == InTable
  }

  // Keys do not stand directly in an array.
  predicate TakesKey(p: Place) {
    p == AtTop || p == InTable
  }

  // Strings are values, keys, or pieces of a header.
  predicate TakesString(p: Place) {
    TakesValue(p) || p == InName
  }

  predicate TakesComment(p: Place) {
    p == InComment || p == InArray || p == InTable
  }

  function PlaceOf(k: Stack): Place {
    match k
    case Empty => Bare
    case Frame(s, rest) => Enter(s, PlaceOf(rest))
  }

  predicate IsQuote(r: char) {
    r == '"' || r == '\''
  }

  // The demand of a state on the place; r is the next rune.
  predicate Shape(s: State, p: Place, r: char) {
    if s.LexDone? then true
    else if s.LexTop? || s.LexTopEnd? || s.LexTableStart? || s.LexTableEnd? || s.LexArrayTableEnd? then p == Bare
    else if s.LexTableNameStart? || s.LexBareTableName? || s.LexTableNameEnd? then p == InHeader
    else if s.LexKeyStart? || s.LexBareKey? || s.LexKeyEnd? then TakesKey(p)
    else if s.LexValue? then TakesValue(p) || (p == InName && IsQuote(r))
    else if s.LexString? || s.LexMultilineString? || s.LexRawString? || s.LexMultilineRawString?
            || s.LexMultilineStringEscape? then TakesString(p)
    else if s.LexStringEscape? || s.LexShortUnicodeEscape? || s.LexLongUnicodeEscape? then p == InString
    else if s.LexNumberOrDateStart? then TakesValue(p) && IsDigit(r)
    else if s.LexBool? then TakesValue(p) && IsLetter(r)
    else if s.LexCommentStart? || s.LexComment? then TakesComment(p)
    else if s.LexSkip? then SkipShape(s.next, p)
    else TakesValue(p)
  }

  // The same for the states that skipped text leads to.
  predicate SkipShape(s: State, p: Place) {
    if s.LexTop? then p == Bare
    else if s.LexKeyStart? || s.LexKeyEnd? then TakesKey(p)
    else (s.LexValue? || s.LexArrayValue? || s.LexArrayValueEnd? || s.LexInlineTableValue? || s.LexInlineTableValueEnd?)
         && TakesValue(p)
  }

  predicate Inv(input: string, c: Config) {
    InBounds(input, c) && Shape(c.state, PlaceOf(c.stack), Peek(input, c.pos))
  }

  // ---- rank: how many calls may pass before a rune is consumed ----

  function Rank(s: State): nat {
    if s.LexDone? then 0
    else if s.LexCommentStart? then 7
    else if s.LexComment? then 6
    else if s.LexTop? || s.LexTableStart? || s.LexInlineTableValue? then 5
    else if s.LexTableNameStart? || s.LexKeyStart? || s.LexArrayValue? then 4
    else if s.LexValue? then 3
    else if s.LexTableEnd? || s.LexBareTableName? || s.LexBareKey? || s.LexArrayEnd? || s.LexInlineTableEnd?
            || s.LexNumberOrDate? || s.LexDatetime? || s.LexNumber? || s.LexFloat? || s.LexBool? then 2
    else if s.LexSkip? then (if s.next.LexTop? || s.next.LexInlineTableValue? then 6 else 5)
    else 1
  }

  const CALLS_PER_RUNE := 8

  function Measure(input: string, c: Config): nat
    requires InBounds(input, c)
  {
    CALLS_PER_RUNE * (|input| - c.pos) + Rank(c.state)
  }

  // What one call achieves: the measure drops, at most one token is emitted, and the state is
  // nil exactly after an EOF or error token, which is never the complaint about an empty stack.
  predicate Advances(input: string, c: Config, d: Config)
    requires InBounds(input, c) && InBounds(input, d)
  {
    && Measure(input, d) < Measure(input, c)
    && c.pos <= d.pos
    && Emits(c, d)
  }

  predicate Emits(c: Config, d: Config) {
    || (d.out == c.out && d.state != LexDone)
    || (&& |d.out| == |c.out| + 1
        && d.out == c.out + [d.out[|c.out|]]
        && d.out[|c.out|].typ != ItemError(NoStateToPop)
        && (IsTerminal(d.out[|c.out|]) <==> d.state == LexDone))
  }

  // What a pop can meet.
  lemma PopPlace(k: Stack)
    requires PlaceOf(k) != Broken && PlaceOf(k) != Bare
    ensures k.Frame?
    ensures PlaceOf(k) == InHeader ==> k.top == LexTableEnd || k.top == LexArrayTableEnd
    ensures PlaceOf(k) == InString ==> k.top == LexString || k.top == LexMultilineString
    ensures TakesComment(PlaceOf(k)) ==>
      k.top in {LexTop, LexArrayValue, LexArrayValueEnd, LexInlineTableValue, LexInlineTableValueEnd}
    ensures TakesString(PlaceOf(k)) ==>
      k.top in {LexTopEnd, LexArrayValueEnd, LexInlineTableValueEnd, LexKeyEnd, LexTableNameEnd}
    ensures forall r :: Shape(k.top, PlaceOf(k.rest), r)
  {
  }

  lemma CallItems(input: string, c: Config)
    requires Inv(input, c) && (c.state.LexTop? || c.state.LexTopEnd?)
    ensures Inv(input, Step(input, c))
    ensures Advances(input, c, Step(input, c))
  {
  }

  lemma CallHeaders(input: string, c: Config)
    requires Inv(input, c) && (c.state.LexTableStart? || c.state.LexTableEnd? || c.state.LexArrayTableEnd?)
    ensures Inv(input, Step(input, c))
    ensures Advances(input, c, Step(input, c))
  {
  }

  lemma CallTableNameStart(input: string, c: Config)
    requires Inv(input, c) && c.state.LexTableNameStart?
    ensures Inv(input, Step(input, c))
    ensures Advances(input, c, Step(input, c))
  {
    PopPlace(c.stack);
  }

  lemma CallBareTableName(input: string, c: Config)
    requires Inv(input, c) && c.state.LexBareTableName?
    ensures Inv(input, Step(input, c))
    ensures Advances(input, c, Step(input, c))
  {
  }

  lemma CallTableNameEnd(input: string, c: Config)
    requires Inv(input, c) && c.state.LexTableNameEnd?
    ensures Inv(input, Step(input, c))
    ensures Advances(input, c, Step(input, c))
  {
    PopPlace(c.stack);
  }

  lemma CallKeyStarts(input: string, c: Config)
    requires Inv(input, c) && (c.state.LexKeyStart?)
    ensures Inv(input, Step(input, c))
    ensures Advances(input, c, Step(input, c))
  {
  }

  lemma CallBareKey(input: string, c: Config)
    requires Inv(input, c) && c.state.LexBareKey?
    ensures Inv(input, Step(input, c))
    ensures Advances(input, c, Step(input, c))
  {
  }

  lemma CallKeyEnd(input: string, c: Config)
    requires Inv(input, c) && c.state.LexKeyEnd?
    ensures Inv(input, Step(input, c))
    ensures Advances(input, c, Step(input, c))
  {
  }

  lemma CallInlineTableValue(input: string, c: Config)
    requires Inv(input, c) && c.state.LexInlineTableValue?
    ensures Inv(input, Step(input, c))
    ensures Advances(input, c, Step(input, c))
  {
  }

  lemma CallInlineTableValueEnd(input: string, c: Config)
    requires Inv(input, c) && c.state.LexInlineTableValueEnd?
    ensures Inv(input, Step(input, c))
    ensures Advances(input, c, Step(input, c))
  {
  }

  lemma CallValues(input: string, c: Config)
    requires Inv(input, c) && (c.state.LexValue?)
    ensures Inv(input, Step(input, c))
    ensures Advances(input, c, Step(input, c))
  {
    hide PlaceOf;
  }

  lemma CallArrayValue(input: string, c: Config)
    requires Inv(input, c) && c.state.LexArrayValue?
    ensures Inv(input, Step(input, c))
    ensures Advances(input, c, Step(input, c))
  {
  }

  lemma CallArrayValueEnd(input: string, c: Config)
    requires Inv(input, c) && c.state.LexArrayValueEnd?
    ensures Inv(input, Step(input, c))
    ensures Advances(input, c, Step(input, c))
  {
  }

  lemma CallArrayEnd(input: string, c: Config)
    requires Inv(input, c) && c.state.LexArrayEnd?
    ensures Inv(input, Step(input, c))
    ensures Advances(input, c, Step(input, c))
  {
    PopPlace(c.stack);
  }

  lemma CallInlineTableEnd(input: string, c: Config)
    requires Inv(input, c) && c.state.LexInlineTableEnd?
    ensures Inv(input, Step(input, c))
    ensures Advances(input, c, Step(input, c))
  {
    PopPlace(c.stack);
  }

  lemma CallCommentStart(input: string, c: Config)
    requires Inv(input, c) && c.state.LexCommentStart?
    ensures Inv(input, Step(input, c))
    ensures Advances(input, c, Step(input, c))
  {
  }

  lemma CallComment(input: string, c: Config)
    requires Inv(input, c) && c.state.LexComment?
    ensures Inv(input, Step(input, c))
    ensures Advances(input, c, Step(input, c))
  {
    PopPlace(c.stack);
  }

  lemma CallStrings(input: string, c: Config)
    requires Inv(input, c) && (c.state.LexString?)
    ensures Inv(input, Step(input, c))
    ensures Advances(input, c, Step(input, c))
  {
    if Peek(input, c.pos) == '"' {
      PopPlace(c.stack);
    }
  }

  lemma CallRawStrings(input: string, c: Config)
    requires Inv(input, c) && (c.state.LexRawString?)
    ensures Inv(input, Step(input, c))
    ensures Advances(input, c, Step(input, c))
  {
    hide PlaceOf;
    PopPlace(c.stack);
  }

  lemma CallMultilines(input: string, c: Config)
    requires Inv(input, c) && (c.state.LexMultilineString?)
    ensures Inv(input, Step(input, c))
    ensures Advances(input, c, Step(input, c))
  {
    hide PlaceOf;
    PopPlace(c.stack);
  }

  lemma CallRawMultilines(input: string, c: Config)
    requires Inv(input, c) && (c.state.LexMultilineRawString?)
    ensures Inv(input, Step(input, c))
    ensures Advances(input, c, Step(input, c))
  {
    hide PlaceOf;
    PopPlace(c.stack);
  }

  lemma CallMultilineEscapes(input: string, c: Config)
    requires Inv(input, c) && (c.state.LexMultilineStringEscape?)
    ensures Inv(input, Step(input, c))
    ensures Advances(input, c, Step(input, c))
  {
  }

  lemma CallEscapes(input: string, c: Config)
    requires Inv(input, c) && (c.state.LexStringEscape?)
    ensures Inv(input, Step(input, c))
    ensures Advances(input, c, Step(input, c))
  {
    hide PlaceOf;
    PopPlace(c.stack);
  }

  lemma CallShortEscapes(input: string, c: Config)
    requires Inv(input, c) && (c.state.LexShortUnicodeEscape?)
    ensures Inv(input, Step(input, c))
    ensures Advances(input, c, Step(input, c))
  {
    hide PlaceOf;
    PopPlace(c.stack);
  }

  lemma CallLongEscapes(input: string, c: Config)
    requires Inv(input, c) && (c.state.LexLongUnicodeEscape?)
    ensures Inv(input, Step(input, c))
    ensures Advances(input, c, Step(input, c))
  {
    hide PlaceOf;
    PopPlace(c.stack);
  }

  lemma CallNumberStarts(input: string, c: Config)
    requires Inv(input, c) && (c.state.LexNumberOrDateStart? || c.state.LexNumberStart?)
    ensures Inv(input, Step(input, c))
    ensures Advances(input, c, Step(input, c))
  {
  }

  // The end of a number, date or boolean: the token is emitted.
  lemma ValueEnds(input: string, c: Config, typ: TokenType)
    requires InBounds(input, c) && TakesValue(PlaceOf(c.stack)) && Rank(c.state) == 2
    requires c.state != LexDone && typ in {ItemInteger, ItemFloat, ItemDatetime, ItemBool}
    ensures Inv(input, Pop(LexSpec.Emit(input, c, typ)))
    ensures Advances(input, c, Pop(LexSpec.Emit(input, c, typ)))
  {
    hide PlaceOf, Shape, SkipShape;
    PopPlace(c.stack);
  }

  lemma CallNumberOrDates(input: string, c: Config)
    requires Inv(input, c) && (c.state.LexNumberOrDate?)
    ensures Inv(input, Step(input, c))
    ensures Advances(input, c, Step(input, c))
  {
    ValueEnds(input, c, ItemInteger);
    hide PlaceOf, Pop, LexSpec.Emit;
  }

  lemma CallNumbers(input: string, c: Config)
    requires Inv(input, c) && (c.state.LexNumber?)
    ensures Inv(input, Step(input, c))
    ensures Advances(input, c, Step(input, c))
  {
    ValueEnds(input, c, ItemInteger);
    hide PlaceOf, Pop, LexSpec.Emit;
  }

  lemma CallFloats(input: string, c: Config)
    requires Inv(input, c) && (c.state.LexFloat?)
    ensures Inv(input, Step(input, c))
    ensures Advances(input, c, Step(input, c))
  {
    ValueEnds(input, c, ItemFloat);
    hide PlaceOf, Pop, LexSpec.Emit;
  }

  lemma CallDatetimes(input: string, c: Config)
    requires Inv(input, c) && (c.state.LexDatetime?)
    ensures Inv(input, Step(input, c))
    ensures Advances(input, c, Step(input, c))
  {
    ValueEnds(input, c, ItemDatetime);
    hide PlaceOf, Pop, LexSpec.Emit;
  }

  lemma CallBools(input: string, c: Config)
    requires Inv(input, c) && (c.state.LexBool?)
    ensures Inv(input, Step(input, c))
    ensures Advances(input, c, Step(input, c))
  {
    PopPlace(c.stack);
  }

  lemma StepAdvances(input: string, c: Config)
    requires Inv(input, c) && c.state != LexDone
    ensures Inv(input, Step(input, c))
    ensures Advances(input, c, Step(input, c))
  {
    match c.state
    case LexTop | LexTopEnd => CallItems(input, c);
    case LexTableStart | LexTableEnd | LexArrayTableEnd => CallHeaders(input, c);
    case LexTableNameStart => CallTableNameStart(input, c);
    case LexBareTableName => CallBareTableName(input, c);
    case LexTableNameEnd => CallTableNameEnd(input, c);
    case LexKeyStart => CallKeyStarts(input, c);
    case LexBareKey => CallBareKey(input, c);
    case LexKeyEnd => CallKeyEnd(input, c);
    case LexInlineTableValue => CallInlineTableValue(input, c);
    case LexInlineTableValueEnd => CallInlineTableValueEnd(input, c);
    case LexValue => CallValues(input, c);
    case LexArrayValue => CallArrayValue(input, c);
    case LexArrayValueEnd => CallArrayValueEnd(input, c);
    case LexArrayEnd => CallArrayEnd(input, c);
    case LexInlineTableEnd => CallInlineTableEnd(input, c);
    case LexCommentStart => CallCommentStart(input, c);
    case LexComment => CallComment(input, c);
    case LexString => CallStrings(input, c);
    case LexRawString => CallRawStrings(input, c);
    case LexMultilineString => CallMultilines(input, c);
    case LexMultilineRawString => CallRawMultilines(input, c);
    case LexMultilineStringEscape => CallMultilineEscapes(input, c);
    case LexStringEscape => CallEscapes(input, c);
    case LexShortUnicodeEscape => CallShortEscapes(input, c);
    case LexLongUnicodeEscape => CallLongEscapes(input, c);
    case LexNumberOrDateStart | LexNumberStart => CallNumberStarts(input, c);
    case LexNumberOrDate => CallNumberOrDates(input, c);
    case LexNumber => CallNumbers(input, c);
    case LexDatetime => CallDatetimes(input, c);
    case LexFloat => CallFloats(input, c);
    case LexBool => CallBools(input, c);
    case LexSkip(_) =>
  }

  // ---- whole runs ----

  // The configuration in which the lexer stops.
  function Run(input: string, c: Config): (d: Config)
    requires Inv(input, c)
    ensures Inv(input, d) && d.state == LexDone
    ensures c.pos <= d.pos && c.out <= d.out
    decreases Measure(input, c)
  {
    if c.state == LexDone then c else
      StepAdvances(input, c);
      Run(input, Step(input, c))
  }

  // The number of state-function calls of that run.
  function Calls(input: string, c: Config): nat
    requires Inv(input, c)
    decreases Measure(input, c)
  {
    if c.state == LexDone then 0 else
      StepAdvances(input, c);
      1 + Calls(input, Step(input, c))
  }

  function LexAll(input: string): (toks: seq<Token>) {
    Run(input, INIT).out
  }

  // One step of a run.
  lemma Unroll(input: string, c: Config)
    requires Inv(input, c) && c.state != LexDone
    ensures Inv(input, Step(input, c))
    ensures Run(input, c) == Run(input, Step(input, c))
  {
    StepAdvances(input, c);
  }

  lemma DoneRuns(input: string, c: Config)
    requires Inv(input, c)
    ensures c.state == LexDone ==> Run(input, c) == c
  {
  }

  // ---- main results ----

  lemma {:induction false} CallsBounded(input: string, c: Config)
    requires Inv(input, c)
    ensures Calls(input, c) <= Measure(input, c)
    decreases Measure(input, c)
  {
    if c.state != LexDone {
      StepAdvances(input, c);
      CallsBounded(input, Step(input, c));
    }
  }

  // The lexer stops after a number of calls that is linear in the length of the input.
  lemma LexerTerminates(input: string)
    ensures Calls(input, INIT) <= CALLS_PER_RUNE * (|input| + 1)
    ensures Run(input, INIT).state == LexDone
  {
    hide Run, Calls;
    CallsBounded(input, INIT);
  }

  // A token list of a finished run, seen from a configuration on the way: one terminal token,
  // at the end, and never the complaint about an empty stack.
  predicate EndsWell(toks: seq<Token>) {
    && toks != []
    && IsTerminal(toks[|toks| - 1])
    && forall i :: 0 <= i < |toks| ==>
         && toks[i].typ != ItemError(NoStateToPop)
         && (IsTerminal(toks[i]) ==> i == |toks| - 1)
  }

  lemma EndsWellEarlier(a: seq<Token>, b: seq<Token>, all: seq<Token>)
    requires b <= all && EndsWell(all[|b|..])
    requires a == b || (|b| == |a| + 1 && a <= b && !IsTerminal(b[|a|]))
    requires |b| > |a| ==> b[|a|].typ != ItemError(NoStateToPop)
    ensures EndsWell(all[|a|..])
  {
    if |b| > |a| {
      assert all[|a|..] == [b[|a|]] + all[|b|..];
    }
  }

  lemma {:induction false} RunEndsWell(input: string, c: Config)
    requires Inv(input, c) && c.state != LexDone
    ensures EndsWell(Run(input, c).out[|c.out|..])
    decreases Measure(input, c)
  {
    Unroll(input, c);
    StepAdvances(input, c);
    hide Step, Inv, Run, Measure;
    var d := Step(input, c);
    var all := Run(input, d).out;
    DoneRuns(input, d);
    if d.state != LexDone {
      RunEndsWell(input, d);
      EndsWellEarlier(c.out, d.out, all);
    }
  }

  // The nil state is reached only after an EOF or error token, and "no states to pop" is
  // never reported.
  lemma StackDiscipline(input: string)
    ensures EndsWell(LexAll(input))
  {
    RunEndsWell(input, INIT);
    assert LexAll(input)[0..] == LexAll(input);
  }
}
