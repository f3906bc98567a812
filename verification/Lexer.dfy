/** The lexer as an object, proved against the transition function of LexSpec.

The fields are those of the source: byte offsets, the line counter, the three remembered rune
widths, the end-of-input flag, the stack of continuations and the bounded token queue.  The
two panics of the source ("next called after EOF", "backed up too far") and a send on a full
queue are preconditions here, so that every call site proves that they cannot happen. */
module Lexers {
  import opened Runes
  import opened Tokens
  import opened LexSpec
  import opened LexRun

  ghost function StackOf(s: seq<State>): Stack {
    if s == [] then Empty else Frame(s[|s| - 1], StackOf(s[..|s| - 1]))
  }

  lemma StackOfPush(s: seq<State>, f: State)
    ensures StackOf(s + [f]) == Frame(f, StackOf(s))
  {
    assert (s + [f])[..|s|] == s;
  }

  // The rune at position p, its width and its effect on the line.
  lemma RuneThere(s: string, p: nat)
    requires p <= |s|
    ensures if p == |s| then Offset(s, p) >= Offset(s, |s|)
            else && Offset(s, p) < Offset(s, |s|)
                 && RuneAt(s, Offset(s, p)) == s[p]
                 && Offset(s, p + 1) == Offset(s, p) + Width(s[p])
                 && Line(s, p + 1) == Line(s, p) + if s[p] == '\n' then 1 else 0
  {
    if p < |s| {
      OffsetStrict(s, p, |s|);
      RuneAtOffset(s, p);
    }
  }

  predicate IsOpening(r: char) {
    r == '[' || r == '{' || r == '"' || r == '\''
  }

  // What StepValue does after an opening rune r.
  ghost function Opened(input: string, n: Config, r: char): Config
    requires InBounds(input, n)
  {
    if r == '[' then Goto(LexSpec.Emit(input, LexSpec.Ignore(n), ItemArray), LexArrayValue)
    else if r == '{' then Goto(LexSpec.Emit(input, LexSpec.Ignore(n), ItemInlineTableStart), LexInlineTableValue)
    else if Peek(input, n.pos) == r && Peek(input, n.pos + 1) == r then
      Goto(n.(start := n.pos + 2, pos := n.pos + 2), if r == '"' then LexMultilineString else LexMultilineRawString)
    else Goto(LexSpec.Ignore(n), if r == '"' then LexString else LexRawString)
  }

  lemma ValueOpens(input: string, c: Config)
    requires InBounds(input, c) && IsOpening(Peek(input, c.pos))
    ensures StepValue(input, c) == Opened(input, LexSpec.Next(input, c), Peek(input, c.pos))
  {
  }

  class Lexer {
    const input: string
    var start: nat
    var pos: nat
    var line: nat
    var state: State
    var items: seq<Item>
    const prevWidths: array<nat>
    var nprev: nat
    var atEOF: bool
    var stack: seq<State>

    // The abstract configuration, and how many tokens the parser has taken.
    ghost var abs: Config
    ghost var taken: nat

    ghost predicate Valid()
      reads this, prevWidths
    {
      && InBounds(input, abs)
      && abs.state == state
      && abs.stack == StackOf(stack)
      && start == Offset(input, abs.start)
      && pos == Offset(input, abs.pos)
      && line == Line(input, abs.pos)
      && prevWidths.Length == 3
      && nprev <= 3 && nprev <= abs.pos
      && (nprev >= 1 ==> prevWidths[0] == Width(input[abs.pos - 1]))
      && (nprev >= 2 ==> prevWidths[1] == Width(input[abs.pos - 2]))
      && (nprev >= 3 ==> prevWidths[2] == Width(input[abs.pos - 3]))
      && (atEOF ==> abs.pos == |input|)
      && |items| <= 2
      && |abs.out| == taken + |items|
      && (|items| >= 1 ==> items[0].tok == abs.out[taken])
      && (|items| == 2 ==> items[1].tok == abs.out[taken + 1])
    }

    // The effect of a state function that returns next: its abstract step is d, only a stopped
    // lexer has its end-of-input flag up, and what was emitted carries the current line.
    twostate predicate Called(next: State, d: Config)
      reads this, prevWidths
    {
      && Valid()
      && (next == LexDone || !atEOF)
      && abs.(state := next) == d
      && taken == old(taken)
      && (|items| >= 1 ==> items[0].line == line)
      && (|items| == 2 ==> items[1].line == line)
    }

    constructor (input: string)
      ensures Valid() && fresh(prevWidths)
      ensures this.input == input && abs == INIT && !atEOF && items == [] && taken == 0
    {
      this.input := input;
      start, pos, line, state := 0, 0, 1, LexTop;
      items, stack := [], [];
      prevWidths, nprev := new nat[3], 0;
      atEOF := false;
      abs, taken := INIT, 0;
    }

    method Push(s: State)
      requires Valid()
      modifies this`stack, this`abs
      ensures Valid()
      ensures abs == LexSpec.Push(old(abs), s)
    {
      hide StackOf, Offset, Line, Width;
      StackOfPush(stack, s);
      stack := stack + [s];
      abs := LexSpec.Push(abs, s);
    }

    method Pop() returns (next: State)
      requires Valid() && |items| < 2
      modifies this`stack, this`items, this`abs
      ensures Valid()
      ensures abs.(state := next) == LexSpec.Pop(old(abs))
      ensures old(abs).stack != Empty ==> items == old(items)
      ensures old(abs).stack == Empty ==> next == LexDone
                                          && |items| == |old(items)| + 1
                                          && items[..|old(items)|] == old(items) && items[|old(items)|].line == line
    {
      if |stack| == 0 {
        next := Errorf(NoStateToPop);
        return;
      }
      next := stack[|stack| - 1];
      stack := stack[..|stack| - 1];
      abs := abs.(stack := abs.stack.rest);
    }

    function Current(): string
      reads this
    {
      Slice(input, start, pos)
    }

    method Emit(typ: TokenType)
      requires Valid() && |items| < 2
      modifies this`items, this`start, this`abs
      ensures Valid()
      ensures abs == LexSpec.Emit(input, old(abs), typ)
      ensures |items| == |old(items)| + 1
      ensures items[..|old(items)|] == old(items) && items[|old(items)|].line == line
    {
      SliceOffsets(input, abs.start, abs.pos);
      items := items + [Item(Token(typ, Current()), line)];
      start := pos;
      abs := LexSpec.Emit(input, abs, typ);
    }

    method Next() returns (r: char)
      requires Valid() && !atEOF
      modifies this`pos, this`line, this`nprev, this`atEOF, this`abs, prevWidths
      ensures Valid()
      ensures r == Peek(input, old(abs).pos)
      ensures abs == LexSpec.Next(input, old(abs))
      ensures atEOF <==> old(abs).pos == |input|
      ensures nprev == old(nprev) + if atEOF || old(nprev) == 3 then 0 else 1
      ensures line == if r == '\n' then old(line) + 1 else old(line)
    {
      hide StackOf, Offset, Line, Width, RuneAt;
      RuneThere(input, abs.pos);
      if pos >= Offset(input, |input|) {
        atEOF := true;
        return EOF;
      }
      r := RuneAt(input, pos);
      if r == '\n' {
        line := line + 1;
      }
      var w := Width(r);
      Remember(w);
      pos := pos + w;
      abs := abs.(pos := abs.pos + 1);
    }

    // Enters a width into the ring of remembered widths.
    method Remember(w: nat)
      requires prevWidths.Length == 3 && nprev <= 3
      modifies this`nprev, prevWidths
      ensures prevWidths[0] == w && prevWidths[1] == old(prevWidths[0]) && prevWidths[2] == old(prevWidths[1])
      ensures nprev == old(nprev) + if old(nprev) == 3 then 0 else 1
    {
      prevWidths[2] := prevWidths[1];
      prevWidths[1] := prevWidths[0];
      if nprev < 3 {
        nprev := nprev + 1;
      }
      prevWidths[0] := w;
    }

    method Ignore()
      requires Valid()
      modifies this`start, this`abs
      ensures Valid()
      ensures abs == LexSpec.Ignore(old(abs))
    {
      start := pos;
      abs := LexSpec.Ignore(abs);
    }

    // Undoes the latest call of Next.
    method Backup()
      requires Valid()
      requires atEOF || (nprev >= 1 && abs.start < abs.pos)
      modifies this`pos, this`line, this`nprev, this`atEOF, this`abs, prevWidths
      ensures Valid() && !atEOF
      ensures old(atEOF) ==> abs == old(abs) && nprev == old(nprev) && line == old(line)
      ensures !old(atEOF) ==> abs == old(abs).(pos := old(abs).pos - 1) && nprev == old(nprev) - 1
                              && line == if input[abs.pos] == '\n' then old(line) - 1 else old(line)
    {
      if atEOF {
        atEOF := false;
        return;
      }
      var w := prevWidths[0];
      prevWidths[0] := prevWidths[1];
      prevWidths[1] := prevWidths[2];
      nprev, pos := nprev - 1, pos - w;
      abs := abs.(pos := abs.pos - 1);
      RuneAtOffset(input, abs.pos);
      if RuneAt(input, pos) == '\n' {
        line := line - 1;
      }
    }

    // A call of Next followed by Backup.
    method PeekRune() returns (r: char)
      requires Valid() && !atEOF
      modifies this`pos, this`line, this`nprev, this`atEOF, this`abs, prevWidths
      ensures Valid() && !atEOF
      ensures abs == old(abs) && line == old(line)
      ensures r == Peek(input, abs.pos)
    {
      hide StackOf, Offset, Line, Width;
      r := Next();
      Backup();
    }

    method Accept(valid: char) returns (ok: bool)
      requires Valid() && !atEOF && valid != EOF && valid != '\n'
      modifies this`pos, this`line, this`nprev, this`atEOF, this`abs, prevWidths
      ensures Valid() && !atEOF && line == old(line)
      ensures ok <==> Peek(input, old(abs).pos) == valid
      ensures abs == if ok then LexSpec.Next(input, old(abs)) else old(abs)
      ensures ok ==> nprev == 3 || nprev == old(nprev) + 1
      ensures !ok ==> nprev == 2 || nprev == old(nprev)
    {
      hide StackOf, Offset, Line, Width;
      var r := Next();
      if r == valid {
        return true;
      }
      Backup();
      return false;
    }

    // Accepts two more quotes after a first one, or none.
    method AcceptTwo(quote: char) returns (both: bool)
      requires Valid() && !atEOF && nprev >= 1 && abs.start < abs.pos && quote != EOF && quote != '\n'
      modifies this`pos, this`line, this`nprev, this`atEOF, this`abs, prevWidths
      ensures Valid() && !atEOF && line == old(line)
      ensures both <==> Peek(input, old(abs).pos) == quote && Peek(input, old(abs).pos + 1) == quote
      ensures both ==> abs == old(abs).(pos := old(abs).pos + 2) && nprev == 3
      ensures !both ==> abs == old(abs)
    {
      hide StackOf, Offset, Line, Width;
      both := Accept(quote);
      if both {
        both := Accept(quote);
        if !both {
          Backup();
        }
      }
    }

    // lx.skip(isWhitespace)
    method SkipWhitespace()
      requires Valid() && !atEOF
      modifies this`pos, this`line, this`nprev, this`atEOF, this`start, this`abs, prevWidths
      ensures Valid() && !atEOF
      ensures var q := SkipBlanks(input, old(abs).pos); abs == old(abs).(start := q, pos := q)
    {
      while true
        invariant Valid() && !atEOF
        invariant SkipBlanks(input, abs.pos) == SkipBlanks(input, old(abs).pos)
        invariant abs == old(abs).(pos := abs.pos) && old(abs).pos <= abs.pos
        decreases |input| - abs.pos
      {
        var r := Next();
        if IsWhitespace(r) {
          continue;
        }
        Backup();
        Ignore();
        return;
      }
    }

    method Errorf(e: LexError) returns (next: State)
      requires Valid() && |items| < 2
      modifies this`items, this`abs
      ensures Valid()
      ensures next == LexDone
      ensures abs.(state := next) == Fail(old(abs), e)
      ensures |items| == |old(items)| + 1
      ensures items[..|old(items)|] == old(items) && items[|old(items)|].line == line
    {
      items := items + [Item(Token(ItemError(e), []), line)];
      abs := Fail(abs, e).(state := abs.state);
      return LexDone;
    }

    // ---- top level ----

    lemma TextPending()
      requires Valid()
      ensures pos > start <==> abs.start < abs.pos
    {
      if abs.start < abs.pos {
        OffsetStrict(input, abs.start, abs.pos);
      }
    }

    method ScanTop() returns (next: State)
      requires Valid() && !atEOF && items == []
      modifies this, prevWidths
      ensures Called(next, StepTop(input, old(abs)))
    {
      hide StackOf, Offset, Line, Width;
      var r := Next();
      if IsWhitespace(r) || IsNL(r) {
        return LexSkip(LexTop);
      }
      if r == '#' {
        Push(LexTop);
        return LexCommentStart;
      } else if r == '[' {
        return LexTableStart;
      } else if r == EOF {
        TextPending();
        if pos > start {
          next := Errorf(UnexpectedEOF);
          return;
        }
        Emit(ItemEOF);
        return LexDone;
      }
      Backup();
      Push(LexTopEnd);
      return LexKeyStart;
    }

    method ScanTopEnd() returns (next: State)
      requires Valid() && !atEOF && items == []
      modifies this, prevWidths
      ensures Called(next, StepTopEnd(input, old(abs)))
    {
      hide StackOf, Offset, Line, Width;
      var r := Next();
      if r == '#' {
        Push(LexTop);
        return LexCommentStart;
      } else if IsWhitespace(r) {
        return LexTopEnd;
      } else if IsNL(r) {
        Ignore();
        return LexTop;
      } else if r == EOF {
        Emit(ItemEOF);
        return LexDone;
      }
      next := Errorf(NoTopLevelEnd);
    }

    // ---- table headers ----

    method ScanTableStart() returns (next: State)
      requires Valid() && !atEOF && items == []
      modifies this, prevWidths
      ensures Called(next, StepTableStart(input, old(abs)))
    {
      hide StackOf, Offset, Line, Width;
      var r := PeekRune();
      if r == '[' {
        r := Next();
        Emit(ItemArrayTableStart);
        Push(LexArrayTableEnd);
      } else {
        Emit(ItemTableStart);
        Push(LexTableEnd);
      }
      return LexTableNameStart;
    }

    method ScanTableEnd() returns (next: State)
      requires Valid() && !atEOF && items == []
      modifies this, prevWidths
      ensures Called(next, StepTableEnd(input, old(abs)))
    {
      hide StackOf, Offset, Line, Width;
      Emit(ItemTableEnd);
      return LexTopEnd;
    }

    method ScanArrayTableEnd() returns (next: State)
      requires Valid() && !atEOF && items == []
      modifies this, prevWidths
      ensures Called(next, StepArrayTableEnd(input, old(abs)))
    {
      hide StackOf, Offset, Line, Width;
      var r := Next();
      if r != ']' {
        next := Errorf(NoArrayTableEnd);
        return;
      }
      Emit(ItemArrayTableEnd);
      return LexTopEnd;
    }

    method ScanTableNameStart() returns (next: State)
      requires Valid() && !atEOF && items == []
      modifies this, prevWidths
      ensures Called(next, StepTableNameStart(input, old(abs)))
    {
      hide StackOf, Offset, Line, Width;
      SkipWhitespace();
      var r := PeekRune();
      if r == ']' || r == EOF {
        next := Errorf(EmptyTableName);
      } else if r == '.' {
        next := Errorf(EmptyTableName);
      } else if r == '"' || r == '\'' {
        Ignore();
        Push(LexTableNameEnd);
        return LexValue;
      } else {
        return LexBareTableName;
      }
    }

    method ScanBareTableName() returns (next: State)
      requires Valid() && !atEOF && items == []
      modifies this, prevWidths
      ensures Called(next, StepBareTableName(input, old(abs)))
    {
      hide StackOf, Offset, Line, Width;
      var r := Next();
      if IsBareKeyChar(r) {
        return LexBareTableName;
      }
      Backup();
      Emit(ItemText);
      return LexTableNameEnd;
    }

    method ScanTableNameEnd() returns (next: State)
      requires Valid() && !atEOF && items == []
      modifies this, prevWidths
      ensures Called(next, StepTableNameEnd(input, old(abs)))
    {
      hide StackOf, Offset, Line, Width;
      SkipWhitespace();
      var r := Next();
      if IsWhitespace(r) {
        return LexTableNameEnd;
      } else if r == '.' {
        Ignore();
        return LexTableNameStart;
      } else if r == ']' {
        next := Pop();
      } else {
        next := Errorf(NoTableNameEnd);
      }
    }

    // ---- keys ----

    method ScanKeyStart() returns (next: State)
      requires Valid() && !atEOF && items == []
      modifies this, prevWidths
      ensures Called(next, StepKeyStart(input, old(abs)))
    {
      hide StackOf, Offset, Line, Width;
      var r := PeekRune();
      if r == '=' {
        next := Errorf(NoKeyBeforeSeparator);
      } else if IsWhitespace(r) || IsNL(r) {
        r := Next();
        return LexSkip(LexKeyStart);
      } else if r == '"' || r == '\'' {
        Ignore();
        Emit(ItemKeyStart);
        Push(LexKeyEnd);
        return LexValue;
      } else {
        Ignore();
        Emit(ItemKeyStart);
        return LexBareKey;
      }
    }

    method ScanBareKey() returns (next: State)
      requires Valid() && !atEOF && items == []
      modifies this, prevWidths
      ensures Called(next, StepBareKey(input, old(abs)))
    {
      hide StackOf, Offset, Line, Width;
      var r := Next();
      if IsBareKeyChar(r) {
        return LexBareKey;
      } else if IsWhitespace(r) {
        Backup();
        Emit(ItemText);
        return LexKeyEnd;
      } else if r == '=' {
        Backup();
        Emit(ItemText);
        return LexKeyEnd;
      }
      next := Errorf(BadBareKey);
    }

    method ScanKeyEnd() returns (next: State)
      requires Valid() && !atEOF && items == []
      modifies this, prevWidths
      ensures Called(next, StepKeyEnd(input, old(abs)))
    {
      hide StackOf, Offset, Line, Width;
      var r := Next();
      if r == '=' {
        return LexSkip(LexValue);
      } else if IsWhitespace(r) {
        return LexSkip(LexKeyEnd);
      }
      next := Errorf(NoKeySeparator);
    }

    // ---- values ----

    method ScanValue() returns (next: State)
      requires Valid() && !atEOF && items == []
      modifies this, prevWidths
      ensures Called(next, StepValue(input, old(abs)))
    {
      hide StackOf, Offset, Line, Width, Opened;
      var r := Next();
      if IsWhitespace(r) {
        next := LexSkip(LexValue);
      } else if IsDigit(r) {
        Backup();
        next := LexNumberOrDateStart;
      } else if IsOpening(r) {
        ValueOpens(input, old(abs));
        next := ScanOpen(r);
      } else if r == '+' || r == '-' {
        next := LexNumberStart;
      } else if r == '.' {
        next := Errorf(FloatWithoutDigit);
      } else if IsLetter(r) {
        Backup();
        next := LexBool;
      } else {
        next := Errorf(NoValue);
      }
    }

    // The cases of ScanValue for an opening bracket, brace or quote that has been read.
    method ScanOpen(r: char) returns (next: State)
      requires Valid() && !atEOF && items == [] && nprev >= 1 && abs.start < abs.pos && IsOpening(r)
      modifies this, prevWidths
      ensures Called(next, Opened(input, old(abs), r))
    {
      assert InBounds(input, abs);
      hide *;
      if r == '[' {
        EmitMark(ItemArray);
        next := LexArrayValue;
      } else if r == '{' {
        EmitMark(ItemInlineTableStart);
        next := LexInlineTableValue;
      } else if r == '"' {
        next := ScanOpening('"', LexString, LexMultilineString);
      } else {
        next := ScanOpening('\'', LexRawString, LexMultilineRawString);
      }
    }

    // A token without text.
    method EmitMark(typ: TokenType)
      requires Valid() && items == []
      modifies this`start, this`items, this`abs
      ensures Valid()
      ensures abs == LexSpec.Emit(input, LexSpec.Ignore(old(abs)), typ)
      ensures |items| == 1 && items[0].line == line
    {
      hide StackOf, Offset, Line, Width;
      Ignore();
      Emit(typ);
    }

    // The two string cases of ScanValue, after the opening quote.
    method ScanOpening(quote: char, single: State, multiline: State) returns (next: State)
      requires Valid() && !atEOF && nprev >= 1 && abs.start < abs.pos && quote != EOF && quote != '\n'
      modifies this`pos, this`line, this`nprev, this`atEOF, this`start, this`abs, prevWidths
      ensures Valid() && !atEOF && line == old(line)
      ensures var p := old(abs).pos;
              if Peek(input, p) == quote && Peek(input, p + 1) == quote
              then next == multiline && abs == old(abs).(start := p + 2, pos := p + 2)
              else next == single && abs == LexSpec.Ignore(old(abs))
    {
      hide StackOf, Offset, Line, Width;
      var both := AcceptTwo(quote);
      Ignore();
      return if both then multiline else single;
    }

    // ---- arrays ----

    method ScanArrayValue() returns (next: State)
      requires Valid() && !atEOF && items == []
      modifies this, prevWidths
      ensures Called(next, StepArrayValue(input, old(abs)))
    {
      hide StackOf, Offset, Line, Width;
      var r := Next();
      if IsWhitespace(r) || IsNL(r) {
        return LexSkip(LexArrayValue);
      } else if r == '#' {
        Push(LexArrayValue);
        return LexCommentStart;
      } else if r == ',' {
        next := Errorf(UnexpectedComma);
        return;
      } else if r == ']' {
        return LexArrayEnd;
      }
      Backup();
      Push(LexArrayValueEnd);
      return LexValue;
    }

    method ScanArrayValueEnd() returns (next: State)
      requires Valid() && !atEOF && items == []
      modifies this, prevWidths
      ensures Called(next, StepArrayValueEnd(input, old(abs)))
    {
      hide StackOf, Offset, Line, Width;
      var r := Next();
      if IsWhitespace(r) || IsNL(r) {
        return LexSkip(LexArrayValueEnd);
      } else if r == '#' {
        Push(LexArrayValueEnd);
        return LexCommentStart;
      } else if r == ',' {
        Ignore();
        return LexArrayValue;
      } else if r == ']' {
        return LexArrayEnd;
      }
      next := Errorf(NoArrayEnd);
    }

    method ScanArrayEnd() returns (next: State)
      requires Valid() && !atEOF && items == []
      modifies this, prevWidths
      ensures Called(next, StepArrayEnd(input, old(abs)))
    {
      hide StackOf, Offset, Line, Width;
      Ignore();
      Emit(ItemArrayEnd);
      next := Pop();
    }

    // ---- inline tables ----

    method ScanInlineTableValue() returns (next: State)
      requires Valid() && !atEOF && items == []
      modifies this, prevWidths
      ensures Called(next, StepInlineTableValue(input, old(abs)))
    {
      hide StackOf, Offset, Line, Width;
      var r := Next();
      if IsWhitespace(r) {
        return LexSkip(LexInlineTableValue);
      } else if IsNL(r) {
        next := Errorf(NewlineInInlineTable);
        return;
      } else if r == '#' {
        Push(LexInlineTableValue);
        return LexCommentStart;
      } else if r == ',' {
        next := Errorf(UnexpectedComma);
        return;
      } else if r == '}' {
        return LexInlineTableEnd;
      }
      Backup();
      Push(LexInlineTableValueEnd);
      return LexKeyStart;
    }

    method ScanInlineTableValueEnd() returns (next: State)
      requires Valid() && !atEOF && items == []
      modifies this, prevWidths
      ensures Called(next, StepInlineTableValueEnd(input, old(abs)))
    {
      hide StackOf, Offset, Line, Width;
      var r := Next();
      if IsWhitespace(r) {
        return LexSkip(LexInlineTableValueEnd);
      } else if IsNL(r) {
        next := Errorf(NewlineInInlineTable);
        return;
      } else if r == '#' {
        Push(LexInlineTableValueEnd);
        return LexCommentStart;
      } else if r == ',' {
        Ignore();
        return LexInlineTableValue;
      } else if r == '}' {
        return LexInlineTableEnd;
      }
      next := Errorf(NoInlineTableEnd);
    }

    method ScanInlineTableEnd() returns (next: State)
      requires Valid() && !atEOF && items == []
      modifies this, prevWidths
      ensures Called(next, StepInlineTableEnd(input, old(abs)))
    {
      hide StackOf, Offset, Line, Width;
      Ignore();
      Emit(ItemInlineTableEnd);
      next := Pop();
    }

    // ---- strings ----

    // Backs up over a quote, emits the text before it, and skips it.
    method EmitBeforeQuote(quote: char, typ: TokenType)
      requires Valid() && !atEOF && items == [] && nprev >= 1 && abs.start < abs.pos
      requires quote != '\n' && input[abs.pos - 1] == quote
      modifies this`pos, this`line, this`nprev, this`atEOF, this`start, this`items, this`abs, prevWidths
      ensures Valid() && !atEOF
      ensures var p := old(abs).pos;
              abs == LexSpec.Emit(input, old(abs).(pos := p - 1), typ).(start := p, pos := p)
      ensures |items| == 1 && items[0].line == line
    {
      Backup();
      Emit(typ);
      var r := Next();
      Ignore();
    }

    method ScanString() returns (next: State)
      requires Valid() && !atEOF && items == []
      modifies this, prevWidths
      ensures Called(next, StepString(input, old(abs)))
    {
      hide StackOf, Offset, Line, Width;
      var r := Next();
      if r == EOF {
        next := Errorf(UnexpectedEOF);
        return;
      } else if IsNL(r) {
        next := Errorf(NewlineInString);
        return;
      } else if r == '\\' {
        Push(LexString);
        return LexStringEscape;
      } else if r == '"' {
        EmitBeforeQuote(r, ItemString);
        next := Pop();
        return;
      }
      return LexString;
    }

    // Backs up over three quotes, emits the text before them, and skips them.
    method EmitBeforeQuotes(quote: char, typ: TokenType)
      requires Valid() && !atEOF && items == [] && nprev == 3 && abs.start + 3 <= abs.pos
      requires quote != '\n' && forall i :: abs.pos - 3 <= i < abs.pos ==> input[i] == quote
      modifies this`pos, this`line, this`nprev, this`atEOF, this`start, this`items, this`abs, prevWidths
      ensures Valid() && !atEOF
      ensures var p := old(abs).pos;
              abs == LexSpec.Emit(input, old(abs).(pos := p - 3), typ).(start := p, pos := p)
      ensures |items| == 1 && items[0].line == line
    {
      hide StackOf, Offset, Line, Width;
      Backup();
      Backup();
      Backup();
      Emit(typ);
      var r := Next();
      r := Next();
      r := Next();
      Ignore();
    }

    // After one quote, looks for two more; if they are there, emits the text before the three.
    method ScanClosing(quote: char, typ: TokenType) returns (closed: bool)
      requires Valid() && !atEOF && items == [] && nprev >= 1 && abs.start < abs.pos
      requires quote != EOF && quote != '\n' && input[abs.pos - 1] == quote
      modifies this`pos, this`line, this`nprev, this`atEOF, this`start, this`items, this`abs, prevWidths
      ensures Valid() && !atEOF
      ensures closed <==> Peek(input, old(abs).pos) == quote && Peek(input, old(abs).pos + 1) == quote
      ensures closed ==>
        var p := old(abs).pos;
        && abs == LexSpec.Emit(input, old(abs).(pos := p - 1), typ).(start := p + 2, pos := p + 2)
        && |items| == 1 && items[0].line == line
      ensures !closed ==> abs == old(abs) && items == []
    {
      hide StackOf, Offset, Line, Width;
      closed := AcceptTwo(quote);
      if closed {
        EmitBeforeQuotes(quote, typ);
      }
    }

    method ScanMultilineString() returns (next: State)
      requires Valid() && !atEOF && items == []
      modifies this, prevWidths
      ensures Called(next, StepMultilineString(input, old(abs)))
    {
      assert InBounds(input, abs);
      hide Valid, StackOf, Offset, Line, Width;
      var r := Next();
      if r == EOF {
        next := Errorf(UnexpectedEOF);
        return;
      } else if r == '\\' {
        return LexMultilineStringEscape;
      } else if r == '"' {
        var closed := ScanClosing('"', ItemMultilineString);
        if closed {
          next := Pop();
          return;
        }
      }
      return LexMultilineString;
    }

    method ScanRawString() returns (next: State)
      requires Valid() && !atEOF && items == []
      modifies this, prevWidths
      ensures Called(next, StepRawString(input, old(abs)))
    {
      hide StackOf, Offset, Line, Width;
      var r := Next();
      if r == EOF {
        next := Errorf(UnexpectedEOF);
        return;
      } else if IsNL(r) {
        next := Errorf(NewlineInString);
        return;
      } else if r == '\'' {
        EmitBeforeQuote(r, ItemRawString);
        next := Pop();
        return;
      }
      return LexRawString;
    }

    method ScanMultilineRawString() returns (next: State)
      requires Valid() && !atEOF && items == []
      modifies this, prevWidths
      ensures Called(next, StepMultilineRawString(input, old(abs)))
    {
      assert InBounds(input, abs);
      hide Valid, StackOf, Offset, Line, Width;
      var r := Next();
      if r == EOF {
        next := Errorf(UnexpectedEOF);
        return;
      } else if r == '\'' {
        var closed := ScanClosing('\'', ItemRawMultilineString);
        if closed {
          next := Pop();
          return;
        }
      }
      return LexMultilineRawString;
    }

    method ScanMultilineStringEscape() returns (next: State)
      requires Valid() && !atEOF && items == []
      modifies this, prevWidths
      ensures Called(next, StepMultilineStringEscape(input, old(abs)))
    {
      hide StackOf, Offset, Line, Width;
      var r := Next();
      if IsNL(r) {
        return LexMultilineString;
      }
      Backup();
      Push(LexMultilineString);
      next := ScanStringEscape();
    }

    method ScanStringEscape() returns (next: State)
      requires Valid() && !atEOF && items == []
      modifies this, prevWidths
      ensures Called(next, StepStringEscape(input, old(abs)))
    {
      hide StackOf, Offset, Line, Width;
      var r := Next();
      if r == 'b' || r == 't' || r == 'n' || r == 'f' || r == 'r' || r == '"' || r == '\\' {
        next := Pop();
      } else if r == 'u' {
        return LexShortUnicodeEscape;
      } else if r == 'U' {
        return LexLongUnicodeEscape;
      } else {
        next := Errorf(BadEscape);
      }
    }

    // The loops of lexShortUnicodeEscape and lexLongUnicodeEscape.
    method ScanUnicodeEscape(n: nat, e: LexError) returns (next: State)
      requires Valid() && !atEOF && items == []
      modifies this, prevWidths
      ensures Called(next, StepUnicodeEscape(input, old(abs), n, e))
    {
      hide StackOf, Offset, Line, Width;
      var all := ReadDigits(n);
      if !all {
        next := Errorf(e);
        return;
      }
      next := Pop();
    }

    // The loop of ScanUnicodeEscape: n digits, or those up to the first other rune and that rune.
    method ReadDigits(n: nat) returns (all: bool)
      requires Valid() && !atEOF && items == []
      modifies this`pos, this`line, this`nprev, this`atEOF, this`abs, prevWidths
      ensures Valid() && (all ==> !atEOF)
      ensures var k := HexDigits(input, old(abs).pos, n);
              && (all <==> k == n)
              && abs == if all then old(abs).(pos := old(abs).pos + n)
                        else LexSpec.Next(input, old(abs).(pos := old(abs).pos + k))
    {
      hide StackOf, Offset, Line, Width;
      for i := 0 to n
        invariant Valid() && !atEOF
        invariant abs == old(abs).(pos := old(abs).pos + i)
        invariant HexDigits(input, old(abs).pos, n) == i + HexDigits(input, abs.pos, n - i)
      {
        var r := Next();
        if !IsHexadecimal(r) {
          return false;
        }
      }
      return true;
    }

    // ---- numbers, dates and booleans ----

    method ScanNumberOrDateStart() returns (next: State)
      requires Valid() && !atEOF && items == []
      modifies this, prevWidths
      ensures Called(next, StepNumberOrDateStart(input, old(abs)))
    {
      hide StackOf, Offset, Line, Width;
      var r := Next();
      if IsDigit(r) {
        return LexNumberOrDate;
      }
      if r == '_' {
        return LexNumber;
      } else if r == 'e' || r == 'E' {
        return LexFloat;
      } else if r == '.' {
        next := Errorf(FloatWithoutDigit);
        return;
      }
      next := Errorf(NoDigit);
    }

    method ScanNumberOrDate() returns (next: State)
      requires Valid() && !atEOF && items == []
      modifies this, prevWidths
      ensures Called(next, StepNumberOrDate(input, old(abs)))
    {
      hide StackOf, Offset, Line, Width;
      var r := Next();
      if IsDigit(r) {
        return LexNumberOrDate;
      }
      if r == '-' {
        return LexDatetime;
      } else if r == '_' {
        return LexNumber;
      } else if r == '.' || r == 'e' || r == 'E' {
        return LexFloat;
      }
      Backup();
      Emit(ItemInteger);
      next := Pop();
    }

    method ScanDatetime() returns (next: State)
      requires Valid() && !atEOF && items == []
      modifies this, prevWidths
      ensures Called(next, StepDatetime(input, old(abs)))
    {
      hide StackOf, Offset, Line, Width;
      var r := Next();
      if IsDigit(r) {
        return LexDatetime;
      }
      if r == '-' || r == 'T' || r == ':' || r == '.' || r == 'Z' {
        return LexDatetime;
      }
      Backup();
      Emit(ItemDatetime);
      next := Pop();
    }

    method ScanNumberStart() returns (next: State)
      requires Valid() && !atEOF && items == []
      modifies this, prevWidths
      ensures Called(next, StepNumberStart(input, old(abs)))
    {
      hide StackOf, Offset, Line, Width;
      var r := Next();
      if !IsDigit(r) {
        if r == '.' {
          next := Errorf(FloatWithoutDigit);
          return;
        }
        next := Errorf(NoDigit);
        return;
      }
      return LexNumber;
    }

    method ScanNumber() returns (next: State)
      requires Valid() && !atEOF && items == []
      modifies this, prevWidths
      ensures Called(next, StepNumber(input, old(abs)))
    {
      hide StackOf, Offset, Line, Width;
      var r := Next();
      if IsDigit(r) {
        return LexNumber;
      }
      if r == '_' {
        return LexNumber;
      } else if r == '.' || r == 'e' || r == 'E' {
        return LexFloat;
      }
      Backup();
      Emit(ItemInteger);
      next := Pop();
    }

    method ScanFloat() returns (next: State)
      requires Valid() && !atEOF && items == []
      modifies this, prevWidths
      ensures Called(next, StepFloat(input, old(abs)))
    {
      hide StackOf, Offset, Line, Width;
      var r := Next();
      if IsDigit(r) {
        return LexFloat;
      }
      if r == '_' || r == '.' || r == '-' || r == '+' || r == 'e' || r == 'E' {
        return LexFloat;
      }
      Backup();
      Emit(ItemFloat);
      next := Pop();
    }

    method ScanBool() returns (next: State)
      requires Valid() && !atEOF && items == []
      modifies this, prevWidths
      ensures Called(next, StepBool(input, old(abs)))
    {
      hide StackOf, Offset, Line, Width;
      var rs: string := [];
      while true
        invariant Valid() && !atEOF && items == [] && taken == old(taken)
        invariant abs == old(abs).(pos := abs.pos) && old(abs).pos <= abs.pos
        invariant rs == input[old(abs).pos..abs.pos]
        invariant SkipLetters(input, abs.pos) == SkipLetters(input, old(abs).pos)
        decreases |input| - abs.pos
      {
        var r := Next();
        if !IsLetter(r) {
          Backup();
          break;
        }
        rs := rs + [r];
      }
      if rs == "true" || rs == "false" {
        Emit(ItemBool);
        next := Pop();
        return;
      }
      next := Errorf(NoValue);
    }

    // ---- comments ----

    method ScanCommentStart() returns (next: State)
      requires Valid() && !atEOF && items == []
      modifies this, prevWidths
      ensures Called(next, StepCommentStart(input, old(abs)))
    {
      hide StackOf, Offset, Line, Width;
      Ignore();
      Emit(ItemCommentStart);
      return LexComment;
    }

    method ScanComment() returns (next: State)
      requires Valid() && !atEOF && items == []
      modifies this, prevWidths
      ensures Called(next, StepComment(input, old(abs)))
    {
      hide StackOf, Offset, Line, Width;
      var r := PeekRune();
      if IsNL(r) || r == EOF {
        Emit(ItemText);
        next := Pop();
        return;
      }
      r := Next();
      return LexComment;
    }

    // lexSkip: the closure that drops the pending text.
    method ScanSkip(after: State) returns (next: State)
      requires Valid() && !atEOF && items == []
      modifies this, prevWidths
      ensures Called(next, StepSkip(input, old(abs), after))
    {
      hide StackOf, Offset, Line, Width;
      Ignore();
      return after;
    }

    // lx.state(lx)
    method CallState() returns (next: State)
      requires Valid() && !atEOF && items == []
      requires state != LexDone
      modifies this, prevWidths
      ensures Called(next, Step(input, old(abs)))
    {
      assert InBounds(input, abs) && abs.state == state;
      hide Called, Valid;
      match state
      case LexTop => next := ScanTop();
      case LexTopEnd => next := ScanTopEnd();
      case LexTableStart => next := ScanTableStart();
      case LexTableEnd => next := ScanTableEnd();
      case LexArrayTableEnd => next := ScanArrayTableEnd();
      case LexTableNameStart => next := ScanTableNameStart();
      case LexBareTableName => next := ScanBareTableName();
      case LexTableNameEnd => next := ScanTableNameEnd();
      case LexKeyStart => next := ScanKeyStart();
      case LexBareKey => next := ScanBareKey();
      case LexKeyEnd => next := ScanKeyEnd();
      case LexValue => next := ScanValue();
      case LexArrayValue => next := ScanArrayValue();
      case LexArrayValueEnd => next := ScanArrayValueEnd();
      case LexArrayEnd => next := ScanArrayEnd();
      case LexInlineTableValue => next := ScanInlineTableValue();
      case LexInlineTableValueEnd => next := ScanInlineTableValueEnd();
      case LexInlineTableEnd => next := ScanInlineTableEnd();
      case LexString => next := ScanString();
      case LexMultilineString => next := ScanMultilineString();
      case LexRawString => next := ScanRawString();
      case LexMultilineRawString => next := ScanMultilineRawString();
      case LexMultilineStringEscape => next := ScanMultilineStringEscape();
      case LexStringEscape => next := ScanStringEscape();
      case LexNumberOrDateStart => next := ScanNumberOrDateStart();
      case LexNumberOrDate => next := ScanNumberOrDate();
      case LexDatetime => next := ScanDatetime();
      case LexNumberStart => next := ScanNumberStart();
      case LexNumber => next := ScanNumber();
      case LexFloat => next := ScanFloat();
      case LexBool => next := ScanBool();
      case LexCommentStart => next := ScanCommentStart();
      case LexComment => next := ScanComment();
      case LexShortUnicodeEscape => next := ScanUnicodeEscape(4, BadShortEscape);
      case LexLongUnicodeEscape => next := ScanUnicodeEscape(8, BadLongEscape);
      case LexSkip(after) => next := ScanSkip(after);
    }

    // ---- the token stream ----

    // What holds between calls of NextItem.
    ghost predicate Ready()
      reads this, prevWidths
    {
      && Valid()
      && Inv(input, abs)
      && Run(input, abs) == Run(input, INIT)
      && (state == LexDone || !atEOF)
      && |items| <= 1
      && (|items| == 1 ==> items[0].line == line)
    }

    // One round of the loop of NextItem, when no token is queued.
    method Advance()
      requires Ready() && items == [] && state != LexDone
      modifies this, prevWidths
      ensures Ready() && taken == old(taken)
      ensures Measure(input, abs) < Measure(input, old(abs))
    {
      hide Step, Run, Inv, Measure;
      ghost var d := Step(input, abs);
      StepAdvances(input, abs);
      Unroll(input, abs);
      var next := CallState();
      state := next;
      abs := d;
    }

    // Returns the next token of the input, with the line that the lexer has reached.
    method NextItem() returns (item: Item)
      requires Ready()
      requires taken < |LexAll(input)|
      modifies this, prevWidths
      ensures Ready()
      ensures taken == old(taken) + 1
      ensures item == Item(LexAll(input)[old(taken)], Line(input, abs.pos))
    {
      hide Run, Inv, Measure;
      while |items| == 0
        invariant Ready() && taken == old(taken)
        decreases Measure(input, abs)
      {
        DoneRuns(input, abs);
        Advance();
      }
      assert abs.out <= LexAll(input);
      item := items[0];
      items := items[1..];
      taken := taken + 1;
    }
  }
}
