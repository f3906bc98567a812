/** How the lexer reads strings of all four kinds, in both directions: every legal string is lexed
as one token, and where the lexer gets past a quote without an error there is a legal string. */
module LayoutStrings {
  import opened Tokens
  import opened LexSpec
  import opened LexRun
  import opened LexPrinted
  import opened Layout

  // ---- runs without an error ----

  // The run from c goes to the end of the input.
  ghost predicate Lives(input: string, c: Config) {
    Inv(input, c) && EndsAtEOF(Run(input, c).out)
  }

  predicate EndsAtEOF(toks: seq<Token>) {
    toks != [] && toks[|toks| - 1].typ.ItemEOF?
  }

  lemma LivesOn(input: string, c: Config, d: Config)
    requires Lives(input, c) && Reaches(input, c, d)
    ensures Lives(input, d)
  {
    ReachesSameEnd(input, c, d);
  }

  lemma LivesStep(input: string, c: Config)
    requires Lives(input, c) && c.state != LexDone
    ensures Inv(input, c) && Lives(input, Step(input, c)) && Reaches(input, c, Step(input, c))
    ensures Step(input, c).state == LexDone ==> EndsAtEOF(Step(input, c).out)
  {
    hide Step, Shape;
    Unroll(input, c);
    DoneRuns(input, Step(input, c));
  }

  // ---- parts of a text ----

  lemma RuneOf(input: string, p: nat, w: string, i: nat)
    requires HasAt(input, p, w) && i < |w|
    ensures p + i < |input| && input[p + i] == w[i]
  {
    assert input[p..p + |w|][i] == input[p + i];
  }

  lemma Behind(input: string, p: nat, w: string, n: nat)
    requires HasAt(input, p, w) && n <= |w|
    ensures HasAt(input, p + n, w[n..])
  {
    assert w == w[..n] + w[n..];
    HasSplit(input, p, w[..n], w[n..]);
  }

  lemma Sliced(input: string, p: nat, w: string, a: nat, b: nat)
    requires HasAt(input, p, w) && a <= b <= |w|
    ensures input[p + a..p + b] == w[a..b]
  {
    forall i | 0 <= i < b - a
      ensures input[p + a..p + b][i] == w[a..b][i]
    {
      RuneOf(input, p, w, a + i);
    }
  }

  // ---- escape sequences ----

  predicate IsEscaping(s: State) {
    s == LexString || s == LexMultilineString
  }

  // The configuration after a backslash.
  function Escaping(k: Stack, s: State, start: nat, p: nat, out: seq<Token>): Config {
    Config(LexStringEscape, Frame(s, k), start, p + 1, out)
  }

  lemma AfterBackslash(input: string, k: Stack, s: State, start: nat, p: nat, out: seq<Token>)
    requires IsEscaping(s) && TakesString(PlaceOf(k)) && start <= p < |input| && input[p] == '\\'
    requires s == LexMultilineString ==> !IsBreak(Peek(input, p + 1))
    ensures Inv(input, Escaping(k, s, start, p, out))
    ensures Reaches(input, Config(s, k, start, p, out), Step(input, Escaping(k, s, start, p, out)))
  {
    hide Closed, PlaceOf, HexDigits, StepStringEscape, Step;
    var c, e := Config(s, k, start, p, out), Escaping(k, s, start, p, out);
    StringPlace(s, k);
    if s == LexString {
      BackslashStep(input, k, start, p, out);
      StepTo(input, c, e);
      StepTo(input, e, Step(input, e));
    } else {
      var m := Config(LexMultilineStringEscape, k, start, p + 1, out);
      MultilineBackslashStep(input, k, start, p, out);
      StepTo(input, c, m);
      StepTo(input, m, Step(input, e));
    }
  }

  lemma BackslashStep(input: string, k: Stack, start: nat, p: nat, out: seq<Token>)
    requires start <= p < |input| && input[p] == '\\'
    ensures Step(input, Config(LexString, k, start, p, out)) == Escaping(k, LexString, start, p, out)
  {
  }

  lemma MultilineBackslashStep(input: string, k: Stack, start: nat, p: nat, out: seq<Token>)
    requires start <= p < |input| && input[p] == '\\' && !IsBreak(Peek(input, p + 1))
    ensures var m := Config(LexMultilineStringEscape, k, start, p + 1, out);
            && Step(input, Config(LexMultilineString, k, start, p, out)) == m
            && Step(input, m) == Step(input, Escaping(k, LexMultilineString, start, p, out))
  {
  }

  // What one step makes of the rune after the backslash.
  predicate IsShort(c: char) {
    c == 'b' || c == 't' || c == 'n' || c == 'f' || c == 'r' || c == '"' || c == '\\'
  }

  lemma EscapingStep(input: string, k: Stack, s: State, start: nat, p: nat, out: seq<Token>)
    requires start <= p && p + 1 <= |input|
    ensures var d, r := Step(input, Escaping(k, s, start, p, out)), Peek(input, p + 1);
            if IsShort(r) then d == Config(s, k, start, p + 2, out)
            else if r == 'u' then d == Config(LexShortUnicodeEscape, Frame(s, k), start, p + 2, out)
            else if r == 'U' then d == Config(LexLongUnicodeEscape, Frame(s, k), start, p + 2, out)
            else d.state == LexDone && !EndsAtEOF(d.out)
  {
  }

  function Hexing(n: nat): State {
    if n == 4 then LexShortUnicodeEscape else LexLongUnicodeEscape
  }

  lemma {:induction false} HexCount(input: string, p: nat, n: nat)
    requires p <= |input|
    ensures HexDigits(input, p, n) == n <==> p + n <= |input| && All(input[p..p + n], IsHexRune)
    decreases n
  {
    if n > 0 && p < |input| {
      HexCount(input, p + 1, n - 1);
      if p + n <= |input| {
        assert input[p..p + n] == [input[p]] + input[p + 1..p + n];
        HeadAndTail(input[p], input[p + 1..p + n]);
      }
    }
  }

  lemma HeadAndTail(c: char, s: string)
    ensures All([c] + s, IsHexRune) <==> IsHexRune(c) && All(s, IsHexRune)
  {
    var t := [c] + s;
    assert t[0] == c && t[1..] == s;
    if All(t, IsHexRune) {
      forall i | 0 <= i < |s|
        ensures IsHexRune(s[i])
      {
        assert s[i] == t[i + 1];
      }
    }
  }

  lemma StringPlace(s: State, k: Stack)
    requires IsEscaping(s) && TakesString(PlaceOf(k))
    ensures PlaceOf(Frame(s, k)) == InString
  {
  }

  lemma HexStep(input: string, k: Stack, s: State, start: nat, p: nat, n: nat, out: seq<Token>)
    requires IsEscaping(s) && TakesString(PlaceOf(k)) && start <= p <= |input| && (n == 4 || n == 8)
    ensures Inv(input, Config(Hexing(n), Frame(s, k), start, p, out))
    ensures var d := Step(input, Config(Hexing(n), Frame(s, k), start, p, out));
            if p + n <= |input| && All(input[p..p + n], IsHexRune) then d == Config(s, k, start, p + n, out)
            else d.state == LexDone && !EndsAtEOF(d.out)
  {
    hide PlaceOf, HexDigits;
    HexCount(input, p, n);
    assert PlaceOf(Frame(s, k)) == InString by {
      StringPlace(s, k);
    }
  }

  // The escape sequence at p in the input is that at the head of the text there.
  lemma EscapeHead(input: string, p: nat, w: string)
    requires HasAt(input, p, w) && EscapeLength(w) > 0
    ensures var n := EscapeLength(w);
            && p + n <= |input| && input[p] == '\\' && p + 1 < |input|
            && (if input[p + 1] == 'u' then n == 6 else if input[p + 1] == 'U' then n == 10
                else n == 2 && IsShort(input[p + 1]))
            && (n > 2 ==> input[p + 2..p + n] == w[2..n])
  {
    RuneOf(input, p, w, 0);
    RuneOf(input, p, w, 1);
    var n := EscapeLength(w);
    if n > 2 {
      Sliced(input, p, w, 2, n);
    }
  }

  lemma EscapeForward(input: string, k: Stack, s: State, start: nat, p: nat, w: string, out: seq<Token>)
    requires IsEscaping(s) && TakesString(PlaceOf(k)) && start <= p && HasAt(input, p, w) && EscapeLength(w) > 0
    ensures Reaches(input, Config(s, k, start, p, out), Config(s, k, start, p + EscapeLength(w), out))
  {
    hide Reaches, Step, PlaceOf, HasAt, EscapeLength, HexDigits;
    var n := EscapeLength(w);
    EscapeHead(input, p, w);
    AfterBackslash(input, k, s, start, p, out);
    EscapingStep(input, k, s, start, p, out);
    if n > 2 {
      EscapeHexes(w);
      HexStep(input, k, s, start, p + 2, n - 2, out);
      var h := Config(Hexing(n - 2), Frame(s, k), start, p + 2, out);
      StepTo(input, h, Config(s, k, start, p + n, out));
      Chain(input, Config(s, k, start, p, out), h, Config(s, k, start, p + n, out));
    }
  }

  lemma EscapeHexes(w: string)
    requires EscapeLength(w) > 2
    ensures EscapeLength(w) == 6 || EscapeLength(w) == 10
    ensures All(w[2..EscapeLength(w)], IsHexRune)
  {
  }

  lemma EscapeFind(input: string, k: Stack, s: State, start: nat, p: nat, out: seq<Token>)
    requires IsEscaping(s) && TakesString(PlaceOf(k)) && start <= p < |input| && input[p] == '\\'
    requires s == LexMultilineString ==> !IsBreak(Peek(input, p + 1))
    requires Lives(input, Config(s, k, start, p, out))
    ensures EscapeLength(input[p..]) > 0
    ensures Lives(input, Config(s, k, start, p + EscapeLength(input[p..]), out))
  {
    hide Reaches, Step, PlaceOf, HexDigits, Lives, Inv;
    var c, e, w := Config(s, k, start, p, out), Escaping(k, s, start, p, out), input[p..];
    AfterBackslash(input, k, s, start, p, out);
    EscapingStep(input, k, s, start, p, out);
    LivesOn(input, c, Step(input, e));
    DoneEnds(input, Step(input, e));
    var r := Peek(input, p + 1);
    assert r == 'u' || r == 'U' || IsShort(r);
    assert w[1] == input[p + 1];
    if r == 'u' || r == 'U' {
      var n := if r == 'u' then 4 else 8;
      var h := Config(Hexing(n), Frame(s, k), start, p + 2, out);
      HexStep(input, k, s, start, p + 2, n, out);
      LivesStep(input, h);
      assert w[2..2 + n] == input[p + 2..p + 2 + n];
    }
  }

  lemma DoneEnds(input: string, d: Config)
    requires Lives(input, d)
    ensures d.state == LexDone ==> EndsAtEOF(d.out)
  {
  }

  // An escape sequence that lies in the first m runes does not depend on the rest.
  lemma EscapeLocal(w: string, m: nat)
    requires EscapeLength(w) > 0 && m <= |w| && EscapeLength(w) <= m
    ensures EscapeLength(w[..m]) == EscapeLength(w)
    ensures w[..m][EscapeLength(w)..] == w[EscapeLength(w)..m]
  {
    var n := EscapeLength(w);
    if n > 2 {
      assert w[..m][2..n] == w[2..n];
    }
  }

  // ---- basic strings ----

  lemma PlainForward(input: string, k: Stack, start: nat, p: nat, out: seq<Token>)
    requires start <= p < |input| && TakesString(PlaceOf(k))
    requires input[p] != '\\' && input[p] != '"' && !IsNul(input[p]) && !IsBreak(input[p])
    ensures Reaches(input, Config(LexString, k, start, p, out), Config(LexString, k, start, p + 1, out))
  {
    hide PlaceOf;
    StepTo(input, Config(LexString, k, start, p, out), Config(LexString, k, start, p + 1, out));
  }

  lemma {:induction false} BasicForward(input: string, k: Stack, start: nat, p: nat, w: string, out: seq<Token>)
    requires start <= p && HasAt(input, p, w) && BasicText(w) && TakesString(PlaceOf(k))
    ensures Reaches(input, Config(LexString, k, start, p, out), Config(LexString, k, start, p + |w|, out))
    decreases |w|
  {
    hide Closed, PlaceOf, HasAt;
    if w != [] {
      var n := if w[0] == '\\' then EscapeLength(w) else 1;
      Behind(input, p, w, n);
      RuneOf(input, p, w, 0);
      if w[0] == '\\' {
        EscapeForward(input, k, LexString, start, p, w, out);
      } else {
        PlainForward(input, k, start, p, out);
      }
      BasicForward(input, k, start, p + n, w[n..], out);
    }
  }

  // What a step makes of a rune of a basic string that is no backslash.
  lemma BasicStep(input: string, k: Stack, start: nat, p: nat, out: seq<Token>)
    requires start <= p <= |input| && Peek(input, p) != '\\' && k.Frame?
    ensures var d, r := Step(input, Config(LexString, k, start, p, out)), Peek(input, p);
            if IsNul(r) || IsBreak(r) then d.state == LexDone && !EndsAtEOF(d.out)
            else if r == '"' then d == Popped(k, p + 1, out + [Token(ItemString, input[start..p])])
            else d == Config(LexString, k, start, p + 1, out)
  {
  }

  lemma {:induction false} BasicFind(input: string, k: Stack, start: nat, p: nat, out: seq<Token>) returns (q: nat)
    requires start <= p <= |input| && TakesString(PlaceOf(k)) && Lives(input, Config(LexString, k, start, p, out))
    ensures p <= q < |input| && input[q] == '"' && BasicText(input[p..q])
    decreases |input| - p
  {
    hide Step, PlaceOf, Lives, EscapeLength, Reaches;
    q := p;
    var c := Config(LexString, k, start, p, out);
    PopPlace(k);
    if Peek(input, p) == '\\' {
      EscapeFind(input, k, LexString, start, p, out);
      var n := EscapeLength(input[p..]);
      q := BasicFind(input, k, start, p + n, out);
      EscapeLocal(input[p..], q - p);
      assert input[p..q] == input[p..][..q - p] && input[p..q][n..] == input[p + n..q];
    } else {
      BasicStep(input, k, start, p, out);
      LivesStep(input, c);
      if Peek(input, p) == '"' {
        assert input[p..p] == [];
      } else {
        q := BasicFind(input, k, start, p + 1, out);
        assert input[p..q][0] == input[p] && input[p..q][1..] == input[p + 1..q];
      }
    }
  }

  // ---- multi-line basic strings ----

  predicate ThreeAt(input: string, p: nat, quote: char) {
    p + 3 <= |input| && input[p] == quote && input[p + 1] == quote && input[p + 2] == quote
  }

  lemma MultilineStep(input: string, k: Stack, start: nat, p: nat, out: seq<Token>)
    requires start <= p <= |input| && Peek(input, p) != '\\' && k.Frame?
    ensures var d := Step(input, Config(LexMultilineString, k, start, p, out));
            if ThreeAt(input, p, '"') then
              d == Popped(k, p + 3, out + [Token(ItemMultilineString, input[start..p])])
            else if IsNul(Peek(input, p)) then d.state == LexDone && !EndsAtEOF(d.out)
            else d == Config(LexMultilineString, k, start, p + 1, out)
  {
  }

  // A backslash before a line break.
  lemma Continues(input: string, k: Stack, start: nat, p: nat, out: seq<Token>)
    requires start <= p && p + 1 < |input| && TakesString(PlaceOf(k)) && input[p] == '\\' && IsBreak(input[p + 1])
    ensures Reaches(input, Config(LexMultilineString, k, start, p, out),
                    Config(LexMultilineString, k, start, p + 2, out))
  {
    hide PlaceOf;
    var m := Config(LexMultilineStringEscape, k, start, p + 1, out);
    StepTo(input, Config(LexMultilineString, k, start, p, out), m);
    StepTo(input, m, Config(LexMultilineString, k, start, p + 2, out));
  }

  // What a piece of a multi-line string is: n runes at the head of w.
  function MultilinePiece(w: string): (n: nat)
    requires w != []
    ensures n <= |w|
  {
    if w[0] != '\\' then 1 else if |w| >= 2 && IsBreak(w[1]) then 2 else EscapeLength(w)
  }

  lemma MultilineSplit(w: string)
    requires MultilineText(w) && w != []
    ensures MultilinePiece(w) > 0 && MultilineText(w[MultilinePiece(w)..])
    ensures w[0] != '\\' ==> !IsNul(w[0]) && !(w[0] == '"' && Closes(w[1..], '"'))
  {
  }

  lemma NotClosing(input: string, p: nat, w: string, quote: char)
    requires w != [] && HasAt(input, p, w + [quote, quote, quote]) && !(w[0] == quote && Closes(w[1..], quote))
    ensures !ThreeAt(input, p, quote)
  {
    var s := w + [quote, quote, quote];
    RuneOf(input, p, s, 0);
    RuneOf(input, p, s, 1);
    RuneOf(input, p, s, 2);
    if |w| > 1 {
      assert w[1..][0] == w[1] && (|w| > 2 ==> w[1..][1] == w[2]);
    }
  }

  // One piece of such a text.
  lemma PieceForward(input: string, k: Stack, start: nat, p: nat, w: string, out: seq<Token>)
    requires start <= p && HasAt(input, p, w + "\"\"\"") && MultilineText(w) && TakesString(PlaceOf(k)) && w != []
    ensures Reaches(input, Config(LexMultilineString, k, start, p, out),
                    Config(LexMultilineString, k, start, p + MultilinePiece(w), out))
  {
    hide Closed, PlaceOf, HasAt, Step, EscapeLength, Closes, MultilineText;
    var s := w + "\"\"\"";
    PopPlace(k);
    MultilineSplit(w);
    HasSplit(input, p, w, "\"\"\"");
    RuneOf(input, p, w, 0);
    RuneOf(input, p, s, 1);
    if w[0] != '\\' {
      NotClosing(input, p, w, '"');
      MultilineStep(input, k, start, p, out);
      StepTo(input, Config(LexMultilineString, k, start, p, out), Config(LexMultilineString, k, start, p + 1, out));
    } else if |w| >= 2 && IsBreak(w[1]) {
      Continues(input, k, start, p, out);
    } else {
      EscapeForward(input, k, LexMultilineString, start, p, w, out);
    }
  }

  lemma {:induction false} MultilineForward(input: string, k: Stack, start: nat, p: nat, w: string, out: seq<Token>)
    requires start <= p && HasAt(input, p, w + "\"\"\"") && MultilineText(w) && TakesString(PlaceOf(k))
    ensures Reaches(input, Config(LexMultilineString, k, start, p, out),
                    Config(LexMultilineString, k, start, p + |w|, out))
    decreases |w|
  {
    hide Closed, PlaceOf, HasAt, MultilineText, MultilinePiece;
    if w != [] {
      var n, s := MultilinePiece(w), w + "\"\"\"";
      MultilineSplit(w);
      Behind(input, p, s, n);
      assert s[n..] == w[n..] + "\"\"\"";
      PieceForward(input, k, start, p, w, out);
      MultilineForward(input, k, start, p + n, w[n..], out);
    }
  }

  lemma {:induction false} MultilineFind(input: string, k: Stack, start: nat, p: nat, out: seq<Token>) returns (q: nat)
    requires start <= p <= |input| && TakesString(PlaceOf(k))
    requires Lives(input, Config(LexMultilineString, k, start, p, out))
    ensures p <= q && ThreeAt(input, q, '"') && MultilineText(input[p..q])
    decreases |input| - p
  {
    hide Step, PlaceOf, Lives, EscapeLength, Reaches;
    q := p;
    var c := Config(LexMultilineString, k, start, p, out);
    PopPlace(k);
    if Peek(input, p) != '\\' {
      MultilineStep(input, k, start, p, out);
      LivesStep(input, c);
      if ThreeAt(input, p, '"') {
        assert input[p..p] == [];
      } else {
        q := MultilineFind(input, k, start, p + 1, out);
        assert input[p..q][0] == input[p] && input[p..q][1..] == input[p + 1..q];
        StillOpen(input, p, q, '"');
      }
    } else if p + 1 < |input| && IsBreak(input[p + 1]) {
      Continues(input, k, start, p, out);
      LivesOn(input, c, Config(LexMultilineString, k, start, p + 2, out));
      q := MultilineFind(input, k, start, p + 2, out);
      assert input[p..q][0] == input[p] && input[p..q][1] == input[p + 1] && input[p..q][2..] == input[p + 2..q];
    } else {
      EscapeFind(input, k, LexMultilineString, start, p, out);
      var n := EscapeLength(input[p..]);
      q := MultilineFind(input, k, start, p + n, out);
      EscapeLocal(input[p..], q - p);
      assert input[p..q] == input[p..][..q - p] && input[p..q][n..] == input[p + n..q];
    }
  }

  // A text that ends before three quotes, and does not begin with three of them.
  lemma StillOpen(input: string, p: nat, q: nat, quote: char)
    requires p < q && ThreeAt(input, q, quote) && !ThreeAt(input, p, quote)
    ensures !(input[p..q][0] == quote && Closes(input[p..q][1..], quote))
  {
    var w := input[p..q];
    assert |w| > 1 ==> w[1..][0] == input[p + 1];
    assert |w| > 2 ==> w[1..][1] == input[p + 2];
  }

  // ---- raw strings ----

  lemma RawStep(input: string, k: Stack, start: nat, p: nat, out: seq<Token>)
    requires start <= p <= |input| && k.Frame?
    ensures var d, r := Step(input, Config(LexRawString, k, start, p, out)), Peek(input, p);
            if IsNul(r) || IsBreak(r) then d.state == LexDone && !EndsAtEOF(d.out)
            else if r == '\'' then d == Popped(k, p + 1, out + [Token(ItemRawString, input[start..p])])
            else d == Config(LexRawString, k, start, p + 1, out)
  {
  }

  lemma {:induction false} RawForward(input: string, k: Stack, start: nat, p: nat, w: string, out: seq<Token>)
    requires start <= p && HasAt(input, p, w) && RawText(w) && TakesString(PlaceOf(k))
    ensures Reaches(input, Config(LexRawString, k, start, p, out), Config(LexRawString, k, start, p + |w|, out))
    decreases |w|
  {
    hide Closed, PlaceOf, HasAt, Step;
    if w != [] {
      PopPlace(k);
      Behind(input, p, w, 1);
      RuneOf(input, p, w, 0);
      RawStep(input, k, start, p, out);
      StepTo(input, Config(LexRawString, k, start, p, out), Config(LexRawString, k, start, p + 1, out));
      RawForward(input, k, start, p + 1, w[1..], out);
    }
  }

  lemma {:induction false} RawFind(input: string, k: Stack, start: nat, p: nat, out: seq<Token>) returns (q: nat)
    requires start <= p <= |input| && TakesString(PlaceOf(k)) && Lives(input, Config(LexRawString, k, start, p, out))
    ensures p <= q < |input| && input[q] == '\'' && RawText(input[p..q])
    decreases |input| - p
  {
    hide Step, PlaceOf, Lives, Reaches;
    q := p;
    PopPlace(k);
    RawStep(input, k, start, p, out);
    LivesStep(input, Config(LexRawString, k, start, p, out));
    if Peek(input, p) == '\'' {
      assert input[p..p] == [];
    } else {
      q := RawFind(input, k, start, p + 1, out);
      assert input[p..q][0] == input[p] && input[p..q][1..] == input[p + 1..q];
    }
  }

  lemma RawMultilineStep(input: string, k: Stack, start: nat, p: nat, out: seq<Token>)
    requires start <= p <= |input| && k.Frame?
    ensures var d := Step(input, Config(LexMultilineRawString, k, start, p, out));
            if ThreeAt(input, p, '\'') then
              d == Popped(k, p + 3, out + [Token(ItemRawMultilineString, input[start..p])])
            else if IsNul(Peek(input, p)) then d.state == LexDone && !EndsAtEOF(d.out)
            else d == Config(LexMultilineRawString, k, start, p + 1, out)
  {
  }

  lemma {:induction false} RawMultilineForward(input: string, k: Stack, start: nat, p: nat, w: string, out: seq<Token>)
    requires start <= p && HasAt(input, p, w + "'''") && RawMultilineText(w) && TakesString(PlaceOf(k))
    ensures Reaches(input, Config(LexMultilineRawString, k, start, p, out),
                    Config(LexMultilineRawString, k, start, p + |w|, out))
    decreases |w|
  {
    hide Closed, PlaceOf, HasAt, Step, Closes;
    if w != [] {
      var s := w + "'''";
      PopPlace(k);
      Behind(input, p, s, 1);
      assert s[1..] == w[1..] + "'''";
      RuneOf(input, p, s, 0);
      NotClosing(input, p, w, '\'');
      RawMultilineStep(input, k, start, p, out);
      StepTo(input, Config(LexMultilineRawString, k, start, p, out),
          Config(LexMultilineRawString, k, start, p + 1, out));
      RawMultilineForward(input, k, start, p + 1, w[1..], out);
    }
  }

  lemma {:induction false} RawMultilineFind(input: string, k: Stack, start: nat, p: nat, out: seq<Token>)
      returns (q: nat)
    requires start <= p <= |input| && TakesString(PlaceOf(k))
    requires Lives(input, Config(LexMultilineRawString, k, start, p, out))
    ensures p <= q && ThreeAt(input, q, '\'') && RawMultilineText(input[p..q])
    decreases |input| - p
  {
    hide Step, PlaceOf, Lives, Reaches;
    q := p;
    PopPlace(k);
    RawMultilineStep(input, k, start, p, out);
    LivesStep(input, Config(LexMultilineRawString, k, start, p, out));
    if ThreeAt(input, p, '\'') {
      assert input[p..p] == [];
    } else {
      q := RawMultilineFind(input, k, start, p + 1, out);
      assert input[p..q][0] == input[p] && input[p..q][1..] == input[p + 1..q];
      StillOpen(input, p, q, '\'');
    }
  }
}
