/** How the lexer reads scalars, in both directions: every legal scalar before a rune that does not
continue it is lexed as one token, and where the lexer gets past the first rune of a scalar
without an error there is a legal one. */
module LayoutScalars {
  import opened Runes
  import opened Tokens
  import opened LexSpec
  import opened LexRun
  import opened LexPrinted
  import opened Layout
  import opened LayoutStrings

  // The rune r does not continue the scalar.
  predicate Stops(typ: TokenType, txt: string, r: char) {
    match typ
    case ItemBool => !IsLetter(r)
    case ItemInteger =>
      && !IsNumberRune(r) && r != '.' && r != 'e' && r != 'E'
      && (r == '-' ==> !All(txt, IsDigitRune))
    case ItemFloat => !IsFloatRune(r)
    case ItemDatetime => !IsDateRune(r)
    case ItemString => txt == [] ==> r != '"'
    case ItemRawString => txt == [] ==> r != '\''
    case _ => true
  }

  // What follows a value in a document stops every scalar.
  predicate Follows(r: char) {
    IsBlank(r) || IsBreak(r) || IsNul(r) || r == '#' || r == ',' || r == ']' || r == '}'
  }

  lemma FollowStops(typ: TokenType, txt: string, r: char)
    requires Follows(r)
    ensures Stops(typ, txt, r)
  {
  }

  // ---- numbers ----

  predicate IsNumberState(s: State) {
    s == LexNumberOrDate || s == LexNumber || s == LexFloat || s == LexDatetime
  }

  // The runes on which these states go on.
  predicate Stays(s: State, r: char) {
    match s
    case LexNumberOrDate => IsDigitRune(r)
    case LexNumber => IsNumberRune(r)
    case LexFloat => IsFloatRune(r)
    case LexDatetime => IsDateRune(r)
    case _ => false
  }

  function NumberType(s: State): TokenType {
    match s
    case LexFloat => ItemFloat
    case LexDatetime => ItemDatetime
    case _ => ItemInteger
  }

  // Where the rune r leads from a number.
  function Switch(s: State, r: char): State {
    if Stays(s, r) then s
    else if (s == LexNumberOrDate || s == LexNumber) && (r == '.' || r == 'e' || r == 'E') then LexFloat
    else if s == LexNumberOrDate && r == '_' then LexNumber
    else if s == LexNumberOrDate && r == '-' then LexDatetime
    else LexDone
  }

  lemma SwitchStep(input: string, s: State, k: Stack, start: nat, p: nat, out: seq<Token>)
    requires IsNumberState(s) && start <= p <= |input| && k.Frame?
    ensures var d, t := Step(input, Config(s, k, start, p, out)), Switch(s, Peek(input, p));
            if t == LexDone then d == Popped(k, p, out + [Token(NumberType(s), input[start..p])])
            else p < |input| && d == Config(t, k, start, p + 1, out)
  {
  }

  lemma SwitchForward(input: string, s: State, k: Stack, start: nat, p: nat, out: seq<Token>)
    requires IsNumberState(s) && start <= p <= |input| && TakesValue(PlaceOf(k))
    requires Switch(s, Peek(input, p)) != LexDone
    ensures Reaches(input, Config(s, k, start, p, out), Config(Switch(s, Peek(input, p)), k, start, p + 1, out))
  {
    hide PlaceOf, Step;
    PopPlace(k);
    SwitchStep(input, s, k, start, p, out);
    StepTo(input, Config(s, k, start, p, out), Config(Switch(s, Peek(input, p)), k, start, p + 1, out));
  }

  lemma NumberEnds(input: string, s: State, k: Stack, start: nat, p: nat, out: seq<Token>)
    requires IsNumberState(s) && start <= p <= |input| && TakesValue(PlaceOf(k))
    requires Switch(s, Peek(input, p)) == LexDone
    ensures k.Frame?
    ensures Reaches(input, Config(s, k, start, p, out), Popped(k, p, out + [Token(NumberType(s), input[start..p])]))
  {
    hide PlaceOf, Step, Switch, NumberType, Reaches;
    PopPlace(k);
    SwitchStep(input, s, k, start, p, out);
    StepTo(input, Config(s, k, start, p, out), Popped(k, p, out + [Token(NumberType(s), input[start..p])]));
  }

  lemma {:induction false} StayRun(input: string, s: State, k: Stack, start: nat, p: nat, w: string, out: seq<Token>)
    requires IsNumberState(s) && start <= p && HasAt(input, p, w) && TakesValue(PlaceOf(k))
    requires forall i :: 0 <= i < |w| ==> Stays(s, w[i])
    ensures Reaches(input, Config(s, k, start, p, out), Config(s, k, start, p + |w|, out))
    decreases |w|
  {
    hide Closed, PlaceOf, HasAt, Stays;
    if w != [] {
      RuneOf(input, p, w, 0);
      Behind(input, p, w, 1);
      SwitchForward(input, s, k, start, p, out);
      StayRun(input, s, k, start, p + 1, w[1..], out);
    }
  }

  lemma AllHead(s: string, f: char -> bool)
    requires s != []
    ensures All(s, f) <==> f(s[0]) && All(s[1..], f)
  {
    assert s == [s[0]] + s[1..];
    if f(s[0]) && All(s[1..], f) {
      forall i | 0 <= i < |s|
        ensures f(s[i])
      {
        assert i > 0 ==> s[i] == s[1..][i - 1];
      }
    }
    if All(s, f) {
      forall i | 0 <= i < |s[1..]|
        ensures f(s[1..][i])
      {
        assert s[1..][i] == s[i + 1];
      }
    }
  }

  lemma {:induction false} DigitsThen(input: string, k: Stack, start: nat, p: nat, w: string, out: seq<Token>)
      returns (s: State)
    requires start <= p && HasAt(input, p, w) && TakesValue(PlaceOf(k)) && All(w, IsNumberRune)
    ensures s == if All(w, IsDigitRune) then LexNumberOrDate else LexNumber
    ensures Reaches(input, Config(LexNumberOrDate, k, start, p, out), Config(s, k, start, p + |w|, out))
    decreases |w|
  {
    hide Closed, PlaceOf, HasAt;
    s := LexNumberOrDate;
    if w != [] {
      RuneOf(input, p, w, 0);
      Behind(input, p, w, 1);
      SwitchForward(input, LexNumberOrDate, k, start, p, out);
      if w[0] == '_' {
        s := LexNumber;
        StayRun(input, LexNumber, k, start, p + 1, w[1..], out);
      } else {
        s := DigitsThen(input, k, start, p + 1, w[1..], out);
        AllHead(w, IsDigitRune);
      }
    }
  }

  lemma NumberStarts(input: string, k: Stack, p: nat, out: seq<Token>)
    requires p < |input| && TakesValue(PlaceOf(k))
    ensures IsDigitRune(input[p]) ==>
              Reaches(input, Here(LexValue, k, p, out), Config(LexNumberOrDate, k, p, p + 1, out))
    ensures (input[p] == '+' || input[p] == '-') && IsDigitRune(Peek(input, p + 1)) ==>
              Reaches(input, Here(LexValue, k, p, out), Config(LexNumber, k, p, p + 2, out))
  {
    hide PlaceOf;
    if IsDigitRune(input[p]) {
      StartNatural(input, k, p, out);
    } else if (input[p] == '+' || input[p] == '-') && IsDigitRune(Peek(input, p + 1)) {
      var c := Config(LexNumberStart, k, p, p + 1, out);
      StepTo(input, Here(LexValue, k, p, out), c);
      StepTo(input, c, Config(LexNumber, k, p, p + 2, out));
    }
  }

  // Up to the end of an integer, or of what an integer or a float begins with.
  lemma IntegerRun(input: string, k: Stack, p: nat, m: string, out: seq<Token>) returns (s: State)
    requires IntegerLike(m) && HasAt(input, p, m) && TakesValue(PlaceOf(k))
    ensures s == if All(m, IsDigitRune) then LexNumberOrDate else LexNumber
    ensures Reaches(input, Here(LexValue, k, p, out), Config(s, k, p, p + |m|, out))
  {
    hide Closed, PlaceOf, HasAt;
    var n := SignLength(m);
    RuneOf(input, p, m, 0);
    RuneOf(input, p, m, n);
    NumberStarts(input, k, p, out);
    Behind(input, p, m, n + 1);
    var w := m[n + 1..];
    assert w == m[n..][1..];
    AllHead(m[n..], IsNumberRune);
    if n == 0 {
      s := DigitsThen(input, k, p, p + 1, w, out);
      AllHead(m, IsDigitRune);
    } else {
      s := LexNumber;
      StayRun(input, LexNumber, k, p, p + 2, w, out);
      AllHead(m, IsDigitRune);
    }
  }

  lemma IntegerForward(input: string, k: Stack, p: nat, m: string, out: seq<Token>)
    requires IntegerLike(m) && HasAt(input, p, m) && TakesValue(PlaceOf(k))
    requires Stops(ItemInteger, m, Peek(input, p + |m|))
    ensures k.Frame?
    ensures Reaches(input, Here(LexValue, k, p, out), Popped(k, p + |m|, out + [Token(ItemInteger, m)]))
  {
    hide Reaches, PlaceOf;
    var s := IntegerRun(input, k, p, m, out);
    NumberEnds(input, s, k, p, p + |m|, out);
    Chain(input, Here(LexValue, k, p, out), Config(s, k, p, p + |m|, out),
        Popped(k, p + |m|, out + [Token(ItemInteger, m)]));
  }

  // From place i of a number on, with a rune that leads on to s.
  lemma LongTail(input: string, s0: State, s: State, k: Stack, p: nat, txt: string, i: nat, out: seq<Token>)
    requires IsNumberState(s0) && IsNumberState(s)
    requires HasAt(input, p, txt) && i < |txt| && Switch(s0, txt[i]) == s && TakesValue(PlaceOf(k))
    requires forall j :: i < j < |txt| ==> Stays(s, txt[j])
    requires Switch(s, Peek(input, p + |txt|)) == LexDone
    ensures k.Frame?
    ensures Reaches(input, Config(s0, k, p, p + i, out), Popped(k, p + |txt|, out + [Token(NumberType(s), txt)]))
  {
    hide Reaches, PlaceOf, HasAt, Switch, Stays;
    RuneOf(input, p, txt, i);
    Behind(input, p, txt, i + 1);
    Sliced(input, p, txt, 0, |txt|);
    assert txt[0..|txt|] == txt;
    var start, end := Config(s0, k, p, p + i, out), Config(s, k, p, p + |txt|, out);
    HasBounds(input, p, txt);
    SwitchForward(input, s0, k, p, p + i, out);
    StayRun(input, s, k, p, p + i + 1, txt[i + 1..], out);
    Chain(input, start, Config(s, k, p, p + i + 1, out), end);
    NumberEnds(input, s, k, p, p + |txt|, out);
    Chain(input, start, end, Popped(k, p + |txt|, out + [Token(NumberType(s), txt)]));
  }

  lemma HasBounds(input: string, p: nat, w: string)
    requires HasAt(input, p, w)
    ensures p + |w| <= |input|
  {
  }

  lemma SwitchStops(s: State, r: char)
    requires (s == LexFloat || s == LexDatetime) && !Stays(s, r)
    ensures Switch(s, r) == LexDone
  {
  }

  // An integer up to place i, and then the runes of a float or a datetime.
  lemma LongNumber(input: string, s: State, k: Stack, p: nat, txt: string, i: nat, out: seq<Token>)
    requires s == LexFloat || s == LexDatetime
    requires HasAt(input, p, txt) && i < |txt| && IntegerLike(txt[..i]) && TakesValue(PlaceOf(k))
    requires Switch(if All(txt[..i], IsDigitRune) then LexNumberOrDate else LexNumber, txt[i]) == s
    requires forall j :: i < j < |txt| ==> Stays(s, txt[j])
    requires !Stays(s, Peek(input, p + |txt|))
    ensures k.Frame?
    ensures Reaches(input, Here(LexValue, k, p, out), Popped(k, p + |txt|, out + [Token(NumberType(s), txt)]))
  {
    hide Reaches, PlaceOf, IntegerLike, HasAt, All, Stays, Switch, Inv, Step;
    assert txt == txt[..i] + txt[i..];
    HasSplit(input, p, txt[..i], txt[i..]);
    var s0 := IntegerRun(input, k, p, txt[..i], out);
    SwitchStops(s, Peek(input, p + |txt|));
    LongTail(input, s0, s, k, p, txt, i, out);
    Chain(input, Here(LexValue, k, p, out), Config(s0, k, p, p + i, out),
        Popped(k, p + |txt|, out + [Token(NumberType(s), txt)]));
  }

  lemma FloatTail(txt: string, i: nat)
    requires FloatAt(txt, i)
    ensures forall j :: i < j < |txt| ==> Stays(LexFloat, txt[j])
    ensures Switch(LexNumberOrDate, txt[i]) == LexFloat && Switch(LexNumber, txt[i]) == LexFloat
  {
    forall j | i < j < |txt|
      ensures Stays(LexFloat, txt[j])
    {
      assert txt[j] == txt[i..][j - i];
    }
  }

  lemma FloatForward(input: string, k: Stack, p: nat, txt: string, out: seq<Token>)
    requires FloatLike(txt) && HasAt(input, p, txt) && TakesValue(PlaceOf(k))
    requires Stops(ItemFloat, txt, Peek(input, p + |txt|))
    ensures k.Frame?
    ensures Reaches(input, Here(LexValue, k, p, out), Popped(k, p + |txt|, out + [Token(ItemFloat, txt)]))
  {
    hide Reaches, PlaceOf, HasAt, IntegerLike, All, Switch;
    var i :| 0 < i < |txt| && FloatAt(txt, i);
    FloatTail(txt, i);
    LongNumber(input, LexFloat, k, p, txt, i, out);
  }

  lemma DatetimeForward(input: string, k: Stack, p: nat, txt: string, out: seq<Token>)
    requires DatetimeLike(txt) && HasAt(input, p, txt) && TakesValue(PlaceOf(k))
    requires Stops(ItemDatetime, txt, Peek(input, p + |txt|))
    ensures k.Frame?
    ensures Reaches(input, Here(LexValue, k, p, out), Popped(k, p + |txt|, out + [Token(ItemDatetime, txt)]))
  {
    hide Reaches, PlaceOf, HasAt;
    var i :| 0 < i < |txt| && DatetimeAt(txt, i);
    var m := txt[..i];
    assert IsDigitRune(m[0]);
    assert m[0..] == m;
    forall j | i < j < |txt|
      ensures Stays(LexDatetime, txt[j])
    {
      assert txt[j] == txt[i..][j - i];
    }
    LongNumber(input, LexDatetime, k, p, txt, i, out);
  }

  // ---- booleans ----

  lemma BoolForward(input: string, k: Stack, p: nat, w: string, out: seq<Token>)
    requires (w == "true" || w == "false") && HasAt(input, p, w) && TakesValue(PlaceOf(k))
    requires !IsLetter(Peek(input, p + |w|))
    ensures k.Frame?
    ensures Reaches(input, Here(LexValue, k, p, out), Popped(k, p + |w|, out + [Token(ItemBool, w)]))
  {
    hide PlaceOf;
    PopPlace(k);
    RuneOf(input, p, w, 0);
    SkipWord(input, p, w);
    BooleanStep(input, k, p, w, out);
    StepTo(input, Here(LexValue, k, p, out), Here(LexBool, k, p, out));
    EndBoolean(input, k, p, out, Popped(k, p + |w|, out + [Token(ItemBool, w)]));
  }

  // ---- strings ----

  // Where the lexer is after the opening quotes.
  function Opened(typ: TokenType): State {
    match typ
    case ItemString => LexString
    case ItemMultilineString => LexMultilineString
    case ItemRawString => LexRawString
    case _ => LexMultilineRawString
  }

  predicate IsStringToken(typ: TokenType) {
    typ == ItemString || typ == ItemMultilineString || typ == ItemRawString || typ == ItemRawMultilineString
  }

  // The kind of string that begins at a quote.
  function KindAt(input: string, p: nat): TokenType {
    if Peek(input, p) == '"' then
      if Peek(input, p + 1) == '"' && Peek(input, p + 2) == '"' then ItemMultilineString else ItemString
    else
      if Peek(input, p + 1) == '\'' && Peek(input, p + 2) == '\'' then ItemRawMultilineString else ItemRawString
  }

  lemma OpensAt(input: string, k: Stack, p: nat, out: seq<Token>)
    requires p < |input| && (input[p] == '"' || input[p] == '\'') && TakesString(PlaceOf(k))
    ensures var typ := KindAt(input, p);
            && p + |QuoteText(typ)| <= |input|
            && Reaches(input, Here(LexValue, k, p, out), Here(Opened(typ), k, p + |QuoteText(typ)|, out))
  {
    var typ := KindAt(input, p);
    OpensStep(input, k, p, out);
    OpensInv(input, k, p, out);
    hide Step, Inv;
    StepTo(input, Here(LexValue, k, p, out), Here(Opened(typ), k, p + |QuoteText(typ)|, out));
  }

  lemma OpensInv(input: string, k: Stack, p: nat, out: seq<Token>)
    requires p < |input| && (input[p] == '"' || input[p] == '\'') && TakesString(PlaceOf(k))
    ensures Inv(input, Here(LexValue, k, p, out))
  {
    hide PlaceOf;
  }

  lemma OpensStep(input: string, k: Stack, p: nat, out: seq<Token>)
    requires p < |input| && (input[p] == '"' || input[p] == '\'')
    ensures var typ := KindAt(input, p);
            && p + |QuoteText(typ)| <= |input|
            && Step(input, Here(LexValue, k, p, out)) == Here(Opened(typ), k, p + |QuoteText(typ)|, out)
  {
  }

  // A legal string is of the kind that its text begins like.
  lemma KindOf(input: string, p: nat, typ: TokenType, txt: string)
    requires LegalString(typ, txt) && HasAt(input, p, QuoteText(typ) + txt + QuoteText(typ))
    requires Stops(typ, txt, Peek(input, p + |QuoteText(typ) + txt + QuoteText(typ)|))
    ensures p < |input| && (input[p] == '"' || input[p] == '\'') && KindAt(input, p) == typ
  {
    var s := QuoteText(typ) + txt + QuoteText(typ);
    RuneOf(input, p, s, 0);
    RuneOf(input, p, s, 1);
    if |s| > 2 {
      RuneOf(input, p, s, 2);
    }
    if typ == ItemString || typ == ItemRawString {
      assert txt != [] ==> s[1] == txt[0];
      assert txt == [] ==> |s| == 2;
    }
  }

  lemma StringEndStep(input: string, typ: TokenType, k: Stack, start: nat, p: nat, out: seq<Token>)
    requires IsStringToken(typ) && start <= p && HasAt(input, p, QuoteText(typ)) && k.Frame?
    ensures start <= p <= |input|
    ensures Step(input, Config(Opened(typ), k, start, p, out))
         == Popped(k, p + |QuoteText(typ)|, out + [Token(typ, input[start..p])])
  {
    hide Step;
    var q := QuoteText(typ);
    RuneOf(input, p, q, 0);
    if |q| == 3 {
      RuneOf(input, p, q, 1);
      RuneOf(input, p, q, 2);
    }
    match typ {
      case ItemString => BasicStep(input, k, start, p, out);
      case ItemMultilineString => MultilineStep(input, k, start, p, out);
      case ItemRawString => RawStep(input, k, start, p, out);
      case ItemRawMultilineString => RawMultilineStep(input, k, start, p, out);
    }
  }

  lemma OpenedInv(input: string, typ: TokenType, k: Stack, start: nat, p: nat, out: seq<Token>)
    requires IsStringToken(typ) && start <= p <= |input| && TakesString(PlaceOf(k))
    ensures k.Frame? && Inv(input, Config(Opened(typ), k, start, p, out))
  {
    PopPlace(k);
    hide PlaceOf;
  }

  lemma StringEnds(input: string, typ: TokenType, k: Stack, start: nat, p: nat, out: seq<Token>)
    requires IsStringToken(typ) && start <= p && HasAt(input, p, QuoteText(typ)) && TakesString(PlaceOf(k))
    ensures k.Frame?
    ensures Reaches(input, Config(Opened(typ), k, start, p, out),
                    Popped(k, p + |QuoteText(typ)|, out + [Token(typ, input[start..p])]))
  {
    hide Step, PlaceOf, Reaches, HasAt, Inv;
    HasBounds(input, p, QuoteText(typ));
    OpenedInv(input, typ, k, start, p, out);
    StringEndStep(input, typ, k, start, p, out);
    StepTo(input, Config(Opened(typ), k, start, p, out),
        Popped(k, p + |QuoteText(typ)|, out + [Token(typ, input[start..p])]));
  }

  lemma InsideForward(input: string, typ: TokenType, k: Stack, p: nat, txt: string, out: seq<Token>)
    requires LegalString(typ, txt) && HasAt(input, p, txt + QuoteText(typ)) && TakesString(PlaceOf(k))
    ensures Reaches(input, Here(Opened(typ), k, p, out), Config(Opened(typ), k, p, p + |txt|, out))
  {
    hide PlaceOf, Reaches, BasicText, MultilineText, RawText, RawMultilineText, HasAt;
    HasSplit(input, p, txt, QuoteText(typ));
    match typ {
      case ItemString => BasicForward(input, k, p, p, txt, out);
      case ItemMultilineString => MultilineForward(input, k, p, p, txt, out);
      case ItemRawString => RawForward(input, k, p, p, txt, out);
      case ItemRawMultilineString => RawMultilineForward(input, k, p, p, txt, out);
    }
  }

  lemma QuotedParts(input: string, p: nat, q: string, txt: string)
    requires HasAt(input, p, q + txt + q)
    ensures HasAt(input, p + |q|, txt + q) && HasAt(input, p + |q|, txt) && HasAt(input, p + |q| + |txt|, q)
    ensures p + |q| <= |input| && p + |q| + |txt| <= |input| && input[p + |q|..p + |q| + |txt|] == txt
  {
    assert q + txt + q == q + (txt + q);
    HasSplit(input, p, q, txt + q);
    HasSplit(input, p + |q|, txt, q);
  }

  /** A legal string of any kind, before a rune that does not continue it. */
  lemma StringForward(input: string, typ: TokenType, k: Stack, p: nat, txt: string, out: seq<Token>)
    requires LegalString(typ, txt) && HasAt(input, p, QuoteText(typ) + txt + QuoteText(typ))
    requires Stops(typ, txt, Peek(input, p + |QuoteText(typ) + txt + QuoteText(typ)|)) && TakesString(PlaceOf(k))
    ensures k.Frame?
    ensures Reaches(input, Here(LexValue, k, p, out),
                    Popped(k, p + |QuoteText(typ) + txt + QuoteText(typ)|, out + [Token(typ, txt)]))
  {
    hide Reaches, PlaceOf, HasAt, BasicText, MultilineText, RawText, RawMultilineText, Stops, KindAt, Inv, Step;
    KindOf(input, p, typ, txt);
    var q := QuoteText(typ);
    QuotedParts(input, p, q, txt);
    var start, inside := Here(LexValue, k, p, out), Here(Opened(typ), k, p + |q|, out);
    var end := Config(Opened(typ), k, p + |q|, p + |q| + |txt|, out);
    OpensAt(input, k, p, out);
    InsideForward(input, typ, k, p + |q|, txt, out);
    StringEnds(input, typ, k, p + |q|, p + |q| + |txt|, out);
    Chain(input, start, inside, end);
    Chain(input, start, end, Popped(k, p + |q + txt + q|, out + [Token(typ, txt)]));
  }

  /** A legal scalar, before a rune that does not continue it. */
  lemma ScalarForward(input: string, typ: TokenType, k: Stack, p: nat, txt: string, out: seq<Token>)
    requires LegalScalar(typ, txt) && HasAt(input, p, QuoteText(typ) + txt + QuoteText(typ))
    requires Stops(typ, txt, Peek(input, p + |QuoteText(typ) + txt + QuoteText(typ)|)) && TakesValue(PlaceOf(k))
    ensures k.Frame?
    ensures Reaches(input, Here(LexValue, k, p, out),
                    Popped(k, p + |QuoteText(typ) + txt + QuoteText(typ)|, out + [Token(typ, txt)]))
  {
    hide Reaches, PlaceOf, HasAt, IntegerLike, FloatLike, DatetimeLike;
    assert "" + txt + "" == txt;
    match typ
    case ItemBool => BoolForward(input, k, p, txt, out);
    case ItemInteger => IntegerForward(input, k, p, txt, out);
    case ItemFloat => FloatForward(input, k, p, txt, out);
    case ItemDatetime => DatetimeForward(input, k, p, txt, out);
    case _ => StringForward(input, typ, k, p, txt, out);
  }

  // ---- where there is a scalar ----

  // The end of the longest run of runes in the class that begins at p.
  function Span(input: string, p: nat, f: char -> bool): (q: nat)
    requires p <= |input|
    ensures p <= q <= |input| && All(input[p..q], f)
    ensures q < |input| ==> !f(input[q])
    decreases |input| - p
  {
    if p < |input| && f(input[p]) then
      var q := Span(input, p + 1, f);
      assert input[p..q] == [input[p]] + input[p + 1..q];
      q
    else p
  }

  lemma {:induction false} StringFind(input: string, k: Stack, p: nat, out: seq<Token>) returns (txt: string)
    requires p < |input| && (input[p] == '"' || input[p] == '\'') && TakesString(PlaceOf(k))
    requires Lives(input, Here(LexValue, k, p, out))
    ensures var typ := KindAt(input, p); var s := QuoteText(typ) + txt + QuoteText(typ);
            LegalString(typ, txt) && HasAt(input, p, s) && Stops(typ, txt, Peek(input, p + |s|))
  {
    hide Lives, PlaceOf, Reaches, BasicText, MultilineText, RawText, RawMultilineText;
    var typ := KindAt(input, p);
    var q := p + |QuoteText(typ)|;
    OpensAt(input, k, p, out);
    LivesOn(input, Here(LexValue, k, p, out), Here(Opened(typ), k, q, out));
    var e;
    match typ {
      case ItemString => e := BasicFind(input, k, q, q, out);
      case ItemMultilineString => e := MultilineFind(input, k, q, q, out);
      case ItemRawString => e := RawFind(input, k, q, q, out);
      case ItemRawMultilineString => e := RawMultilineFind(input, k, q, q, out);
    }
    txt := input[q..e];
    QuotedThere(input, p, e);
  }

  lemma QuotedThere(input: string, p: nat, e: nat)
    requires p < |input| && (input[p] == '"' || input[p] == '\'')
    requires var typ := KindAt(input, p);
             && p + |QuoteText(typ)| <= e
             && (if |QuoteText(typ)| == 3 then ThreeAt(input, e, input[p]) else e < |input| && input[e] == input[p])
    ensures var typ := KindAt(input, p); var txt := input[p + |QuoteText(typ)|..e];
            && HasAt(input, p, QuoteText(typ) + txt + QuoteText(typ))
            && Stops(typ, txt, Peek(input, p + |QuoteText(typ) + txt + QuoteText(typ)|))
  {
    var typ := KindAt(input, p);
    var q := QuoteText(typ);
    var txt := input[p + |q|..e];
    assert input[p..p + |q|] == q;
    assert input[e..e + |q|] == q;
    assert input[p..e + |q|] == input[p..p + |q|] + txt + input[e..e + |q|];
  }

  lemma BoolFind(input: string, k: Stack, p: nat, out: seq<Token>) returns (txt: string)
    requires p < |input| && IsLetter(input[p]) && TakesValue(PlaceOf(k)) && Lives(input, Here(LexBool, k, p, out))
    ensures (txt == "true" || txt == "false") && HasAt(input, p, txt) && !IsLetter(Peek(input, p + |txt|))
  {
    hide PlaceOf;
    LivesStep(input, Here(LexBool, k, p, out));
    txt := input[p..SkipLetters(input, p)];
  }

  // The integer that a number begins with.
  lemma IntegerThere(input: string, p: nat, n: nat) returns (q: nat)
    requires n <= 1 && p + n < |input| && IsDigitRune(input[p + n])
    requires if n == 1 then input[p] == '+' || input[p] == '-' else true
    ensures p < q <= |input| && IntegerLike(input[p..q]) && !IsNumberRune(Peek(input, q))
  {
    q := Span(input, p + n, IsNumberRune);
    var m := input[p..q];
    assert q > p + n;
    assert m[n..] == input[p + n..q] && m[n] == input[p + n] && (n == 1 ==> m[0] == input[p]);
    assert SignLength(m) == n;
  }

  lemma FloatThere(input: string, p: nat, q: nat) returns (e: nat)
    requires p < q <= |input| && IntegerLike(input[p..q])
    requires var r := Peek(input, q); r == '.' || r == 'e' || r == 'E'
    ensures q < e <= |input| && FloatLike(input[p..e]) && !IsFloatRune(Peek(input, e))
  {
    hide IntegerLike;
    e := Span(input, q, IsFloatRune);
    var txt := input[p..e];
    assert txt[..q - p] == input[p..q] && txt[q - p..] == input[q..e] && e > q;
    assert FloatAt(txt, q - p);
  }

  lemma DatetimeThere(input: string, p: nat, q: nat) returns (e: nat)
    requires p < q < |input| && All(input[p..q], IsDigitRune) && input[q] == '-'
    ensures q < e <= |input| && DatetimeLike(input[p..e]) && !IsDateRune(Peek(input, e))
  {
    e := Span(input, q, IsDateRune);
    var txt := input[p..e];
    assert txt[..q - p] == input[p..q] && txt[q - p..] == input[q..e] && e > q;
    assert DatetimeAt(txt, q - p);
  }

  // The number that begins there.
  lemma NumberThere(input: string, p: nat, n: nat) returns (typ: TokenType, txt: string)
    requires n <= 1 && p + n < |input| && IsDigitRune(input[p + n])
    requires if n == 1 then input[p] == '+' || input[p] == '-' else true
    ensures LegalScalar(typ, txt) && QuoteText(typ) == "" && HasAt(input, p, txt)
    ensures Stops(typ, txt, Peek(input, p + |txt|))
  {
    hide IntegerLike, FloatLike, DatetimeLike, All;
    var q := IntegerThere(input, p, n);
    var r := Peek(input, q);
    if r == '.' || r == 'e' || r == 'E' {
      var e := FloatThere(input, p, q);
      typ, txt := ItemFloat, input[p..e];
    } else if r == '-' && All(input[p..q], IsDigitRune) {
      var e := DatetimeThere(input, p, q);
      typ, txt := ItemDatetime, input[p..e];
    } else {
      typ, txt := ItemInteger, input[p..q];
    }
  }

  lemma SignStep(input: string, k: Stack, p: nat, out: seq<Token>)
    requires p < |input| && (input[p] == '+' || input[p] == '-')
    ensures Step(input, Here(LexValue, k, p, out)) == Config(LexNumberStart, k, p, p + 1, out)
    ensures var d := Step(input, Config(LexNumberStart, k, p, p + 1, out));
            !IsDigitRune(Peek(input, p + 1)) ==> d.state == LexDone && !EndsAtEOF(d.out)
  {
  }

  lemma NumberFind(input: string, k: Stack, p: nat, out: seq<Token>) returns (typ: TokenType, txt: string)
    requires p < |input| && (IsDigitRune(input[p]) || input[p] == '+' || input[p] == '-') && TakesValue(PlaceOf(k))
    requires Lives(input, Here(LexValue, k, p, out))
    ensures LegalScalar(typ, txt) && QuoteText(typ) == "" && HasAt(input, p, txt)
    ensures Stops(typ, txt, Peek(input, p + |txt|))
  {
    hide PlaceOf, Lives, Step, LegalScalar, Stops, HasAt;
    if IsDigitRune(input[p]) {
      typ, txt := NumberThere(input, p, 0);
    } else {
      SignStep(input, k, p, out);
      LivesStep(input, Here(LexValue, k, p, out));
      LivesStep(input, Config(LexNumberStart, k, p, p + 1, out));
      typ, txt := NumberThere(input, p, 1);
    }
  }

  /** Where the lexer reads a value that is no array or inline table without an error later on,
      there is a legal scalar. */
  lemma ScalarFind(input: string, k: Stack, p: nat, out: seq<Token>) returns (typ: TokenType, txt: string)
    requires TakesValue(PlaceOf(k)) && Lives(input, Here(LexValue, k, p, out))
    requires var r := Peek(input, p); !IsBlank(r) && r != '[' && r != '{'
    ensures LegalScalar(typ, txt) && HasAt(input, p, QuoteText(typ) + txt + QuoteText(typ))
    ensures Stops(typ, txt, Peek(input, p + |QuoteText(typ) + txt + QuoteText(typ)|))
  {
    hide PlaceOf, Lives, LegalString, IntegerLike, FloatLike, DatetimeLike, HasAt;
    var c, r := Here(LexValue, k, p, out), Peek(input, p);
    LivesInv(input, c);
    if r == '"' || r == '\'' {
      txt := StringFind(input, k, p, out);
      typ := KindAt(input, p);
    } else if IsDigitRune(r) || r == '+' || r == '-' {
      typ, txt := NumberFind(input, k, p, out);
      assert "" + txt + "" == txt;
    } else {
      ValueStep(input, k, p, out);
      LivesStep(input, c);
      txt := BoolFind(input, k, p, out);
      typ := ItemBool;
      assert "" + txt + "" == txt;
    }
  }

  lemma LivesInv(input: string, c: Config)
    requires Lives(input, c)
    ensures Inv(input, c) && InBounds(input, c)
  {
  }

  // The other runes that a value may begin with.
  lemma ValueStep(input: string, k: Stack, p: nat, out: seq<Token>)
    requires Inv(input, Here(LexValue, k, p, out)) && TakesValue(PlaceOf(k))
    requires var r := Peek(input, p);
             !IsBlank(r) && r != '[' && r != '{' && r != '"' && r != '\'' && !IsDigitRune(r) && r != '+' && r != '-'
    ensures var d := Step(input, Here(LexValue, k, p, out));
            if IsLetter(Peek(input, p)) && Peek(input, p) != '.' then p < |input| && d == Here(LexBool, k, p, out)
            else d.state == LexDone && !EndsAtEOF(d.out)
  {
  }
}
