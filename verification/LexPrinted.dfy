/** How the lexer reads what the encoder prints.

Every lemma says that a run of the lexer over a printed text goes from the configuration
before it to the configuration after it, with the expected tokens in between. */
module LexPrinted {
  import opened Runes
  import opened Tokens
  import opened LexSpec
  import opened LexRun
  import opened Escapes
  import opened Trees
  import opened EncoderSpec
  import opened ParserSpec

  predicate HasAt(input: string, p: nat, s: string) {
    p + |s| <= |input| && input[p..p + |s|] == s
  }

  lemma HasSplit(input: string, p: nat, a: string, b: string)
    requires HasAt(input, p, a + b)
    ensures HasAt(input, p, a) && HasAt(input, p + |a|, b)
  {
    var s := input[p..p + |a + b|];
    assert s == a + b;
    assert input[p..p + |a|] == s[..|a|];
    assert input[p + |a|..p + |a| + |b|] == s[|a|..];
  }

  // The configuration in which nothing is pending.
  function Here(s: State, k: Stack, p: nat, out: seq<Token>): Config {
    Config(s, k, p, p, out)
  }

  // Sets of configurations that the lexer does not leave.
  ghost predicate Closed(input: string, r: iset<Config>) {
    forall c {:trigger Step(input, c)} :: c in r && Inv(input, c) && c.state != LexDone ==> Step(input, c) in r
  }

  // The lexer gets from c to d.
  ghost predicate Reaches(input: string, c: Config, d: Config) {
    forall r: iset<Config> {:trigger Closed(input, r)} :: Closed(input, r) && c in r ==> d in r
  }

  lemma StepTo(input: string, c: Config, d: Config)
    requires Inv(input, c) && c.state != LexDone && Step(input, c) == d
    ensures Reaches(input, c, d)
  {
  }

  lemma Chain(input: string, c: Config, d: Config, e: Config)
    requires Reaches(input, c, d) && Reaches(input, d, e)
    ensures Reaches(input, c, e)
  {
  }

  /** What the lexer reaches on a run has the same outcome. */
  lemma ReachesSameEnd(input: string, c: Config, d: Config)
    requires Inv(input, c) && Reaches(input, c, d)
    ensures Inv(input, d) && Run(input, d) == Run(input, c)
  {
    var r := iset x: Config | Inv(input, x) && Run(input, x) == Run(input, c);
    forall x | x in r && Inv(input, x) && x.state != LexDone
      ensures Step(input, x) in r
    {
      Unroll(input, x);
    }
    assert Closed(input, r);
  }

  // ---- blanks and bare names ----

  predicate AllSkipped(s: string) {
    forall i :: 0 <= i < |s| ==> IsWhitespace(s[i]) || IsNL(s[i])
  }

  lemma LexBlank(input: string, p: nat, out: seq<Token>)
    requires p < |input| && (IsWhitespace(input[p]) || IsNL(input[p]))
    ensures Reaches(input, Here(LexTop, Empty, p, out), Here(LexTop, Empty, p + 1, out))
  {
    var d := Config(LexSkip(LexTop), Empty, p, p + 1, out);
    StepTo(input, Here(LexTop, Empty, p, out), d);
    StepTo(input, d, Here(LexTop, Empty, p + 1, out));
  }

  lemma {:induction false} LexBlanks(input: string, p: nat, s: string, out: seq<Token>)
    requires HasAt(input, p, s) && AllSkipped(s)
    ensures Reaches(input, Here(LexTop, Empty, p, out), Here(LexTop, Empty, p + |s|, out))
    decreases |s|
  {
    if s != [] {
      HasSplit(input, p, [s[0]], s[1..]);
      assert s == [s[0]] + s[1..];
      assert input[p] == s[0];
      LexBlank(input, p, out);
      LexBlanks(input, p + 1, s[1..], out);
    }
  }

  // The bare name states read on while there are bare characters.
  lemma {:induction false} LexBare(input: string, s: State, k: Stack, start: nat, p: nat, w: string, out: seq<Token>)
    requires s == LexBareKey || s == LexBareTableName
    requires start <= p && HasAt(input, p, w) && AllBare(w)
    requires Shape(s, PlaceOf(k), EOF)
    ensures Reaches(input, Config(s, k, start, p, out), Config(s, k, start, p + |w|, out))
    decreases |w|
  {
    hide Closed;
    if w != [] {
      HasSplit(input, p, [w[0]], w[1..]);
      assert w == [w[0]] + w[1..];
      assert input[p] == w[0];
      StepTo(input, Config(s, k, start, p, out), Config(s, k, start, p + 1, out));
      LexBare(input, s, k, start, p + 1, w[1..], out);
    }
  }

  // ---- basic strings ----

  // A text that lexString passes over: no quote, newline or NUL except in simple escapes.
  predicate Inner(w: string)
    decreases |w|
  {
    || w == []
    || (w[0] == '\\' && |w| >= 2 && SimpleEscape(w[1]).Ok? && Inner(w[2..]))
    || (w[0] != '\\' && w[0] != '"' && w[0] != EOF && !IsNL(w[0]) && Inner(w[1..]))
  }

  lemma ReadPlain(input: string, k: Stack, start: nat, p: nat, out: seq<Token>)
    requires start <= p < |input| && TakesString(PlaceOf(k))
    requires input[p] != '\\' && input[p] != '"' && input[p] != EOF && !IsNL(input[p])
    ensures Reaches(input, Config(LexString, k, start, p, out), Config(LexString, k, start, p + 1, out))
  {
    StepTo(input, Config(LexString, k, start, p, out), Config(LexString, k, start, p + 1, out));
  }

  lemma ReadEscape(input: string, k: Stack, start: nat, p: nat, out: seq<Token>)
    requires start <= p < |input| - 1 && TakesString(PlaceOf(k))
    requires input[p] == '\\' && SimpleEscape(input[p + 1]).Ok?
    ensures Reaches(input, Config(LexString, k, start, p, out), Config(LexString, k, start, p + 2, out))
  {
    var e := Config(LexStringEscape, Frame(LexString, k), start, p + 1, out);
    StepTo(input, Config(LexString, k, start, p, out), e);
    StepTo(input, e, Config(LexString, k, start, p + 2, out));
  }

  // The first rune or escape sequence of an inner text.
  lemma ReadFirst(input: string, k: Stack, start: nat, p: nat, w: string, out: seq<Token>) returns (n: nat)
    requires start <= p && HasAt(input, p, w) && Inner(w) && w != [] && TakesString(PlaceOf(k))
    ensures 0 < n <= |w| && Inner(w[n..]) && HasAt(input, p + n, w[n..])
    ensures Reaches(input, Config(LexString, k, start, p, out), Config(LexString, k, start, p + n, out))
  {
    assert input[p] == input[p..p + |w|][0];
    if w[0] == '\\' {
      n := 2;
      assert input[p + 1] == input[p..p + |w|][1];
      ReadEscape(input, k, start, p, out);
    } else {
      n := 1;
      ReadPlain(input, k, start, p, out);
    }
    assert w == w[..n] + w[n..];
    HasSplit(input, p, w[..n], w[n..]);
  }

  lemma {:induction false} LexInner(input: string, k: Stack, start: nat, p: nat, w: string, out: seq<Token>)
    requires start <= p && HasAt(input, p, w) && Inner(w) && TakesString(PlaceOf(k))
    ensures Reaches(input, Config(LexString, k, start, p, out), Config(LexString, k, start, p + |w|, out))
    decreases |w|
  {
    if w != [] {
      var n := ReadFirst(input, k, start, p, w, out);
      LexInner(input, k, start, p + n, w[n..], out);
    }
  }

  // Where the lexer goes after a value, at position q.
  function Popped(k: Stack, q: nat, out: seq<Token>): Config
    requires k.Frame?
  {
    Here(k.top, k.rest, q, out)
  }

  lemma OpenQuote(input: string, k: Stack, p: nat, out: seq<Token>)
    requires p < |input| && input[p] == '"' && TakesString(PlaceOf(k))
    requires !(Peek(input, p + 1) == '"' && Peek(input, p + 2) == '"')
    ensures Reaches(input, Here(LexValue, k, p, out), Here(LexString, k, p + 1, out))
  {
    OpenQuoteInv(input, k, p, out);
    OpenQuoteStep(input, k, p, out);
    hide Step, Inv, Reaches;
    StepTo(input, Here(LexValue, k, p, out), Here(LexString, k, p + 1, out));
  }

  lemma OpenQuoteInv(input: string, k: Stack, p: nat, out: seq<Token>)
    requires p < |input| && input[p] == '"' && TakesString(PlaceOf(k))
    ensures Inv(input, Here(LexValue, k, p, out))
  {
    hide PlaceOf;
  }

  lemma OpenQuoteStep(input: string, k: Stack, p: nat, out: seq<Token>)
    requires p < |input| && input[p] == '"' && !(Peek(input, p + 1) == '"' && Peek(input, p + 2) == '"')
    ensures Step(input, Here(LexValue, k, p, out)) == Here(LexString, k, p + 1, out)
  {
  }

  lemma CloseQuote(input: string, k: Stack, start: nat, p: nat, out: seq<Token>)
    requires start <= p < |input| && input[p] == '"' && TakesString(PlaceOf(k))
    ensures k.Frame?
    ensures Reaches(input, Config(LexString, k, start, p, out),
        Popped(k, p + 1, out + [Token(ItemString, input[start..p])]))
  {
    PopPlace(k);
    StepTo(input, Config(LexString, k, start, p, out), Popped(k, p + 1, out + [Token(ItemString, input[start..p])]));
  }

  lemma QuotedParts(input: string, p: nat, w: string)
    requires HasAt(input, p, "\"" + w + "\"")
    ensures p + |w| + 2 <= |input| && HasAt(input, p + 1, w) && input[p] == '"' && input[p + 1 + |w|] == '"'
    ensures input[p + 1..p + 1 + |w|] == w && (w != [] ==> input[p + 1] == w[0])
  {
    var s := "\"" + w + "\"";
    var t := input[p..p + |s|];
    assert forall i :: 0 <= i < |t| ==> t[i] == input[p + i];
    assert input[p + 1..p + 1 + |w|] == s[1..1 + |w|];
  }

  lemma InnerStarts(w: string)
    requires Inner(w)
    ensures w != [] ==> w[0] != '"'
  {
  }

  // A quoted text that is not followed by a quote, from its opening quote on.
  lemma LexQuoted(input: string, k: Stack, p: nat, w: string, out: seq<Token>)
    requires HasAt(input, p, "\"" + w + "\"") && Inner(w) && TakesString(PlaceOf(k))
    requires w == [] ==> Peek(input, p + 2) != '"'
    ensures k.Frame?
    ensures Reaches(input, Here(LexValue, k, p, out), Popped(k, p + |w| + 2, out + [Token(ItemString, w)]))
  {
    hide HasAt, Inner, PlaceOf, Reaches;
    PopPlace(k);
    InnerStarts(w);
    QuotedParts(input, p, w);
    OpenQuote(input, k, p, out);
    LexInner(input, k, p + 1, p + 1, w, out);
    CloseQuote(input, k, p + 1, p + 1 + |w|, out);
    Chain(input, Here(LexValue, k, p, out), Here(LexString, k, p + 1, out),
        Config(LexString, k, p + 1, p + 1 + |w|, out));
    Chain(input, Here(LexValue, k, p, out), Config(LexString, k, p + 1, p + 1 + |w|, out),
        Popped(k, p + |w| + 2, out + [Token(ItemString, w)]));
  }

  lemma {:induction false} EscapeInner(s: string)
    requires EOF !in s
    ensures Inner(Escape(s))
  {
    if s != [] {
      EscapeInner(s[1..]);
      var e := EscapeRune(s[0]);
      assert Escape(s)[|e|..] == Escape(s[1..]);
      assert Escape(s)[0] == e[0] && (|e| == 2 ==> Escape(s)[1] == e[1]);
    }
  }

  // ---- numbers and booleans ----

  // What follows a value in printed text.
  predicate Ends(r: char) {
    r == ',' || r == ']' || r == '\n'
  }

  lemma {:induction false} LexDigits(input: string, s: State, k: Stack, start: nat, p: nat, w: string, out: seq<Token>)
    requires s == LexNumberOrDate || s == LexNumber
    requires start <= p && HasAt(input, p, w) && AllDigits(w) && TakesValue(PlaceOf(k))
    ensures Reaches(input, Config(s, k, start, p, out), Config(s, k, start, p + |w|, out))
    decreases |w|
  {
    hide PlaceOf, Closed;
    if w != [] {
      HasSplit(input, p, [w[0]], w[1..]);
      assert w == [w[0]] + w[1..];
      assert input[p] == w[0];
      StepTo(input, Config(s, k, start, p, out), Config(s, k, start, p + 1, out));
      LexDigits(input, s, k, start, p + 1, w[1..], out);
    }
  }

  lemma EndNumber(input: string, s: State, k: Stack, start: nat, p: nat, out: seq<Token>)
    requires s == LexNumberOrDate || s == LexNumber
    requires start <= p <= |input| && Ends(Peek(input, p)) && TakesValue(PlaceOf(k))
    ensures k.Frame?
    ensures Reaches(input, Config(s, k, start, p, out), Popped(k, p, out + [Token(ItemInteger, input[start..p])]))
  {
    PopPlace(k);
    StepTo(input, Config(s, k, start, p, out), Popped(k, p, out + [Token(ItemInteger, input[start..p])]));
  }

  lemma StartNatural(input: string, k: Stack, p: nat, out: seq<Token>)
    requires p < |input| && IsDigit(input[p]) && TakesValue(PlaceOf(k))
    ensures Reaches(input, Here(LexValue, k, p, out), Config(LexNumberOrDate, k, p, p + 1, out))
  {
    StepTo(input, Here(LexValue, k, p, out), Here(LexNumberOrDateStart, k, p, out));
    StepTo(input, Here(LexNumberOrDateStart, k, p, out), Config(LexNumberOrDate, k, p, p + 1, out));
  }

  lemma StartNegative(input: string, k: Stack, p: nat, out: seq<Token>)
    requires p + 1 < |input| && input[p] == '-' && IsDigit(input[p + 1]) && TakesValue(PlaceOf(k))
    ensures Reaches(input, Here(LexValue, k, p, out), Config(LexNumber, k, p, p + 2, out))
  {
    StepTo(input, Here(LexValue, k, p, out), Config(LexNumberStart, k, p, p + 1, out));
    StepTo(input, Config(LexNumberStart, k, p, p + 1, out), Config(LexNumber, k, p, p + 2, out));
  }

  lemma {:induction false} NatTextDigits(n: nat)
    ensures AllDigits(NatText(n))
  {
    if n >= 10 {
      NatTextDigits(n / 10);
    }
  }

  // The first n runes of a printed integer, and its other digits.
  lemma IntegerParts(input: string, p: nat, t: string, n: nat)
    requires HasAt(input, p, t) && n <= |t|
    ensures HasAt(input, p + n, t[n..]) && forall i :: 0 <= i < n ==> input[p + i] == t[i]
  {
    assert t == t[..n] + t[n..];
    HasSplit(input, p, t[..n], t[n..]);
    var first := input[p..p + n];
    assert forall i :: 0 <= i < |first| ==> first[i] == input[p + i];
  }

  lemma IntegerDigits(n: int)
    ensures var t := IntText(n);
            if n < 0 then |t| >= 2 && t[0] == '-' && IsDigit(t[1]) && AllDigits(t[2..])
                else IsDigit(t[0]) && AllDigits(t[1..])
  {
    NatTextDigits(if n < 0 then -n else n);
  }

  lemma LexInteger(input: string, k: Stack, p: nat, n: int, out: seq<Token>)
    requires HasAt(input, p, IntText(n)) && Ends(Peek(input, p + |IntText(n)|)) && TakesValue(PlaceOf(k))
    ensures k.Frame?
    ensures Reaches(input, Here(LexValue, k, p, out),
        Popped(k, p + |IntText(n)|, out + [Token(ItemInteger, IntText(n))]))
  {
    var t := IntText(n);
    var lead := if n < 0 then 2 else 1;
    var s := if n < 0 then LexNumber else LexNumberOrDate;
    IntegerDigits(n);
    IntegerParts(input, p, t, lead);
    assert input[p + 0] == t[0];
    if n < 0 {
      assert input[p + 1] == t[1];
      StartNegative(input, k, p, out);
    } else {
      StartNatural(input, k, p, out);
    }
    LexDigits(input, s, k, p, p + lead, t[lead..], out);
    EndNumber(input, s, k, p, p + |t|, out);
    assert input[p..p + |t|] == t;
    hide Reaches, HasAt, AllDigits, IntText, PlaceOf;
    var start, inside := Here(LexValue, k, p, out), Config(s, k, p, p + |t|, out);
    Chain(input, start, Config(s, k, p, p + lead, out), inside);
    Chain(input, start, inside, Popped(k, p + |t|, out + [Token(ItemInteger, t)]));
  }

  lemma {:induction false} SkipWord(input: string, p: nat, w: string)
    requires HasAt(input, p, w) && (forall i :: 0 <= i < |w| ==> IsLetter(w[i]))
    requires !IsLetter(Peek(input, p + |w|))
    ensures SkipLetters(input, p) == p + |w|
    decreases |w|
  {
    if w != [] {
      HasSplit(input, p, [w[0]], w[1..]);
      assert w == [w[0]] + w[1..];
      assert input[p] == w[0];
      SkipWord(input, p + 1, w[1..]);
    }
  }

  lemma LexBoolean(input: string, k: Stack, p: nat, w: string, out: seq<Token>)
    requires w == "true" || w == "false"
    requires HasAt(input, p, w) && Ends(Peek(input, p + |w|)) && TakesValue(PlaceOf(k))
    ensures k.Frame?
    ensures Reaches(input, Here(LexValue, k, p, out), Popped(k, p + |w|, out + [Token(ItemBool, w)]))
  {
    PopPlace(k);
    SkipWord(input, p, w);
    assert input[p] == input[p..p + |w|][0];
    StepTo(input, Here(LexValue, k, p, out), Here(LexBool, k, p, out));
    BooleanStep(input, k, p, w, out);
    EndBoolean(input, k, p, out, Popped(k, p + |w|, out + [Token(ItemBool, w)]));
  }

  lemma EndBoolean(input: string, k: Stack, p: nat, out: seq<Token>, d: Config)
    requires p < |input| && IsLetter(input[p]) && TakesValue(PlaceOf(k))
    requires StepBool(input, Here(LexBool, k, p, out)) == d
    ensures Reaches(input, Here(LexBool, k, p, out), d)
  {
    hide StepBool;
    StepTo(input, Here(LexBool, k, p, out), d);
  }

  lemma BooleanStep(input: string, k: Stack, p: nat, w: string, out: seq<Token>)
    requires (w == "true" || w == "false") && p + |w| <= |input| && input[p..p + |w|] == w
    requires SkipLetters(input, p) == p + |w|
    requires k.Frame?
    ensures StepBool(input, Here(LexBool, k, p, out)) == Popped(k, p + |w|, out + [Token(ItemBool, w)])
  {
    hide SkipLetters;
  }

  // ---- arrays ----

  // The values of the round trip: booleans, integers, NUL-free strings, and arrays of them.
  predicate Plain(v: Value)
  {
    match v
    case Bool(_) => true
    case Integer(n) => IsInt64(n)
    case Str(s) => EOF !in s
    case Array(elems) => Homogeneous(elems) && forall i :: 0 <= i < |elems| ==> Plain(elems[i])
    case _ => false
  }

  // The same values, with any strings.
  predicate Loose(v: Value) {
    match v
    case Bool(_) => true
    case Integer(n) => IsInt64(n)
    case Str(_) => true
    case Array(elems) => Homogeneous(elems) && AllLoose(elems)
    case _ => false
  }

  predicate AllLoose(elems: seq<Value>) {
    forall i :: 0 <= i < |elems| ==> Loose(elems[i])
  }

  lemma {:induction false} PlainIsLoose(v: Value)
    requires Plain(v)
    ensures Loose(v)
  {
    if v.Array? {
      PlainAreLoose(v.elems);
    }
  }

  lemma {:induction false} PlainAreLoose(elems: seq<Value>)
    requires forall i :: 0 <= i < |elems| ==> Plain(elems[i])
    ensures AllLoose(elems)
  {
    forall i | 0 <= i < |elems|
      ensures Loose(elems[i])
    {
      PlainIsLoose(elems[i]);
    }
  }

  function ValueToks(v: Value): seq<Token>
    decreases v, 0
  {
    match v
    case Bool(b) => [Token(ItemBool, if b then "true" else "false")]
    case Integer(n) => [Token(ItemInteger, IntText(n))]
    case Str(s) => [Token(ItemString, Escape(s))]
    case Array(elems) => [Token(ItemArray, [])] + ElementToks(elems, 0) + [Token(ItemArrayEnd, [])]
    case _ => []
  }

  function ElementToks(elems: seq<Value>, i: nat): seq<Token>
    decreases elems, 1, |elems| - i
  {
    if i >= |elems| then [] else ValueToks(elems[i]) + ElementToks(elems, i + 1)
  }

  // The first rune of a printed value takes the array states to the value state.
  predicate StartsValue(r: char) {
    !IsWhitespace(r) && !IsNL(r) && r != '#' && r != ',' && r != ']'
  }

  lemma {:induction false} LooseText(v: Value)
    requires Loose(v)
    ensures Element(v).Success? && Element(v).value != [] && StartsValue(Element(v).value[0])
    decreases v, 0
  {
    match v
    case Integer(n) => NatTextDigits(if n < 0 then -n else n);
    case Array(elems) => LooseTexts(elems, 0);
    case _ =>
  }

  lemma {:induction false} LooseTexts(elems: seq<Value>, i: nat)
    requires AllLoose(elems)
    ensures Elements(elems, i).Success?
    decreases elems, 1, |elems| - i
  {
    if i < |elems| {
      LooseText(elems[i]);
      LooseTexts(elems, i + 1);
    }
  }

  lemma PlainText(v: Value)
    requires Plain(v)
    ensures Element(v).Success? && Element(v).value != [] && StartsValue(Element(v).value[0])
  {
    PlainIsLoose(v);
    LooseText(v);
  }

  lemma OpenArray(input: string, k: Stack, p: nat, out: seq<Token>)
    requires p < |input| && input[p] == '[' && TakesValue(PlaceOf(k))
    ensures Reaches(input, Here(LexValue, k, p, out), Here(LexArrayValue, k, p + 1, out + [Token(ItemArray, [])]))
  {
    assert input[p + 1..p + 1] == [];
    StepTo(input, Here(LexValue, k, p, out), Here(LexArrayValue, k, p + 1, out + [Token(ItemArray, [])]));
  }

  lemma CloseArray(input: string, s: State, k: Stack, p: nat, out: seq<Token>)
    requires s == LexArrayValue || s == LexArrayValueEnd
    requires p < |input| && input[p] == ']' && TakesValue(PlaceOf(k))
    ensures k.Frame?
    ensures Reaches(input, Here(s, k, p, out), Popped(k, p + 1, out + [Token(ItemArrayEnd, [])]))
  {
    PopPlace(k);
    StepTo(input, Here(s, k, p, out), Config(LexArrayEnd, k, p, p + 1, out));
    EndArray(input, k, p, out);
  }

  lemma EndArray(input: string, k: Stack, p: nat, out: seq<Token>)
    requires p < |input| && TakesValue(PlaceOf(k)) && k.Frame?
    ensures Reaches(input, Config(LexArrayEnd, k, p, p + 1, out), Popped(k, p + 1, out + [Token(ItemArrayEnd, [])]))
  {
    assert input[p + 1..p + 1] == [];
    StepTo(input, Config(LexArrayEnd, k, p, p + 1, out), Popped(k, p + 1, out + [Token(ItemArrayEnd, [])]));
  }

  lemma EnterElement(input: string, k: Stack, p: nat, out: seq<Token>)
    requires p < |input| && StartsValue(input[p]) && TakesValue(PlaceOf(k))
    ensures Reaches(input, Here(LexArrayValue, k, p, out), Here(LexValue, Frame(LexArrayValueEnd, k), p, out))
  {
    StepTo(input, Here(LexArrayValue, k, p, out), Here(LexValue, Frame(LexArrayValueEnd, k), p, out));
  }

  lemma NextElement(input: string, k: Stack, p: nat, out: seq<Token>)
    requires p + 1 < |input| && input[p] == ',' && input[p + 1] == ' ' && TakesValue(PlaceOf(k))
    ensures Reaches(input, Here(LexArrayValueEnd, k, p, out), Here(LexArrayValue, k, p + 2, out))
  {
    StepTo(input, Here(LexArrayValueEnd, k, p, out), Here(LexArrayValue, k, p + 1, out));
    SkipBeforeElement(input, k, p + 1, out);
  }

  lemma SkipBeforeElement(input: string, k: Stack, p: nat, out: seq<Token>)
    requires p < |input| && input[p] == ' ' && TakesValue(PlaceOf(k))
    ensures Reaches(input, Here(LexArrayValue, k, p, out), Here(LexArrayValue, k, p + 1, out))
  {
    StepTo(input, Here(LexArrayValue, k, p, out), Config(LexSkip(LexArrayValue), k, p, p + 1, out));
    StepTo(input, Config(LexSkip(LexArrayValue), k, p, p + 1, out), Here(LexArrayValue, k, p + 1, out));
  }

  // Element i, what follows it, and the rest.
  lemma ElementParts(input: string, p: nat, elems: seq<Value>, i: nat)
    requires i < |elems| && AllLoose(elems)
    requires Elements(elems, i).Success? && HasAt(input, p, Elements(elems, i).value + "]")
    ensures Elements(elems, i + 1).Success?
    ensures Element(elems[i]).Success? && HasAt(input, p, Element(elems[i]).value)
    ensures p < |input| && StartsValue(input[p])
    ensures var q := p + |Element(elems[i]).value|;
            if i == |elems| - 1 then
              && q == p + |Elements(elems, i).value|
              && q < |input| && input[q] == ']'
            else
              && q + 1 < |input| && input[q] == ',' && input[q + 1] == ' '
              && HasAt(input, q + 2, Elements(elems, i + 1).value + "]")
              && q + 2 + |Elements(elems, i + 1).value| == p + |Elements(elems, i).value|
  {
    var e := Element(elems[i]).value;
    var sep := if i != |elems| - 1 then ", " else "";
    var rest := Elements(elems, i + 1).value;
    LooseText(elems[i]);
    assert Elements(elems, i).value == e + sep + rest;
    assert e + sep + rest + "]" == e + (sep + (rest + "]"));
    HasSplit(input, p, e, sep + (rest + "]"));
    HasSplit(input, p + |e|, sep, rest + "]");
    var q := p + |e|;
    assert input[p] == input[p..q][0];
    if i == |elems| - 1 {
      assert input[q] == input[q..q + 1][0];
    } else {
      assert input[q] == input[q..q + 2][0] && input[q + 1] == input[q..q + 2][1];
    }
  }

  lemma ElementToksFirst(elems: seq<Value>, i: nat, out: seq<Token>)
    requires i < |elems|
    ensures out + ValueToks(elems[i]) + ElementToks(elems, i + 1) == out + ElementToks(elems, i)
    ensures i == |elems| - 1 ==> out + ValueToks(elems[i]) == out + ElementToks(elems, i)
  {
    hide ValueToks;
    var first, rest := ValueToks(elems[i]), ElementToks(elems, i + 1);
    assert ElementToks(elems, i) == first + rest;
    assert i == |elems| - 1 ==> rest == [] && first + rest == first;
    hide ElementToks;
    assert out + first + rest == out + (first + rest);
  }

  // The elements from i on, and the end of the array.
  lemma {:induction false} LexElements(input: string, k: Stack, p: nat, elems: seq<Value>, i: nat, out: seq<Token>)
    requires i < |elems| && forall j :: 0 <= j < |elems| ==> Plain(elems[j])
    requires Elements(elems, i).Success? && HasAt(input, p, Elements(elems, i).value + "]") && TakesValue(PlaceOf(k))
    ensures k.Frame?
    ensures Reaches(input, Here(LexArrayValue, k, p, out),
                    Popped(k, p + |Elements(elems, i).value| + 1,
                        out + ElementToks(elems, i) + [Token(ItemArrayEnd, [])]))
    decreases elems, 1, |elems| - i
  {
    hide Reaches, HasAt, Elements, Element, ElementToks, ValueToks, StartsValue, Plain, AllLoose, PlaceOf,
        TakesValue;
    HasFrame(k);
    PlainAreLoose(elems);
    ElementParts(input, p, elems, i);
    ElementToksFirst(elems, i, out);
    var n := |Element(elems[i]).value|;
    LexElement(input, k, p, elems[i], out);
    if i == |elems| - 1 {
      LexAroundLast(input, k, p, n, ValueToks(elems[i]), out);
    } else {
      LexElements(input, k, p + n + 2, elems, i + 1, out + ValueToks(elems[i]));
      LexAroundComma(input, k, p, n, |Elements(elems, i + 1).value|, ValueToks(elems[i]), ElementToks(elems, i + 1),
          out);
    }
  }

  lemma HasFrame(k: Stack)
    requires TakesValue(PlaceOf(k))
    ensures k.Frame?
  {
  }

  // The last element, of n runes, and the bracket.
  lemma LexAroundLast(input: string, k: Stack, p: nat, n: nat, toks: seq<Token>, out: seq<Token>)
    requires p + n < |input| && input[p + n] == ']' && TakesValue(PlaceOf(k)) && k.Frame?
    requires Reaches(input, Here(LexArrayValue, k, p, out), Here(LexArrayValueEnd, k, p + n, out + toks))
    ensures Reaches(input, Here(LexArrayValue, k, p, out), Popped(k, p + n + 1, out + toks + [Token(ItemArrayEnd, [])]))
  {
    hide Reaches;
    CloseArray(input, LexArrayValueEnd, k, p + n, out + toks);
    Chain(input, Here(LexArrayValue, k, p, out), Here(LexArrayValueEnd, k, p + n, out + toks),
          Popped(k, p + n + 1, out + toks + [Token(ItemArrayEnd, [])]));
  }

  // An element of n runes, a comma and a blank, and m runes of further elements.
  lemma LexAroundComma(input: string, k: Stack, p: nat, n: nat, m: nat, first: seq<Token>, more: seq<Token>,
      out: seq<Token>)
    requires p + n + 1 < |input| && input[p + n] == ',' && input[p + n + 1] == ' ' && TakesValue(PlaceOf(k)) && k.Frame?
    requires Reaches(input, Here(LexArrayValue, k, p, out), Here(LexArrayValueEnd, k, p + n, out + first))
    requires Reaches(input, Here(LexArrayValue, k, p + n + 2, out + first),
                     Popped(k, p + n + 2 + m + 1, out + first + more + [Token(ItemArrayEnd, [])]))
    ensures Reaches(input, Here(LexArrayValue, k, p, out),
        Popped(k, p + n + 2 + m + 1, out + first + more + [Token(ItemArrayEnd, [])]))
  {
    hide Reaches;
    var start, next := Here(LexArrayValue, k, p, out), Here(LexArrayValue, k, p + n + 2, out + first);
    NextElement(input, k, p + n, out + first);
    Chain(input, start, Here(LexArrayValueEnd, k, p + n, out + first), next);
    Chain(input, start, next, Popped(k, p + n + 2 + m + 1, out + first + more + [Token(ItemArrayEnd, [])]));
  }

  lemma {:induction false} LexElement(input: string, k: Stack, p: nat, v: Value, out: seq<Token>)
    requires Plain(v) && Element(v).Success? && HasAt(input, p, Element(v).value) && TakesValue(PlaceOf(k))
    requires var q := p + |Element(v).value|; p < |input| && StartsValue(input[p]) && q < |input| && Ends(input[q])
    ensures var q := p + |Element(v).value|;
            Reaches(input, Here(LexArrayValue, k, p, out), Here(LexArrayValueEnd, k, q, out + ValueToks(v)))
    decreases v, 3
  {
    hide HasAt, Element, ValueToks;
    EnterElement(input, k, p, out);
    LexPlain(input, Frame(LexArrayValueEnd, k), p, v, out);
  }

  lemma ArrayToks(out: seq<Token>, elems: seq<Value>)
    ensures out + [Token(ItemArray, [])] + ElementToks(elems, 0) + [Token(ItemArrayEnd, [])]
        == out + ValueToks(Array(elems))
  {
  }

  lemma LexEmptyArray(input: string, k: Stack, p: nat, out: seq<Token>)
    requires p + 1 < |input| && input[p] == '[' && input[p + 1] == ']' && TakesValue(PlaceOf(k))
    ensures k.Frame?
    ensures Reaches(input, Here(LexValue, k, p, out),
                    Popped(k, p + 2, out + [Token(ItemArray, [])] + [Token(ItemArrayEnd, [])]))
  {
    OpenArray(input, k, p, out);
    CloseArray(input, LexArrayValue, k, p + 1, out + [Token(ItemArray, [])]);
  }

  lemma {:induction false} LexArray(input: string, k: Stack, p: nat, elems: seq<Value>, out: seq<Token>)
    requires forall i :: 0 <= i < |elems| ==> Plain(elems[i])
    requires Elements(elems, 0).Success? && HasAt(input, p, "[" + (Elements(elems, 0).value + "]"))
    requires TakesValue(PlaceOf(k))
    ensures k.Frame?
    ensures Reaches(input, Here(LexValue, k, p, out),
                    Popped(k, p + |Elements(elems, 0).value| + 2, out + ValueToks(Array(elems))))
    decreases elems, 2, 0
  {
    hide PlaceOf, Closed, Plain;
    var inner := Elements(elems, 0).value;
    HasSplit(input, p, "[", inner + "]");
    assert input[p] == input[p..p + 1][0];
    ArrayToks(out, elems);
    if elems == [] {
      assert input[p + 1] == input[p + 1..p + 2][0];
      LexEmptyArray(input, k, p, out);
      assert out + [Token(ItemArray, [])] + [] == out + [Token(ItemArray, [])];
    } else {
      OpenArray(input, k, p, out);
      LexElements(input, k, p + 1, elems, 0, out + [Token(ItemArray, [])]);
    }
  }

  /** A printed value, followed by a comma, a bracket or a newline, is lexed into its tokens,
      and the lexer stands just past it. */
  lemma {:induction false} LexPlain(input: string, k: Stack, p: nat, v: Value, out: seq<Token>)
    requires Plain(v) && Element(v).Success? && HasAt(input, p, Element(v).value)
    requires Ends(Peek(input, p + |Element(v).value|)) && TakesValue(PlaceOf(k))
    ensures k.Frame?
    ensures Reaches(input, Here(LexValue, k, p, out), Popped(k, p + |Element(v).value|, out + ValueToks(v)))
    decreases v, 0, 0
  {
    hide Closed, Escape, Inner, PlaceOf, HasAt, IntText;
    match v
    case Bool(b) => LexBoolean(input, k, p, if b then "true" else "false", out);
    case Integer(n) => LexInteger(input, k, p, n, out);
    case Str(s) =>
      EscapeInner(s);
      LexQuoted(input, k, p, Escape(s), out);
    case Array(elems) =>
      assert Element(v).value == "[" + (Elements(elems, 0).value + "]");
      LexArray(input, k, p, elems, out);
  }
}
