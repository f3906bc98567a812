/** A NUL inside a printed string stops the lexer, which takes it for the end of the input. */
module LexNul {
  import opened Runes
  import opened Tokens
  import opened LexSpec
  import opened LexRun
  import opened Escapes
  import opened Trees
  import opened EncoderSpec
  import opened LexPrinted
  import opened LexDocument

  // The lexer has stopped with an error after the tokens out.
  predicate Failed(d: Config, out: seq<Token>) {
    d.state == LexDone && |d.out| == |out| + 1 && out <= d.out && d.out[|out|].typ.ItemError?
  }

  // From c the lexer comes to an error.
  ghost predicate Halts(input: string, c: Config) {
    exists d, out :: Reaches(input, c, d) && Failed(d, out)
  }

  lemma HaltsLater(input: string, c: Config, d: Config)
    requires Reaches(input, c, d) && Halts(input, d)
    ensures Halts(input, c)
  {
    var e, out :| Reaches(input, d, e) && Failed(e, out);
    Chain(input, c, d, e);
  }

  // ---- strings ----

  lemma StopAt(input: string, k: Stack, start: nat, p: nat, out: seq<Token>) returns (d: Config)
    requires start <= p <= |input| && (Peek(input, p) == EOF || IsNL(Peek(input, p))) && TakesString(PlaceOf(k))
    ensures Reaches(input, Config(LexString, k, start, p, out), d) && Failed(d, out)
  {
    d := Step(input, Config(LexString, k, start, p, out));
    StepTo(input, Config(LexString, k, start, p, out), d);
  }

  lemma {:induction false} NulFails(input: string, k: Stack, start: nat, p: nat, s: string, out: seq<Token>)
    requires start <= p && HasAt(input, p, Escape(s)) && EOF in s && TakesString(PlaceOf(k))
    ensures Halts(input, Config(LexString, k, start, p, out))
    decreases |s|
  {
    hide Closed, PlaceOf, TakesString;
    var e := EscapeRune(s[0]);
    assert Escape(s) == e + Escape(s[1..]);
    HasSplit(input, p, e, Escape(s[1..]));
    assert input[p..p + |e|][0] == input[p] && (|e| == 2 ==> input[p..p + |e|][1] == input[p + 1]);
    if s[0] == EOF {
      var d := StopAt(input, k, start, p, out);
    } else {
      InnerRune(s[0]);
      LexInner(input, k, start, p, e, out);
      NulFails(input, k, start, p + |e|, s[1..], out);
      HaltsLater(input, Config(LexString, k, start, p, out), Config(LexString, k, start, p + |e|, out));
    }
  }

  lemma InnerRune(r: char)
    requires r != EOF
    ensures Inner(EscapeRune(r))
  {
    var e := EscapeRune(r);
    assert e[|e|..] == [];
    if |e| == 2 {
      assert e[2..] == [];
    } else {
      assert e[1..] == [];
    }
  }

  lemma EscapeFirstRune(s: string)
    requires s != []
    ensures Escape(s) != [] && Escape(s)[0] != '"'
  {
    assert Escape(s)[0] == EscapeRune(s[0])[0];
  }

  lemma StringHalts(input: string, k: Stack, p: nat, s: string, out: seq<Token>)
    requires HasAt(input, p, Quoted(s)) && EOF in s && TakesString(PlaceOf(k))
    ensures Halts(input, Here(LexValue, k, p, out))
  {
    QuotedParts(input, p, Escape(s));
    EscapeFirstRune(s);
    OpenQuote(input, k, p, out);
    NulFails(input, k, p + 1, p + 1, s, out);
    HaltsLater(input, Here(LexValue, k, p, out), Here(LexString, k, p + 1, out));
  }

  // ---- values ----

  /** A printed value with a NUL in a string at any depth stops the lexer. */
  lemma {:induction false} ValueHalts(input: string, k: Stack, p: nat, v: Value, out: seq<Token>)
    requires Loose(v) && !Plain(v) && Element(v).Success? && HasAt(input, p, Element(v).value)
    requires TakesValue(PlaceOf(k))
    ensures Halts(input, Here(LexValue, k, p, out))
    decreases v, 0, 0
  {
    if v.Str? {
      StringHalts(input, k, p, v.s, out);
    } else {
      var inner := Elements(v.elems, 0).value;
      assert Element(v).value == "[" + (inner + "]");
      HasSplit(input, p, "[", inner + "]");
      assert input[p] == input[p..p + 1][0];
      OpenArray(input, k, p, out);
      var j :| 0 <= j < |v.elems| && !Plain(v.elems[j]);
      ElementsHalt(input, k, p + 1, v.elems, 0, j, out + [Token(ItemArray, [])]);
      HaltsLater(input, Here(LexValue, k, p, out), Here(LexArrayValue, k, p + 1, out + [Token(ItemArray, [])]));
    }
  }

  // The elements from i on, of which element j has a NUL.
  lemma {:induction false} ElementsHalt(input: string, k: Stack, p: nat, elems: seq<Value>, i: nat, j: nat,
      out: seq<Token>)
    requires i <= j < |elems| && AllLoose(elems) && !Plain(elems[j])
    requires Elements(elems, i).Success? && HasAt(input, p, Elements(elems, i).value + "]") && TakesValue(PlaceOf(k))
    ensures Halts(input, Here(LexArrayValue, k, p, out))
    decreases elems, 1, |elems| - i
  {
    hide Reaches, Halts, HasAt, Elements, Element, ValueToks, StartsValue, Plain, Loose;
    ElementParts(input, p, elems, i);
    var start := Here(LexArrayValue, k, p, out);
    var q := p + |Element(elems[i]).value|;
    if Plain(elems[i]) {
      var out' := out + ValueToks(elems[i]);
      LexElement(input, k, p, elems[i], out);
      NextElement(input, k, q, out');
      ElementsHalt(input, k, q + 2, elems, i + 1, j, out');
      HaltsLater(input, Here(LexArrayValueEnd, k, q, out'), Here(LexArrayValue, k, q + 2, out'));
      HaltsLater(input, start, Here(LexArrayValueEnd, k, q, out'));
    } else {
      EnterElement(input, k, p, out);
      ValueHalts(input, Frame(LexArrayValueEnd, k), p, elems[i], out);
      HaltsLater(input, start, Here(LexValue, Frame(LexArrayValueEnd, k), p, out));
    }
  }

  // ---- assignments ----

  lemma PairHalts(input: string, p: nat, k: string, v: Value, out: seq<Token>)
    requires CleanKey(k) && Loose(v) && !Plain(v) && Element(v).Success?
    requires HasAt(input, p, PairText(k, Element(v).value))
    ensures Halts(input, Here(LexTop, Empty, p, out))
  {
    hide CleanKey, Loose, Plain, Element, Reaches, Halts, MaybeQuoted, NameTok;
    var e, q := Element(v).value, p + |MaybeQuoted(k)|;
    var out' := out + KeyToks(k);
    PairStarts(input, p, k, e);
    PairParts(input, p, MaybeQuoted(k), e);
    EnterKey(input, p, out);
    LexKey(input, p, k, " = " + (e + "\n"), out);
    LexEquals(input, q, out');
    ValueHalts(input, TOP, q + 3, v, out');
    HaltsLater(input, Here(LexKeyEnd, TOP, q, out'), Here(LexValue, TOP, q + 3, out'));
    HaltsLater(input, Here(LexKeyStart, TOP, p, out), Here(LexKeyEnd, TOP, q, out'));
    HaltsLater(input, Here(LexTop, Empty, p, out), Here(LexKeyStart, TOP, p, out));
  }

  /** So does a printed assignment of such a value, with its indentation. */
  lemma AssignHalts(input: string, p: nat, indent: string, k: string, v: Value, out: seq<Token>)
    requires CleanKey(k) && Loose(v) && !Plain(v) && Element(v).Success? && AllSkipped(indent)
    requires HasAt(input, p, indent + PairText(k, Element(v).value))
    ensures Halts(input, Here(LexTop, Empty, p, out))
  {
    hide PairText, HasAt, Element, Plain, Loose, CleanKey, AllSkipped, Reaches, Halts;
    HasSplit(input, p, indent, PairText(k, Element(v).value));
    LexBlanks(input, p, indent, out);
    PairHalts(input, p + |indent|, k, v, out);
    HaltsLater(input, Here(LexTop, Empty, p, out), Here(LexTop, Empty, p + |indent|, out));
  }
}
