/** Exactly which keys and which strings survive printing and parsing. */
module Limits {
  import opened Runes
  import opened Tokens
  import opened LexSpec
  import opened LexRun
  import opened Outcomes
  import opened Escapes
  import opened Trees
  import opened Sorting
  import opened ParserSpec
  import opened EncoderSpec
  import opened LexPrinted
  import opened LexDocument
  import opened LexNul
  import opened EndOfInput
  import opened RoundTrip
  import opened Monotone

  // Printing the tree and parsing the text gives the tree.
  ghost predicate Survives(indent: string, t: Table) {
    var text := Encode(indent, Hash(t));
    && text.Success?
    && Parse(LexAll(text.value)).Ok?
    && Parse(LexAll(text.value)).value.mapping == t
  }

  // ---- one binding ----

  lemma OneBindingText(indent: string, k: string, v: Value)
    requires k != [] && GoType(v).Success? && !IsHash(GoType(v).value) && Element(v).Success?
    ensures Encode(indent, Hash(Table(map[k := v]))) == Success(PairText(k, Element(v).value))
  {
    var t := Table(map[k := v]);
    SortedUnique(DirectKeys(t), [k]);
    SortedUnique(SubKeys(t), []);
    var e := Element(v).value;
    var line := PairText(k, e);
    var none: Key := [];
    assert none + [k] == [k] && ValidPath([k]);
    OneLine(MaybeQuoted(k), e);
    assert KeyEqElement(indent, none + [k], v) == Success(line);
    assert [k][1..] == [];
    assert Directs(indent, [], t, []) == Success("");
    assert Directs(indent, [], t, [k]) == Success(line);
    assert Subs(indent, line != "", [], t, []) == Success("");
    assert Body(indent, false, [], t) == Success(line + "");
    assert line + "" == line;
  }

  lemma OneLine(k: string, e: string)
    ensures "" + k + " = " + e + "\n" == k + (" = " + (e + "\n"))
    ensures k + (" = " + (e + "\n")) + "" == k + (" = " + (e + "\n"))
  {
  }

  // ---- lexing what does not survive ----

  // The read w of a text that stands for the quoted key r gives too few runes.
  predicate Short(w: string, r: string) {
    Unescape(w).Ok? ==> |Unescape(w).value| <= |r| && ('\\' in r ==> |Unescape(w).value| < |r|)
  }

  const TAIL := "\" = true\n"

  // The rest r of a quoted key stands at p, with the end of the line behind it.
  predicate KeyAt(input: string, p: nat, r: string) {
    HasAt(input, p, EscapeQuotes(r) + TAIL)
  }

  lemma KeyFirst(input: string, p: nat, r: string)
    requires KeyAt(input, p, r) && r != []
    ensures p < |input| && input[p] == if r[0] == '"' then '\\' else r[0]
    ensures r[0] == '"' ==> p + 1 < |input| && input[p + 1] == '"' && KeyAt(input, p + 2, r[1..])
    ensures r[0] != '"' ==> KeyAt(input, p + 1, r[1..])
  {
    var e := if r[0] == '"' then "\\\"" else [r[0]];
    var rest := EscapeQuotes(r[1..]) + TAIL;
    assert EscapeQuotes(r) + TAIL == e + rest;
    HasSplit(input, p, e, rest);
    var here := input[p..p + |e|];
    assert here[0] == input[p] && (|e| == 2 ==> here[1] == input[p + 1]);
  }

  lemma KeyLast(input: string, p: nat)
    requires KeyAt(input, p, "")
    ensures p < |input| && input[p] == '"' && HasAt(input, p + 1, " = true\n")
  {
    assert EscapeQuotes("") + TAIL == "\"" + " = true\n";
    HasSplit(input, p, "\"", " = true\n");
    assert input[p..p + 1][0] == input[p];
  }

  // The next rune is a hexadecimal digit: it is the next rune of the key.
  lemma {:induction false} KeyDigits(input: string, p: nat, r: string, m: nat)
    requires KeyAt(input, p, r) && p + m <= |input| && forall i :: p <= i < p + m ==> IsHexadecimal(input[i])
    ensures m <= |r| && KeyAt(input, p + m, r[m..])
    decreases m
  {
    if m > 0 {
      assert IsHexadecimal(input[p]);
      if r == [] {
        KeyLast(input, p);
        assert false;
      } else {
        KeyFirst(input, p, r);
        KeyDigits(input, p + 1, r[1..], m - 1);
        assert r[1..][m - 1..] == r[m..];
      }
    } else {
      assert r[0..] == r;
    }
  }

  // The end of the line fails an open string.
  lemma TailFails(input: string, k: Stack, start: nat, p: nat, out: seq<Token>) returns (d: Config)
    requires start <= p && HasAt(input, p, " = true\n") && TakesString(PlaceOf(k))
    ensures Reaches(input, Config(LexString, k, start, p, out), d) && Failed(d, out)
  {
    assert " = true\n" == " = true" + "\n";
    HasSplit(input, p, " = true", "\n");
    InnerTail();
    LexInner(input, k, start, p, " = true", out);
    assert input[p + 7..p + 8][0] == input[p + 7];
    d := StopAt(input, k, start, p + 7, out);
  }

  lemma {:induction false} InnerPlain(w: string)
    requires forall i :: 0 <= i < |w| ==> w[i] != '\\' && w[i] != '"' && w[i] != EOF && !IsNL(w[i])
    ensures Inner(w)
  {
    if w != [] {
      InnerPlain(w[1..]);
    }
  }

  lemma InnerTail()
    ensures Inner(" = true")
  {
    InnerPlain(" = true");
  }

  // A backslash and what follows it: the place after the escape sequence, or failure.
  lemma ReadAnyEscape(input: string, k: Stack, start: nat, p: nat, out: seq<Token>) returns (d: Config, m: nat)
    requires start <= p < |input| && input[p] == '\\' && TakesString(PlaceOf(k))
    ensures Reaches(input, Config(LexString, k, start, p, out), d)
    ensures Failed(d, out) || (d == Config(LexString, k, start, p + m, out) && p + m <= |input| && m >= 2
        && PieceAt(input, p, m))
  {
    hide Closed;
    var e := Config(LexStringEscape, Frame(LexString, k), start, p + 1, out);
    StepTo(input, Config(LexString, k, start, p, out), e);
    d := Step(input, e);
    StepTo(input, e, d);
    m := 2;
    var c := Peek(input, p + 1);
    if c == 'u' || c == 'U' {
      m := if c == 'u' then 6 else 10;
      d := ReadHex(input, k, start, p, if c == 'u' then 4 else 8, out);
    }
  }

  // The escape sequence at p has m runes.
  predicate PieceAt(input: string, p: nat, m: nat) {
    && p + 1 < |input| && p + m <= |input|
    && if input[p + 1] == 'u' then m == 6 && forall i :: p + 2 <= i < p + 6 ==> IsHexadecimal(input[i])
       else if input[p + 1] == 'U' then m == 10 && forall i :: p + 2 <= i < p + 10 ==> IsHexadecimal(input[i])
       else m == 2
  }

  lemma ReadHex(input: string, k: Stack, start: nat, p: nat, n: nat, out: seq<Token>) returns (d: Config)
    requires start <= p && p + 1 < |input| && TakesString(PlaceOf(k)) && (n == 4 || n == 8)
    ensures var u := Config(if n == 4 then LexShortUnicodeEscape
        else LexLongUnicodeEscape, Frame(LexString, k), start, p + 2, out);
            Reaches(input, u, d)
    ensures Failed(d, out) || (d == Config(LexString, k, start, p + 2 + n, out) && p + 2 + n <= |input|
                               && forall i :: p + 2 <= i < p + 2 + n ==> IsHexadecimal(input[i]))
  {
    var u := Config(if n == 4 then LexShortUnicodeEscape
        else LexLongUnicodeEscape, Frame(LexString, k), start, p + 2, out);
    d := Step(input, u);
    StepTo(input, u, d);
  }

  // ---- reading the quoted key ----

  // One piece of the text for n runes of the key.
  lemma ShortMore(w: string, m: nat, r: string, n: nat)
    requires w != [] && PieceLength(w) == m <= |w| && 1 <= n <= |r| && Short(w[m..], r[n..])
    requires '\\' in r[..n] ==> n >= 2
    ensures Short(w, r)
  {
    assert r == r[..n] + r[n..];
    if Unescape(w).Ok? {
      assert Unescape(w[m..]).Ok?;
      assert |Unescape(w).value| == 1 + |Unescape(w[m..]).value|;
    }
  }

  // The last piece of the text, which hides a quote of the key behind a backslash.
  lemma ShortEnd(w: string, r: string)
    requires w != [] && PieceLength(w) == |w| && |r| >= 2
    ensures Short(w, r)
  {
    assert w[|w|..] == [];
  }

  predicate Harmless(r: string) {
    forall i :: 0 <= i < |r| ==> r[i] != EOF && !IsNL(r[i])
  }

  // The string read from p on fails, or it ends at n and is too short for the key.
  predicate Reading(input: string, k: Stack, start: nat, p: nat, r: string, out: seq<Token>, d: Config, n: nat)
    requires start <= p && k.Frame?
  {
    || Failed(d, out)
    || (&& p <= n < |input| && d == Popped(k, n + 1, out + [Token(ItemString, input[start..n])])
        && Short(input[p..n], r) && ('\\' in r || Harmless(r)))
  }

  // One piece of the text at p for c runes of the key.
  lemma ReadingMore(input: string, k: Stack, start: nat, p: nat, m: nat, r: string, c: nat, out: seq<Token>, d: Config,
      n: nat)
    requires start <= p && k.Frame? && 1 <= c <= |r| && m > 0 && Reading(input, k, start, p + m, r[c..], out, d, n)
    requires p + m <= |input| && (p + m <= n < |input| ==> PieceLength(input[p..n]) == m)
    requires if '\\' in r[..c] then c >= 2 else Harmless(r[..c])
    ensures Reading(input, k, start, p, r, out, d, n)
  {
    assert r == r[..c] + r[c..];
    if !Failed(d, out) {
      assert input[p..n][m..] == input[p + m..n];
      ShortMore(input[p..n], m, r, c);
    }
  }

  // An escape sequence is one piece of every text that holds it.
  lemma PieceOfText(input: string, p: nat, m: nat, n: nat)
    requires p + m <= n <= |input| && m >= 2 && input[p] == '\\' && PieceAt(input, p, m)
    ensures PieceLength(input[p..n]) == m
  {
    var w := input[p..n];
    assert w[0] == input[p] && w[1] == input[p + 1];
  }

  lemma {:induction false} ReadShort(input: string, k: Stack, start: nat, p: nat, r: string, out: seq<Token>)
      returns (d: Config, n: nat)
    requires start <= p && KeyAt(input, p, r) && TakesString(PlaceOf(k)) && k.Frame?
    ensures Reaches(input, Config(LexString, k, start, p, out), d)
    ensures Reading(input, k, start, p, r, out, d, n)
    decreases |r|, 1
  {
    hide PlaceOf, Closed, EscapeQuotes, HexDigits;
    if r == [] {
      KeyLast(input, p);
      CloseQuote(input, k, start, p, out);
      d, n := Popped(k, p + 1, out + [Token(ItemString, input[start..p])]), p;
    } else {
      KeyFirst(input, p, r);
      if r[0] == '"' {
        ReadEscape(input, k, start, p, out);
        d, n := ReadShort(input, k, start, p + 2, r[1..], out);
        if p + 2 <= n < |input| {
          PieceOfText(input, p, 2, n);
        }
        ReadingMore(input, k, start, p, 2, r, 1, out, d, n);
      } else if r[0] == EOF || IsNL(r[0]) {
        n := p;
        d := StopAt(input, k, start, p, out);
      } else if r[0] == '\\' {
        d, n := ReadBackslash(input, k, start, p, r, out);
      } else {
        LexPrinted.ReadPlain(input, k, start, p, out);
        d, n := ReadShort(input, k, start, p + 1, r[1..], out);
        if p + 1 <= n < |input| {
          assert input[p..n][0] == input[p];
        }
        ReadingMore(input, k, start, p, 1, r, 1, out, d, n);
      }
    }
  }

  // A backslash and a quote of the key: the printed backslashes are one escape sequence, and the
  // quote ends the string.
  lemma EndEarly(input: string, k: Stack, start: nat, p: nat, r: string, out: seq<Token>) returns (d: Config, n: nat)
    requires start <= p && p + 2 < |input| && input[p] == '\\' && input[p + 1] == '\\' && input[p + 2] == '"'
    requires TakesString(PlaceOf(k)) && k.Frame? && |r| >= 2 && r[0] == '\\'
    ensures Reaches(input, Config(LexString, k, start, p, out), d)
    ensures Reading(input, k, start, p, r, out, d, n)
  {
    hide PlaceOf, HexDigits, Closed, Unescape;
    ReadEscape(input, k, start, p, out);
    CloseQuote(input, k, start, p + 2, out);
    d, n := Popped(k, p + 3, out + [Token(ItemString, input[start..p + 2])]), p + 2;
    PieceOfText(input, p, 2, n);
    ShortEnd(input[p..n], r);
  }

  // A backslash of the key takes part of the rest of the key, or the closing quote, with it.
  lemma {:induction false} ReadBackslash(input: string, k: Stack, start: nat, p: nat, r: string, out: seq<Token>)
      returns (d: Config, n: nat)
    requires start <= p && KeyAt(input, p, r) && TakesString(PlaceOf(k)) && k.Frame? && r != [] && r[0] == '\\'
    ensures Reaches(input, Config(LexString, k, start, p, out), d)
    ensures Reading(input, k, start, p, r, out, d, n)
    decreases |r|, 0
  {
    hide PlaceOf, TakesString, HexDigits, EscapeQuotes, Reaches, Unescape, HasAt, Short, Harmless, KeyAt, PieceLength;
    KeyFirst(input, p, r);
    n := p;
    if r[1..] == [] {
      KeyLast(input, p + 1);
      ReadEscape(input, k, start, p, out);
      d := TailFails(input, k, start, p + 2, out);
      Chain(input, Config(LexString, k, start, p, out), Config(LexString, k, start, p + 2, out), d);
    } else {
      KeyFirst(input, p + 1, r[1..]);
      if r[1] == '"' {
        d, n := EndEarly(input, k, start, p, r, out);
      } else {
        var e, m := ReadAnyEscape(input, k, start, p, out);
        d := e;
        if !Failed(e, out) {
          KeyDigits(input, p + 2, r[1..][1..], m - 2);
          assert r[1..][1..][m - 2..] == r[m..];
          d, n := ReadShort(input, k, start, p + m, r[m..], out);
          if p + m <= n < |input| {
            PieceOfText(input, p, m, n);
          }
          ReadingMore(input, k, start, p, m, r, m, out, d, n);
          Chain(input, Config(LexString, k, start, p, out), e, d);
        }
      }
    }
  }

  // ---- the document with such a key ----

  // The run over the document gets to d.
  lemma KeyRun(k: string) returns (d: Config, n: nat)
    requires k != [] && !CleanKey(k)
    ensures var text, out := PairText(k, "true"), [Token(ItemKeyStart, [])];
            && Reaches(text, LexSpec.INIT, d)
            && Reading(text, Frame(LexKeyEnd, TOP), 1, 1, k, out, d, n)
  {
    hide PairText, KeyAt, Reading, Reaches, CleanKey, TakesString, PlaceOf, Harmless;
    var text, out := PairText(k, "true"), [Token(ItemKeyStart, [])];
    KeyRunStarts(k);
    d, n := ReadShort(text, Frame(LexKeyEnd, TOP), 1, 1, k, out);
    Chain(text, LexSpec.INIT, Here(LexString, Frame(LexKeyEnd, TOP), 1, out), d);
  }

  // Up to the opening quote of the key.
  lemma KeyRunStarts(k: string)
    requires k != [] && !CleanKey(k)
    ensures var text, out := PairText(k, "true"), [Token(ItemKeyStart, [])];
            && Reaches(text, LexSpec.INIT, Here(LexString, Frame(LexKeyEnd, TOP), 1, out))
            && KeyAt(text, 1, k) && ('\\' in k || !Harmless(k))
            && TakesString(PlaceOf(Frame(LexKeyEnd, TOP)))
  {
    hide PairText, KeyAt, Reaches, CleanKey;
    var text, out := PairText(k, "true"), [Token(ItemKeyStart, [])];
    NotBare(k);
    QuotedLine(k);
    KeyFirst(text, 1, k);
    var key, first, inside := Frame(LexKeyEnd, TOP), Here(LexKeyStart, TOP, 0, []),
        Here(LexValue, Frame(LexKeyEnd, TOP), 0, out);
    EmptyStart(out);
    EnterKey(text, 0, []);
    KeyStarts(text, 0, []);
    Chain(text, LexSpec.INIT, first, inside);
    OpenQuote(text, key, 0, out);
    Chain(text, LexSpec.INIT, inside, Here(LexString, key, 1, out));
  }

  lemma EmptyStart(out: seq<Token>)
    ensures Here(LexTop, Empty, 0, []) == LexSpec.INIT && [] + out == out
  {
  }

  lemma NotBare(k: string)
    requires k != [] && !CleanKey(k)
    ensures !AllBare(k) && ('\\' in k || !Harmless(k))
  {
    var i :| 0 <= i < |k| && (k[i] == '\\' || k[i] == EOF || IsNL(k[i]));
    assert !IsBareKeyChar(k[i]);
  }

  lemma QuotedLine(k: string)
    requires !AllBare(k)
    ensures var text := PairText(k, "true"); |text| > 0 && text[0] == '"' && KeyAt(text, 1, k)
  {
    var text := PairText(k, "true");
    assert text == "\"" + (EscapeQuotes(k) + TAIL);
    assert text[1..] == EscapeQuotes(k) + TAIL;
    assert text[1..1 + |EscapeQuotes(k) + TAIL|] == text[1..];
  }

  // A token list that begins with a key start and an error is rejected.
  lemma ErrorRejected(toks: seq<Token>)
    requires |toks| >= 2 && toks[0].typ.ItemKeyStart? && toks[1].typ.ItemError?
    ensures Parse(toks) == Rejected
  {
    assert toks[1..][0] == toks[1];
    assert ReadPair([], toks[1..]) == Rejected;
  }

  // One that begins with a key start and a string binds what the string stands for, or fails.
  lemma NameBound(toks: seq<Token>, w: string)
    requires |toks| >= 2 && toks[0].typ.ItemKeyStart? && toks[1] == Token(ItemString, w) && Parse(toks).Ok?
    ensures Unescape(w).Ok? && Unescape(w).value in Parse(toks).value.mapping.entries
  {
    assert toks[1..][0] == toks[1];
    assert ReadPair([], toks[1..]).Ok?;
    var r := ParseStmt([], toks).value;
    var st1 := Exec(ParserSpec.INIT, r.val).value;
    assert Unescape(w).value in st1.mapping.entries;
    ParseGrows(st1, r.rest);
  }

  lemma RunFrom(text: string, d: Config)
    requires Reaches(text, LexSpec.INIT, d)
    ensures d.out <= LexAll(text)
  {
    ReachesSameEnd(text, LexSpec.INIT, d);
  }

  lemma UncleanLost(indent: string, k: string)
    requires k != [] && !CleanKey(k)
    ensures !Survives(indent, Table(map[k := Bool(true)]))
  {
    hide Reaches, PairText, Encode;
    OneBindingText(indent, k, Bool(true));
    var text := PairText(k, "true");
    var d, n := KeyRun(k);
    RunFrom(text, d);
    NotBare(k);
    var toks := LexAll(text);
    if Failed(d, [Token(ItemKeyStart, [])]) {
      assert toks[0] == d.out[0] && toks[1] == d.out[1];
      ErrorRejected(toks);
    } else if Parse(toks).Ok? {
      assert toks[0] == d.out[0] && toks[1] == d.out[1];
      NameBound(toks, text[1..n]);
    }
  }

  /** A key survives printing and parsing exactly if it is free of backslashes, line breaks and
      NUL; only quotes are escaped when a key is printed. */
  lemma KeySurvives(indent: string, k: string)
    requires k != [] && AllSkipped(indent)
    ensures Survives(indent, Table(map[k := Bool(true)])) <==> CleanKey(k)
  {
    if CleanKey(k) {
      var t := Table(map[k := Bool(true)]);
      assert CleanTable(t);
      var text, st := DocumentRoundTrip(indent, t);
    } else {
      UncleanLost(indent, k);
    }
  }

  // ---- strings ----

  lemma NulNotAccepted(indent: string, t: Table)
    requires AllSkipped(indent) && KeyedTable(t) && !NulFreeTable(t)
    ensures Encode(indent, Hash(t)).Success? && !Parse(LexAll(Encode(indent, Hash(t)).value)).Ok?
  {
    hide LexAll, Parse, Body, BodyToks, KeyedTable, NulFreeTable, AllSkipped, Halts;
    LexesBody(indent, false, [], t);
    var text := Body(indent, false, [], t).value;
    assert text[0..0 + |text|] == text;
    assert HasAt(text, 0, text);
    assert Halts(text, Here(LexTop, Empty, 0, []));
    ErrorNotAccepted(text);
  }

  /** A tree whose keys survive is printed and parsed back exactly if none of its strings, at any
      depth, has a NUL, which the lexer takes for the end of the input. */
  lemma StringsSurvive(indent: string, t: Table)
    requires AllSkipped(indent) && KeyedTable(t)
    ensures Survives(indent, t) <==> NulFreeTable(t)
  {
    if NulFreeTable(t) {
      CleanIff(t);
      var text, st := DocumentRoundTrip(indent, t);
    } else {
      NulNotAccepted(indent, t);
    }
  }

  /** So a string value survives exactly if it is free of NUL. */
  lemma StringSurvives(indent: string, k: string, s: string)
    requires CleanKey(k) && AllSkipped(indent)
    ensures Survives(indent, Table(map[k := Str(s)])) <==> EOF !in s
  {
    var t := Table(map[k := Str(s)]);
    assert t.entries[k] == Str(s);
    StringsSurvive(indent, t);
  }
}
