/** What the scalar tokens stand for, said piece by piece and without the functions that read
them: integers as signed groups of digits, strings as runes, escape sequences and folds. */
module Scalars {
  import opened Tokens
  import opened Outcomes
  import opened Escapes
  import opened Trees
  import opened ParserSpec
  import EncoderSpec

  // ---- integers ----

  predicate IsDigits(ds: seq<nat>) {
    ds != [] && forall i :: 0 <= i < |ds| ==> ds[i] < 10
  }

  predicate AreGroups(gs: seq<seq<nat>>) {
    gs != [] && forall i :: 0 <= i < |gs| ==> IsDigits(gs[i])
  }

  function DigitRune(d: nat): char
    requires d < 10
  {
    "0123456789"[d]
  }

  function DigitsText(ds: seq<nat>): (s: string)
    requires forall i :: 0 <= i < |ds| ==> ds[i] < 10
    ensures |s| == |ds| && forall i :: 0 <= i < |s| ==> s[i] == DigitRune(ds[i])
  {
    if ds == [] then [] else [DigitRune(ds[0])] + DigitsText(ds[1..])
  }

  // Groups of digits with single underscores between them.
  function GroupsText(gs: seq<seq<nat>>): string
    requires AreGroups(gs)
  {
    if |gs| == 1 then DigitsText(gs[0]) else DigitsText(gs[0]) + ("_" + GroupsText(gs[1..]))
  }

  function Flat(gs: seq<seq<nat>>): (ds: seq<nat>)
    requires forall i :: 0 <= i < |gs| ==> IsDigits(gs[i])
    ensures forall i :: 0 <= i < |ds| ==> ds[i] < 10
    ensures gs != [] ==> ds != []
  {
    if gs == [] then [] else
      assert IsDigits(gs[0]);
      gs[0] + Flat(gs[1..])
  }

  function Positional(ds: seq<nat>): nat {
    if ds == [] then 0 else 10 * Positional(ds[..|ds| - 1]) + ds[|ds| - 1]
  }

  datatype Sign = NoSign | Plus | Minus

  function SignText(sign: Sign): string {
    match sign
    case NoSign => ""
    case Plus => "+"
    case Minus => "-"
  }

  lemma DigitRunes(d: nat)
    requires d < 10
    ensures '0' <= DigitRune(d) <= '9' && DigitRune(d) as int - '0' as int == d && DigitRune(d) != '_'
  {
    assert d == 0 || d == 1 || d == 2 || d == 3 || d == 4 || d == 5 || d == 6 || d == 7 || d == 8 || d == 9;
  }

  lemma DigitsAreDigits(ds: seq<nat>)
    requires forall i :: 0 <= i < |ds| ==> ds[i] < 10
    ensures AllDigits(DigitsText(ds)) && '_' !in DigitsText(ds)
  {
    hide DigitRune;
    var s := DigitsText(ds);
    forall i | 0 <= i < |s|
      ensures '0' <= s[i] <= '9' && s[i] != '_'
    {
      DigitRunes(ds[i]);
    }
  }

  lemma {:induction false} DigitsValue(ds: seq<nat>)
    requires forall i :: 0 <= i < |ds| ==> ds[i] < 10
    ensures AllDigits(DigitsText(ds)) && Decimal(DigitsText(ds)) == Positional(ds)
  {
    hide DigitRune;
    DigitsAreDigits(ds);
    if ds != [] {
      var init := ds[..|ds| - 1];
      DigitsValue(init);
      assert DigitsText(ds)[..|ds| - 1] == DigitsText(init);
      DigitRunes(ds[|ds| - 1]);
    }
  }

  lemma {:induction false} WithoutAppend(a: string, b: string)
    ensures WithoutUnderscores(a + b) == WithoutUnderscores(a) + WithoutUnderscores(b)
  {
    if a == [] {
      assert a + b == b;
    } else {
      assert (a + b)[1..] == a[1..] + b;
      WithoutAppend(a[1..], b);
    }
  }

  lemma {:induction false} WithoutNothing(s: string)
    requires '_' !in s
    ensures WithoutUnderscores(s) == s
  {
    if s != [] {
      WithoutNothing(s[1..]);
      assert s == [s[0]] + s[1..];
    }
  }

  lemma DigitsAppend(a: seq<nat>, b: seq<nat>)
    requires (forall i :: 0 <= i < |a| ==> a[i] < 10) && forall i :: 0 <= i < |b| ==> b[i] < 10
    ensures DigitsText(a + b) == DigitsText(a) + DigitsText(b)
  {
  }

  lemma {:induction false} GroupsFlat(gs: seq<seq<nat>>)
    requires AreGroups(gs)
    ensures WithoutUnderscores(GroupsText(gs)) == DigitsText(Flat(gs))
    ensures GroupsText(gs) != [] && GroupsText(gs)[0] != '_' && UnderscoresOK(GroupsText(gs))
    decreases |gs|
  {
    hide DigitRune, DigitsText, WithoutUnderscores, UnderscoresOK;
    GroupText(gs[0]);
    if |gs| == 1 {
      assert Flat(gs[1..]) == [];
      assert Flat(gs) == gs[0];
    } else {
      GroupsFlat(gs[1..]);
      GroupsJoin(gs[0], GroupsText(gs[1..]), Flat(gs[1..]));
    }
  }

  lemma GroupText(ds: seq<nat>)
    requires IsDigits(ds)
    ensures var s := DigitsText(ds);
            && WithoutUnderscores(s) == s && s != [] && s[0] != '_' && '_' !in s && UnderscoresOK(s)
  {
    hide DigitRune;
    DigitsAreDigits(ds);
    WithoutNothing(DigitsText(ds));
  }

  lemma WithoutOne(rest: string)
    ensures WithoutUnderscores("_" + rest) == WithoutUnderscores(rest)
  {
    assert ("_" + rest)[1..] == rest;
    assert [] + WithoutUnderscores(rest) == WithoutUnderscores(rest);
  }

  lemma TextStarts(a: string, b: string)
    requires a != []
    ensures a + b != [] && (a + b)[0] == a[0]
  {
  }

  lemma GroupsJoin(ds: seq<nat>, rest: string, more: seq<nat>)
    requires IsDigits(ds) && (forall i :: 0 <= i < |more| ==> more[i] < 10)
    requires WithoutUnderscores(rest) == DigitsText(more) && rest != [] && rest[0] != '_' && UnderscoresOK(rest)
    ensures var s := DigitsText(ds) + ("_" + rest);
            && WithoutUnderscores(s) == DigitsText(ds + more) && s != [] && s[0] != '_' && UnderscoresOK(s)
  {
    hide DigitRune, DigitsText, UnderscoresOK, WithoutUnderscores;
    GroupText(ds);
    WithoutAppend(DigitsText(ds), "_" + rest);
    WithoutOne(rest);
    DigitsAppend(ds, more);
    UnderscoreBetween(DigitsText(ds), rest);
    TextStarts(DigitsText(ds), "_" + rest);
  }

  lemma UnderscoreBetween(a: string, b: string)
    requires a != [] && '_' !in a && b != [] && b[0] != '_' && UnderscoresOK(b)
    ensures UnderscoresOK(a + ("_" + b))
  {
    var s := a + ("_" + b);
    assert s[|s| - 1] == b[|b| - 1];
    assert forall i :: 0 <= i < |a| ==> s[i] == a[i] && a[i] in a;
    forall i | 0 <= i < |s| && s[i] == '_'
      ensures i > 0 && s[i - 1] != '_'
    {
      assert i == |a| ==> s[i - 1] == a[i - 1] && a[i - 1] in a;
      assert i > |a| ==> s[i] == b[i - |a| - 1];
      assert i > |a| + 1 ==> s[i - 1] == b[i - |a| - 2];
    }
  }

  lemma SignedText(sign: Sign, gs: seq<seq<nat>>)
    requires AreGroups(gs)
    ensures var t := SignText(sign) + GroupsText(gs);
            && UnderscoresOK(t) && WithoutUnderscores(t) == SignText(sign) + DigitsText(Flat(gs))
  {
    GroupsFlat(gs);
    var a, b := SignText(sign), GroupsText(gs);
    WithoutNothing(a);
    WithoutAppend(a, b);
    if sign.NoSign? {
      assert a + b == b;
    } else {
      var t := a + b;
      assert t[|t| - 1] == b[|b| - 1];
      forall i | 0 <= i < |t| && t[i] == '_'
        ensures i > 0 && t[i - 1] != '_'
      {
        assert i > 0 ==> t[i] == b[i - 1];
        assert i > 1 ==> t[i - 1] == b[i - 2];
      }
    }
  }

  /** A sign and groups of digits with single underscores between them are read as the integer
      that the digits denote in decimal, if that fits 64 bits, and rejected otherwise. */
  lemma IntegerRead(sign: Sign, gs: seq<seq<nat>>)
    requires AreGroups(gs)
    ensures var n := Signed(sign, Positional(Flat(gs)));
            Scalar(Token(ItemInteger, SignText(sign) + GroupsText(gs)))
            == if -0x8000_0000_0000_0000 <= n <= 0x7FFF_FFFF_FFFF_FFFF then Ok(Integer(n)) else Rejected
  {
    hide GroupsText, UnderscoresOK, WithoutUnderscores, DigitsText, Flat, Positional, ParseInt;
    SignedText(sign, gs);
    ParsesDigits(sign, Flat(gs));
  }

  function Signed(sign: Sign, n: nat): int {
    var m: int := n;
    if sign.Minus? then -m else m
  }

  lemma ParsesDigits(sign: Sign, ds: seq<nat>)
    requires IsDigits(ds)
    ensures var n := Signed(sign, Positional(ds));
            ParseInt(SignText(sign) + DigitsText(ds)) == if IsInt64(n) then Ok(n) else Rejected
  {
    hide DigitRune, Positional, Decimal;
    var digits := DigitsText(ds);
    DigitsValue(ds);
    DigitRunes(ds[0]);
    var t := SignText(sign) + digits;
    if sign.NoSign? {
      assert t == digits;
    } else {
      assert t[1..] == digits;
    }
  }

  /** An underscore at the end, or before another one, is rejected. */
  lemma UnderscoreMisplaced(val: string, i: nat)
    requires i < |val| && val[i] == '_' && (i == |val| - 1 || val[i + 1] == '_')
    ensures Scalar(Token(ItemInteger, val)) == Rejected
  {
    assert i < |val| - 1 ==> val[i + 1] == '_' && val[i + 1 - 1] == '_';
  }

  // The digits of a number, without leading zeros.
  function DigitsOf(n: nat): (ds: seq<nat>)
    ensures IsDigits(ds) && (ds[0] != 0 || ds == [0])
  {
    if n < 10 then [n] else DigitsOf(n / 10) + [n % 10]
  }

  lemma {:induction false} DigitsOfValue(n: nat)
    ensures Positional(DigitsOf(n)) == n
  {
    if n >= 10 {
      DigitsOfValue(n / 10);
      var ds := DigitsOf(n);
      assert ds[..|ds| - 1] == DigitsOf(n / 10);
    }
  }

  lemma {:induction false} NatTextDigits(n: nat)
    ensures EncoderSpec.NatText(n) == DigitsText(DigitsOf(n))
  {
    if n >= 10 {
      NatTextDigits(n / 10);
      DigitsAppend(DigitsOf(n / 10), [n % 10]);
      LastDigit(n % 10);
    } else {
      LastDigit(n);
    }
  }

  lemma LastDigit(d: nat)
    requires d < 10
    ensures DigitsText([d]) == [EncoderSpec.Digit(d)]
  {
    DigitRunes(d);
  }

  /** Integers are written in decimal: a minus sign if they are negative, and digits without
      leading zeros. */
  lemma IntegerWritten(n: int)
    ensures var m := if n < 0 then -n else n;
            && EncoderSpec.IntText(n) == SignText(if n < 0 then Minus else NoSign) + DigitsText(DigitsOf(m))
            && Positional(DigitsOf(m)) == m
  {
    var m := if n < 0 then -n else n;
    NatTextDigits(m);
    DigitsOfValue(m);
    assert "" + DigitsText(DigitsOf(m)) == DigitsText(DigitsOf(m));
  }

  // ---- strings ----

  // A rune, an escape sequence, or in a multi-line string a backslash, a line feed and blanks.
  datatype Part =
    | Rune(c: char)
    | Short(c: char)
    | Unicode(n: nat, caps: seq<bool>)
    | Fold(blanks: string)

  predicate IsPart(p: Part) {
    match p
    case Rune(c) => c != '\\'
    case Short(c) => c in SHORT
    case Unicode(n, caps) => (|caps| == 4 || |caps| == 8) && n < Pow16(|caps|)
    case Fold(blanks) => forall i :: 0 <= i < |blanks| ==> blanks[i] as int in SPACES
  }

  // The code points with the Unicode property White_Space.
  const SPACES: set<int> := {
    9, 10, 11, 12, 13, 0x20, 0x85, 0xA0, 0x1680, 0x2000, 0x2001, 0x2002, 0x2003, 0x2004, 0x2005, 0x2006, 0x2007,
    0x2008, 0x2009, 0x200A, 0x2028, 0x2029, 0x202F, 0x205F, 0x3000}

  predicate AreParts(ps: seq<Part>) {
    forall i :: 0 <= i < |ps| ==> IsPart(ps[i])
  }

  function PartText(p: Part): string {
    match p
    case Rune(c) => [c]
    case Short(c) => ['\\', c]
    case Unicode(n, caps) => UnicodeEscape(n, caps)
    case Fold(blanks) => "\\\n" + blanks
  }

  function PartsText(ps: seq<Part>): string {
    if ps == [] then [] else PartText(ps[0]) + PartsText(ps[1..])
  }

  // The string that the parts stand for; a code point that is no rune is rejected.
  function PartsValue(ps: seq<Part>): Outcome<string>
    requires AreParts(ps)
  {
    if ps == [] then Ok([]) else
      var rest := PartsValue(ps[1..]);
      match ps[0]
      case Rune(c) => Prepend([c], rest)
      case Short(c) => Prepend([SHORT[c] as char], rest)
      case Unicode(n, _) => if n < 0xD800 || 0xE000 <= n <= 0x10FFFF then Prepend([n as char], rest) else Rejected
      case Fold(_) => rest
  }

  predicate NoFolds(ps: seq<Part>) {
    forall i :: 0 <= i < |ps| ==> !ps[i].Fold?
  }

  /** A basic string is read part by part. */
  lemma {:induction false} StringRead(ps: seq<Part>)
    requires AreParts(ps) && NoFolds(ps)
    ensures Unescape(PartsText(ps)) == PartsValue(ps)
  {
    if ps != [] {
      StringRead(ps[1..]);
      assert IsPart(ps[0]);
      match ps[0]
      case Rune(c) => PlainRead(c, PartsText(ps[1..]));
      case Short(c) => ShortEscapeRead(c, PartsText(ps[1..]));
      case Unicode(n, caps) => UnicodeEscapeRead(n, caps, PartsText(ps[1..]));
    }
  }

  // ---- multi-line strings ----

  lemma SpacesAreSpaces(c: char)
    ensures IsSpace(c) <==> c as int in SPACES
  {
  }

  predicate AtSpace(p: Part) {
    p.Rune? && p.c as int in SPACES
  }

  // The text after a fold does not begin with a blank, and no escaped backslash stands before a
  // line feed.
  predicate Foldable(ps: seq<Part>) {
    forall i :: 0 <= i < |ps| ==>
      && (ps[i].Fold? && i + 1 < |ps| ==> !AtSpace(ps[i + 1]))
      && (ps[i] == Short('\\') && i + 1 < |ps| ==> ps[i + 1] != Rune('\n'))
  }

  function Unfolded(ps: seq<Part>): (qs: seq<Part>)
    ensures NoFolds(qs) && |qs| <= |ps|
    ensures AreParts(ps) ==> AreParts(qs)
  {
    if ps == [] then [] else (if ps[0].Fold? then [] else [ps[0]]) + Unfolded(ps[1..])
  }

  lemma {:induction false} Trims(blanks: string, rest: string)
    requires forall i :: 0 <= i < |blanks| ==> blanks[i] as int in SPACES
    requires rest == [] || rest[0] as int !in SPACES
    ensures TrimLeft(blanks + rest) == rest
  {
    if blanks == [] {
      assert blanks + rest == rest;
      if rest != [] {
        SpacesAreSpaces(rest[0]);
      }
    } else {
      SpacesAreSpaces(blanks[0]);
      assert (blanks + rest)[1..] == blanks[1..] + rest;
      Trims(blanks[1..], rest);
    }
  }

  lemma {:induction false} StripsNothing(p: string, rest: string)
    requires forall i :: 0 <= i < |p| ==> p[i] == '\\' ==> (p + rest)[i + 1..] == [] || (p + rest)[i + 1] != '\n'
    ensures StripEscapedWhitespace(p + rest) == p + StripEscapedWhitespace(rest)
  {
    if p == [] {
      assert p + rest == rest;
    } else {
      var s := p + rest;
      assert s[1..] == p[1..] + rest;
      assert s[0] == '\\' ==> s[0 + 1..] == [] || s[0 + 1] != '\n';
      forall i | 0 <= i < |p[1..]| && p[1..][i] == '\\'
        ensures (p[1..] + rest)[i + 1..] == [] || (p[1..] + rest)[i + 1] != '\n'
      {
        assert p[i + 1] == '\\';
        assert s[i + 2..] == (p[1..] + rest)[i + 1..];
      }
      StripsNothing(p[1..], rest);
    }
  }

  lemma FirstRune(ps: seq<Part>)
    requires AreParts(ps) && ps != []
    ensures PartsText(ps) != []
    ensures PartsText(ps)[0] == if ps[0].Rune? then ps[0].c else '\\'
  {
    assert PartsText(ps)[0] == PartText(ps[0])[0];
  }

  lemma HexTextRunes(n: nat, caps: seq<bool>)
    ensures forall i :: 0 <= i < |caps| ==> HexText(n, caps)[i] != '\\'
  {
    if caps != [] {
      DigitValues(n % 16);
      HexTextRunes(n / 16, caps[..|caps| - 1]);
    }
  }

  lemma FoldableRest(ps: seq<Part>)
    requires Foldable(ps) && ps != []
    ensures Foldable(ps[1..])
  {
    hide AtSpace;
    var qs := ps[1..];
    forall i | 0 <= i < |qs|
      ensures (qs[i].Fold? && i + 1 < |qs| ==> !AtSpace(qs[i + 1]))
      ensures (qs[i] == Short('\\') && i + 1 < |qs| ==> qs[i + 1] != Rune('\n'))
    {
      assert qs[i] == ps[i + 1];
      assert i + 1 < |qs| ==> qs[i + 1] == ps[i + 2];
    }
  }

  // What comes after a part that is not to be taken for a part of it.
  lemma NextRune(ps: seq<Part>)
    requires AreParts(ps) && Foldable(ps) && ps != []
    ensures var rest := PartsText(ps[1..]);
            rest == [] || ((ps[0].Fold? ==> rest[0] as int !in SPACES) && (ps[0] == Short('\\') ==> rest[0] != '\n'))
  {
    if |ps| > 1 {
      FirstRune(ps[1..]);
      assert ps[1..][0] == ps[1];
    }
  }

  lemma {:induction false} Strips(ps: seq<Part>)
    requires AreParts(ps) && Foldable(ps)
    ensures StripEscapedWhitespace(PartsText(ps)) == PartsText(Unfolded(ps))
  {
    hide IsSpace, HexText, StripEscapedWhitespace, Foldable;
    if ps == [] {
      StripsEmpty();
    } else {
      var p, rest := ps[0], PartsText(ps[1..]);
      assert IsPart(p);
      FoldableRest(ps);
      NextRune(ps);
      Strips(ps[1..]);
      if p.Fold? {
        StripsFold(p.blanks, rest);
        assert Unfolded(ps) == Unfolded(ps[1..]);
      } else {
        StripsPart(p, rest);
        assert Unfolded(ps) == [p] + Unfolded(ps[1..]);
        assert Unfolded(ps)[1..] == Unfolded(ps[1..]);
      }
    }
  }

  lemma StripsEmpty()
    ensures StripEscapedWhitespace("") == ""
  {
  }

  lemma StripsFold(blanks: string, rest: string)
    requires IsPart(Fold(blanks)) && (rest == [] || rest[0] as int !in SPACES)
    ensures StripEscapedWhitespace("\\\n" + blanks + rest) == StripEscapedWhitespace(rest)
  {
    hide IsSpace;
    var s := "\\\n" + blanks + rest;
    assert s[2..] == blanks + rest;
    Trims(blanks, rest);
  }

  lemma StripsPart(p: Part, rest: string)
    requires IsPart(p) && !p.Fold?
    requires p == Short('\\') ==> rest == [] || rest[0] != '\n'
    ensures StripEscapedWhitespace(PartText(p) + rest) == PartText(p) + StripEscapedWhitespace(rest)
  {
    var t := PartText(p);
    if p.Unicode? {
      HexTextRunes(p.n, p.caps);
    }
    forall i | 0 <= i < |t| && t[i] == '\\'
      ensures (t + rest)[i + 1..] == [] || (t + rest)[i + 1] != '\n'
    {
      if i + 1 < |t| {
        assert (t + rest)[i + 1] == t[i + 1];
      } else {
        assert (t + rest)[i + 1..] == rest;
      }
    }
    StripsNothing(t, rest);
  }

  // The parts without the line feed that the text begins with.
  function WithoutFirst(ps: seq<Part>): seq<Part> {
    if ps != [] && ps[0] == Rune('\n') then ps[1..] else ps
  }

  /** In a multi-line string folds stand for nothing, and the first line feed does not count. */
  lemma MultilineRead(ps: seq<Part>)
    requires AreParts(ps) && Foldable(ps)
    ensures Scalar(Token(ItemMultilineString, PartsText(ps)))
         == match PartsValue(WithoutFirst(Unfolded(ps)))
            case Ok(s) => Ok(Str(s))
            case Rejected => Rejected
            case Bug(site) => Bug(site)
  {
    hide StripEscapedWhitespace, PartsText, Unfolded, Foldable, Unescape, PartsValue;
    var qs := Unfolded(ps);
    Strips(ps);
    FirstFeed(qs);
    FeedDropped(ps, qs);
    StringRead(WithoutFirst(qs));
  }

  lemma FeedDropped(ps: seq<Part>, qs: seq<Part>)
    requires StripEscapedWhitespace(PartsText(ps)) == PartsText(qs)
    requires StripFirstNewline(PartsText(qs)) == PartsText(WithoutFirst(qs))
    ensures Trimmed(PartsText(ps)) == PartsText(WithoutFirst(qs))
  {
  }

  lemma FirstFeed(qs: seq<Part>)
    requires AreParts(qs)
    ensures StripFirstNewline(PartsText(qs)) == PartsText(WithoutFirst(qs))
  {
    hide HexText;
    if qs != [] {
      FirstRune(qs);
      if qs[0] == Rune('\n') {
        assert PartsText(qs) == "\n" + PartsText(qs[1..]);
        assert PartsText(qs)[1..] == PartsText(qs[1..]);
      }
    }
  }

  /** Raw strings stand for their text; a multi-line one without the line feed it begins with. */
  lemma RawRead(s: string)
    ensures Scalar(Token(ItemRawString, s)) == Ok(Str(s))
    ensures Scalar(Token(ItemRawMultilineString, "\n" + s)) == Ok(Str(s))
    ensures s == [] || s[0] != '\n' ==> Scalar(Token(ItemRawMultilineString, s)) == Ok(Str(s))
  {
    assert ("\n" + s)[1..] == s;
  }
}
