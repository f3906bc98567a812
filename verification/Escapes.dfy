/** Escape sequences of basic strings: how the encoder writes them and the parser reads them. */
module Escapes {
  import opened Runes
  import opened Outcomes

  // ---- reading ----

  function HexValue(r: char): nat
    requires IsHexadecimal(r)
  {
    if r <= '9' then r as int - '0' as int
    else if r <= 'F' then r as int - 'A' as int + 10
    else r as int - 'a' as int + 10
  }

  predicate AllHex(s: string) {
    forall i :: 0 <= i < |s| ==> IsHexadecimal(s[i])
  }

  // strconv.ParseUint(s, 16, 32), for at most eight digits.
  function HexNumber(s: string): nat
    requires AllHex(s)
  {
    if s == [] then 0 else 16 * HexNumber(s[..|s| - 1]) + HexValue(s[|s| - 1])
  }

  // utf8.ValidRune
  predicate ValidRune(n: int) {
    0 <= n < 0xD800 || 0xE000 <= n <= 0x10FFFF
  }

  // p.asciiEscapeToUnicode
  function HexRune(s: string): Outcome<char> {
    if s == [] || !AllHex(s) then Bug(DanglingEscape)
    else if !ValidRune(HexNumber(s)) then Rejected
    else Ok(HexNumber(s) as char)
  }

  // The rune that a backslash followed by r stands for.
  function SimpleEscape(r: char): Outcome<char> {
    match r
    case 'b' => Ok('\U{8}')
    case 't' => Ok('\t')
    case 'n' => Ok('\n')
    case 'f' => Ok('\U{c}')
    case 'r' => Ok('\r')
    case '"' => Ok('"')
    case '\\' => Ok('\\')
    case _ => Bug(DanglingEscape)
  }

  // The number of runes of the piece that replaceEscapes reads at the head of s.
  function PieceLength(s: string): (n: nat)
    requires s != []
    ensures n >= 1
  {
    if s[0] != '\\' then 1
    else if |s| >= 2 && s[1] == 'u' then 6
    else if |s| >= 2 && s[1] == 'U' then 10
    else 2
  }

  // The rune that this piece stands for.
  function PieceRune(s: string): Outcome<char>
    requires s != []
  {
    if s[0] != '\\' then Ok(s[0])
    else if |s| < PieceLength(s) then Bug(DanglingEscape)
    else if s[1] == 'u' || s[1] == 'U' then HexRune(s[2..PieceLength(s)])
    else SimpleEscape(s[1])
  }

  // p.replaceEscapes, piece by piece.
  function Unescape(s: string): Outcome<string>
    decreases |s|
  {
    if s == [] then Ok([]) else
      var r :- PieceRune(s);
      var rest :- Unescape(s[PieceLength(s)..]);
      Ok([r] + rest)
  }

  function Prepend(prefix: string, o: Outcome<string>): Outcome<string> {
    if o.Ok? then Ok(prefix + o.value) else o
  }

  lemma UnescapePiece(prefix: string, s: string)
    requires s != []
    ensures match PieceRune(s)
            case Ok(r) =>
              && PieceLength(s) <= |s|
              && Prepend(prefix, Unescape(s)) == Prepend(prefix + [r], Unescape(s[PieceLength(s)..]))
            case failed => Prepend(prefix, Unescape(s)) == failed.PropagateFailure()
  {
    var p := PieceRune(s);
    if p.Ok? {
      var rest := Unescape(s[PieceLength(s)..]);
      assert Unescape(s) == Prepend([p.value], rest);
      if rest.Ok? {
        assert prefix + ([p.value] + rest.value) == (prefix + [p.value]) + rest.value;
      }
    }
  }

  /** The loop of replaceEscapes. */
  method ReplaceEscapes(s: string) returns (result: Outcome<string>)
    ensures result == Unescape(s)
  {
    var replaced: string := [];
    var r := 0;
    assert s[0..] == s;
    assert Unescape(s).Ok? ==> [] + Unescape(s).value == Unescape(s).value;
    while r < |s|
      invariant 0 <= r <= |s|
      invariant Unescape(s) == Prepend(replaced, Unescape(s[r..]))
    {
      ghost var rest := s[r..];
      ghost var n := PieceLength(rest);
      UnescapePiece(replaced, rest);
      if s[r] != '\\' {
        replaced, r := replaced + [s[r]], r + 1;
      } else {
        r := r + 1;
        if r >= |s| {
          return Bug(DanglingEscape);
        }
        var escaped;
        if s[r] == 'u' || s[r] == 'U' {
          var digits := if s[r] == 'u' then 4 else 8;
          if |s| < r + 1 + digits {
            return Bug(DanglingEscape);
          }
          assert s[r + 1..r + 1 + digits] == rest[2..n];
          escaped := HexRune(s[r + 1..r + 1 + digits]);
          r := r + 1 + digits;
        } else {
          escaped := SimpleEscape(s[r]);
          r := r + 1;
        }
        if escaped.IsFailure() {
          return escaped.PropagateFailure();
        }
        replaced := replaced + [escaped.value];
      }
      assert rest[n..] == s[r..];
    }
    assert s[r..] == [] && replaced + [] == replaced;
    return Ok(replaced);
  }

  // ---- what the escape sequences stand for ----

  const LOWER := "0123456789abcdef"
  const UPPER := "0123456789ABCDEF"

  // The last |caps| hexadecimal digits of n, by division, each in the case that caps says.
  function HexText(n: nat, caps: seq<bool>): (s: string)
    ensures |s| == |caps|
  {
    if caps == [] then []
    else HexText(n / 16, caps[..|caps| - 1]) + [(if caps[|caps| - 1] then UPPER else LOWER)[n % 16]]
  }

  function Pow16(k: nat): nat {
    if k == 0 then 1 else 16 * Pow16(k - 1)
  }

  lemma DigitValues(d: nat)
    requires d < 16
    ensures IsHexadecimal(LOWER[d]) && HexValue(LOWER[d]) == d
    ensures IsHexadecimal(UPPER[d]) && HexValue(UPPER[d]) == d
  {
    assert d == 0 || d == 1 || d == 2 || d == 3 || d == 4 || d == 5 || d == 6 || d == 7 || d == 8 || d == 9
        || d == 10 || d == 11 || d == 12 || d == 13 || d == 14 || d == 15;
  }

  lemma {:induction false} HexTextValue(n: nat, caps: seq<bool>)
    requires n < Pow16(|caps|)
    ensures AllHex(HexText(n, caps)) && HexNumber(HexText(n, caps)) == n
  {
    if caps != [] {
      var rest := caps[..|caps| - 1];
      var s := HexText(n, caps);
      HexTextValue(n / 16, rest);
      DigitValues(n % 16);
      assert s[..|s| - 1] == HexText(n / 16, rest);
    }
  }

  // The four or eight digits after a backslash and a u or U.
  function UnicodeEscape(n: nat, caps: seq<bool>): string {
    (if |caps| == 4 then "\\u" else "\\U") + HexText(n, caps)
  }

  /** A four- or eight-digit escape with the hexadecimal digits of a code point, in either case,
      stands for that rune; with those of a surrogate, or of more than 0x10FFFF, it is rejected. */
  lemma UnicodeEscapeRead(n: nat, caps: seq<bool>, rest: string)
    requires |caps| == 4 || |caps| == 8
    requires n < Pow16(|caps|)
    ensures Unescape(UnicodeEscape(n, caps) + rest)
         == if n < 0xD800 || 0xE000 <= n <= 0x10FFFF then Prepend([n as char], Unescape(rest)) else Rejected
  {
    var e := UnicodeEscape(n, caps);
    var s := e + rest;
    HexTextValue(n, caps);
    assert s[0] == e[0] == '\\' && s[1] == e[1];
    assert PieceLength(s) == |e|;
    assert s[2..|e|] == e[2..] == HexText(n, caps);
    assert s[|e|..] == rest;
  }

  // What the letters after a backslash stand for, as code points.
  const SHORT: map<char, nat> :=
    map['b' := 8, 't' := 9, 'n' := 10, 'f' := 12, 'r' := 13, '"' := 34, '\\' := 92]

  /** The short escapes, and no others. */
  lemma ShortEscapeRead(c: char, rest: string)
    requires c != 'u' && c != 'U'
    ensures Unescape(['\\', c] + rest)
         == if c in SHORT then Prepend([SHORT[c] as char], Unescape(rest)) else Bug(DanglingEscape)
  {
    var s := ['\\', c] + rest;
    assert s[2..] == rest;
  }

  /** Every other rune stands for itself. */
  lemma PlainRead(c: char, rest: string)
    requires c != '\\'
    ensures Unescape([c] + rest) == Prepend([c], Unescape(rest))
  {
    var s := [c] + rest;
    assert s[1..] == rest;
  }

  predicate IsHexRune(c: char) {
    c in LOWER || c in UPPER
  }

  /** A backslash at the end, and a u or U without its digits, fail the assertion. */
  lemma DanglingRead(s: string)
    requires s != [] && s[0] == '\\'
    requires var digits := if |s| > 1 && s[1] == 'u' then 4 else if |s| > 1 && s[1] == 'U' then 8 else 0;
             |s| < 2 + digits || exists i :: 2 <= i < 2 + digits && !IsHexRune(s[i])
    ensures Unescape(s) == Bug(DanglingEscape)
  {
    hide IsHexRune;
    if |s| > 1 && (s[1] == 'u' || s[1] == 'U') && |s| >= PieceLength(s) {
      var i :| 2 <= i < PieceLength(s) && !IsHexRune(s[i]);
      NotHexadecimal(s[i]);
      var hex := s[2..PieceLength(s)];
      assert hex[i - 2] == s[i];
    }
  }

  lemma NotHexadecimal(c: char)
    requires !IsHexRune(c)
    ensures !IsHexadecimal(c)
  {
    if IsHexadecimal(c) {
      DigitValues(HexValue(c));
    }
  }

  // ---- alignment ----

  // Every backslash of s heads a complete escape sequence of the right form.
  predicate WellEscaped(s: string)
    decreases |s|
  {
    s == [] || (PieceLength(s) <= |s| && !PieceRune(s).Bug? && WellEscaped(s[PieceLength(s)..]))
  }

  // The code points named by the \u and \U sequences of s.
  function Named(s: string): seq<nat>
    requires WellEscaped(s)
    decreases |s|
  {
    if s == [] then [] else
      var n := PieceLength(s);
      (if n > 2 then [HexNumber(s[2..n])] else []) + Named(s[n..])
  }

  /** On a well-escaped text no assertion of replaceEscapes fails, and it rejects exactly the
      texts that name a surrogate or a value above 0x10FFFF. */
  lemma {:induction false} UnescapeRejects(s: string)
    requires WellEscaped(s)
    ensures !Unescape(s).Bug?
    ensures Unescape(s).Rejected? <==> exists i :: 0 <= i < |Named(s)| && !ValidRune(Named(s)[i])
    decreases |s|
  {
    if s != [] {
      var n := PieceLength(s);
      UnescapeRejects(s[n..]);
      var here := if n > 2 then [HexNumber(s[2..n])] else [];
      var rest := Named(s[n..]);
      assert Named(s) == here + rest;
      assert PieceRune(s).Rejected? <==> n > 2 && !ValidRune(Named(s)[0]);
      assert forall i :: 0 <= i < |rest| ==> rest[i] == Named(s)[|here| + i];
    }
  }

  /** Conversely, a text that is not well escaped is never accepted. */
  lemma {:induction false} UnescapeAccepts(s: string)
    ensures Unescape(s).Ok? ==> WellEscaped(s)
    decreases |s|
  {
    if s != [] && Unescape(s).Ok? {
      UnescapeAccepts(s[PieceLength(s)..]);
    }
  }

  // The assertion that can fail.
  lemma {:induction false} UnescapeSite(s: string)
    ensures Unescape(s).Bug? ==> Unescape(s) == Bug(DanglingEscape)
    decreases |s|
  {
    if s != [] && PieceRune(s).Ok? {
      UnescapeSite(s[PieceLength(s)..]);
    }
  }

  // ---- multi-line strings ----

  // A backslash before a line break, which the lexer lets pass in multi-line strings.
  predicate IsContinuation(s: string) {
    |s| >= 2 && s[0] == '\\' && IsNL(s[1])
  }

  // Every backslash of s heads a complete escape sequence or stands before a line break.
  predicate MultiEscaped(s: string)
    decreases |s|
  {
    || s == []
    || (&& PieceLength(s) <= |s|
        && (IsContinuation(s) || !PieceRune(s).Bug?)
        && MultiEscaped(s[PieceLength(s)..]))
  }

  // What the lexer promises of the escape sequences of a basic string, multi-line or not.
  predicate Aligned(multi: bool, s: string) {
    if multi then MultiEscaped(s) else WellEscaped(s)
  }

  lemma {:induction false} AlignedAppend(multi: bool, s: string, t: string)
    requires Aligned(multi, s) && Aligned(multi, t)
    ensures Aligned(multi, s + t)
    decreases |s|
  {
    if s == [] {
      assert s + t == t;
    } else {
      var n := PieceLength(s);
      assert (s + t)[..n] == s[..n];
      assert (s + t)[n..] == s[n..] + t;
      if n > 2 {
        assert (s + t)[2..n] == s[2..n];
      }
      AlignedAppend(multi, s[n..], t);
    }
  }

  // ---- writing ----

  // quotedReplacer on one rune.
  function EscapeRune(r: char): (s: string)
    ensures s != []
  {
    match r
    case '\t' => "\\t"
    case '\n' => "\\n"
    case '\r' => "\\r"
    case '"' => "\\\""
    case '\\' => "\\\\"
    case _ => [r]
  }

  // quotedReplacer.Replace
  function Escape(s: string): string {
    if s == [] then [] else EscapeRune(s[0]) + Escape(s[1..])
  }

  // An escaped rune is one piece.
  lemma EscapedPiece(r: char, rest: string)
    ensures var s := EscapeRune(r) + rest;
            && PieceLength(s) == |EscapeRune(r)| && PieceRune(s) == Ok(r)
            && s[PieceLength(s)..] == rest
  {
    var e := EscapeRune(r);
    var s := e + rest;
    assert s[0] == e[0];
    assert |e| == 2 ==> s[1] == e[1];
    assert s[|e|..] == rest;
  }

  // The first piece of an escaped text.
  lemma EscapeFirst(s: string)
    requires s != []
    ensures Escape(s) != [] && PieceLength(Escape(s)) <= |Escape(s)|
    ensures PieceRune(Escape(s)) == Ok(s[0])
    ensures Escape(s)[PieceLength(Escape(s))..] == Escape(s[1..])
  {
    EscapedPiece(s[0], Escape(s[1..]));
    hide PieceLength, PieceRune;
    assert Escape(s) == EscapeRune(s[0]) + Escape(s[1..]);
  }

  lemma {:induction false} EscapeWellEscaped(s: string)
    ensures WellEscaped(Escape(s))
  {
    if s != [] {
      EscapeWellEscaped(s[1..]);
      EscapeFirst(s);
    }
  }

  /** replaceEscapes undoes the encoder's escaping, on every string. */
  lemma {:induction false} EscapeInverse(s: string)
    ensures Unescape(Escape(s)) == Ok(s)
    ensures WellEscaped(Escape(s))
  {
    EscapeWellEscaped(s);
    if s != [] {
      EscapeInverse(s[1..]);
      EscapeFirst(s);
      hide WellEscaped, Escape, PieceLength, PieceRune;
      assert s == [s[0]] + s[1..];
    }
  }

  /** An escaped text has no TAB, LF or CR, and everything but these, quotes and backslashes is
      written as it is. */
  lemma {:induction false} EscapedRunes(s: string)
    ensures '\t' !in Escape(s) && '\n' !in Escape(s) && '\r' !in Escape(s)
    ensures '\t' !in s && '\n' !in s && '\r' !in s && '"' !in s && '\\' !in s ==> Escape(s) == s
  {
    if s != [] {
      EscapedRunes(s[1..]);
      var e := EscapeRune(s[0]);
      assert '\t' !in e && '\n' !in e && '\r' !in e;
      assert s == [s[0]] + s[1..];
    }
  }
}
