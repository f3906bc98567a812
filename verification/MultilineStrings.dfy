/** What becomes of a multi-line basic string.

The parser first drops every backslash-newline with the blanks that follow it, and only then
reads the escape sequences.  The first step does not know where escape sequences begin, so it
can take away the second backslash of an escaped one; and it does not know CR, so a backslash
before CR LF stays.  `Walk` decides on the text as the lexer delivers it, piece by piece, which
texts are accepted, which are rejected and which fail an assertion. */
module MultilineStrings {
  import opened Runes
  import opened Outcomes
  import opened Escapes
  import opened ParserSpec

  datatype Verdict = Fine | Refused | Torn

  function VerdictOf<T>(o: Outcome<T>): Verdict {
    match o
    case Ok(_) => Fine
    case Rejected => Refused
    case Bug(_) => Torn
  }

  // ---- pieces ----

  function Piece(w: string): (p: string)
    requires w != []
    ensures p != [] && |p| <= |w| && p == w[..|p|]
  {
    if PieceLength(w) <= |w| then w[..PieceLength(w)] else w
  }

  function After(w: string): (rest: string)
    requires w != []
    ensures |rest| < |w|
  {
    w[|Piece(w)|..]
  }

  // The escape sequences and the single runes of w, in order.
  function Pieces(w: string): seq<string>
    decreases |w|
  {
    if w == [] then [] else [Piece(w)] + Pieces(After(w))
  }

  const NEWLINE := "\\\n"

  // An escaped backslash directly before a newline.
  predicate Cut(w: string) {
    |w| >= 3 && w[0] == '\\' && w[1] == '\\' && w[2] == '\n'
  }

  predicate InvalidPoint(p: string) {
    |p| > 2 && p[0] == '\\' && AllHex(p[2..]) && !ValidRune(HexNumber(p[2..]))
  }

  // ---- the walk ----

  // The digits of an escape sequence that a lone backslash starts, and the text after them.
  function TakeHex(w: string, n: nat): (r: (string, string))
    ensures |r.0| <= n && |r.1| <= |w| && AllHex(r.0)
    decreases |w|
  {
    if n == 0 || w == [] then ([], w)
    else if Piece(w) == NEWLINE then TakeHex(TrimLeft(w[2..]), n)
    else if !IsHexadecimal(w[0]) then ([], w)
    else
      var r := TakeHex(w[1..], n - 1);
      ([w[0]] + r.0, r.1)
  }

  /** The verdict on w; with lone, a backslash whose partner was dropped stands before w. */
  function Walk(w: string, lone: bool): Verdict
    decreases |w|
  {
    if w == [] then
      if lone then Torn else Fine
    else if Piece(w) == NEWLINE then Walk(TrimLeft(w[2..]), lone)
    else if Cut(w) then Walk(TrimLeft(w[3..]), !lone)
    else if !lone then
      if IsContinuation(w) then Torn
      else if InvalidPoint(Piece(w)) then Refused
      else Walk(After(w), false)
    else if Piece(w) == "\\\\" then Walk(w[2..], true)
    else if w[0] == '\\' then Walk(w[1..], false)
    else if w[0] == 'u' || w[0] == 'U' then
      var n := if w[0] == 'u' then 4 else 8;
      var (digits, rest) := TakeHex(w[1..], n);
      if |digits| < n then Torn
      else if !ValidRune(HexNumber(digits)) then Refused
      else Walk(rest, false)
    else if SimpleEscape(w[0]).Ok? then Walk(w[1..], false)
    else Torn
  }

  // The stripped text that the walk stands before.
  function Stripped(w: string, lone: bool): string {
    if lone then "\\" + StripEscapedWhitespace(w) else StripEscapedWhitespace(w)
  }

  lemma {:induction false} TrimAligned(w: string)
    requires MultiEscaped(w)
    ensures MultiEscaped(TrimLeft(w))
    decreases |w|
  {
    if w != [] && IsSpace(w[0]) {
      TrimAligned(w[1..]);
    }
  }

  // ---- stripping, piece by piece ----

  lemma StripNewline(w: string)
    requires |w| >= 2 && w[0] == '\\' && w[1] == '\n'
    ensures StripEscapedWhitespace(w) == StripEscapedWhitespace(TrimLeft(w[2..]))
  {
  }

  lemma StripOne(w: string)
    requires w != [] && !(|w| >= 2 && w[0] == '\\' && w[1] == '\n')
    ensures StripEscapedWhitespace(w) == [w[0]] + StripEscapedWhitespace(w[1..])
  {
  }

  // Runes that are no backslashes stay.
  lemma {:induction false} StripPlain(p: string, w: string)
    requires forall i :: 0 <= i < |p| ==> p[i] != '\\'
    ensures StripEscapedWhitespace(p + w) == p + StripEscapedWhitespace(w)
  {
    if p == [] {
      assert p + w == w && p + StripEscapedWhitespace(w) == StripEscapedWhitespace(w);
    } else {
      assert (p + w)[1..] == p[1..] + w;
      StripPlain(p[1..], w);
      StripOne(p + w);
      assert [p[0]] + (p[1..] + StripEscapedWhitespace(w)) == p + StripEscapedWhitespace(w);
    }
  }

  // A whole escape sequence stays, unless its second rune is taken for the start of a
  // backslash-newline.
  lemma StripEscape(w: string)
    requires w != [] && PieceLength(w) <= |w| && !PieceRune(w).Bug? && !Cut(w)
    ensures StripEscapedWhitespace(w) == Piece(w) + StripEscapedWhitespace(After(w))
  {
    hide StripEscapedWhitespace, HexRune;
    if PieceLength(w) == 1 {
      StripOne(w);
    } else if w[1] == '\\' {
      StripBackslashes(w);
    } else {
      StripLong(w);
    }
  }

  lemma StripBackslashes(w: string)
    requires |w| >= 2 && w[0] == '\\' && w[1] == '\\' && !Cut(w)
    ensures StripEscapedWhitespace(w) == w[..2] + StripEscapedWhitespace(w[2..])
  {
    hide StripEscapedWhitespace;
    StripOne(w);
    StripOne(w[1..]);
    assert w[1..][1..] == w[2..];
    HeadJoined(w[..2], StripEscapedWhitespace(w[2..]));
  }

  lemma StripLong(w: string)
    requires |w| >= 2 && w[0] == '\\' && w[1] != '\\' && PieceLength(w) <= |w| && !PieceRune(w).Bug?
    ensures StripEscapedWhitespace(w) == w[..PieceLength(w)] + StripEscapedWhitespace(w[PieceLength(w)..])
  {
    EscapeTail(w);
    hide StripEscapedWhitespace, PieceLength, PieceRune;
    var n := PieceLength(w);
    StripOne(w);
    StripPlain(w[..n][1..], w[n..]);
    assert w[1..] == w[..n][1..] + w[n..];
    HeadJoined(w[..n], StripEscapedWhitespace(w[n..]));
  }

  lemma HeadJoined(p: string, t: string)
    requires p != []
    ensures [p[0]] + (p[1..] + t) == p + t
    ensures |p| == 2 ==> [p[0]] + ([p[1]] + t) == p + t
  {
  }

  // No backslash inside an escape sequence other than the escaped backslash; and it is not
  // a newline that follows the backslash.
  lemma EscapeTail(w: string)
    requires |w| >= 2 && w[0] == '\\' && w[1] != '\\' && PieceLength(w) <= |w| && !PieceRune(w).Bug?
    ensures w[1] != '\n'
    ensures forall i :: 1 <= i < PieceLength(w) ==> w[i] != '\\'
  {
    var n := PieceLength(w);
    if n > 2 {
      var digits := w[2..n];
      assert AllHex(digits);
      forall i | 2 <= i < n
        ensures w[i] != '\\'
      {
        assert digits[i - 2] == w[i];
      }
    }
  }

  // ---- reading, piece by piece ----

  // The verdict on a text that starts with the piece p.
  lemma ReadPiece(p: string, t: string)
    requires p != [] && |p| == PieceLength(p + t)
    ensures VerdictOf(Unescape(p + t)) ==
              match PieceRune(p + t)
              case Ok(_) => VerdictOf(Unescape(t))
              case Rejected => Refused
              case Bug(_) => Torn
  {
    assert (p + t)[|p|..] == t;
  }

  lemma ReadTwo(r: char, t: string)
    requires r != 'u' && r != 'U'
    ensures VerdictOf(Unescape("\\" + ([r] + t))) == if SimpleEscape(r).Ok? then VerdictOf(Unescape(t)) else Torn
  {
    var p := "\\" + [r];
    assert "\\" + ([r] + t) == p + t;
    assert PieceLength(p + t) == 2 && PieceRune(p + t) == SimpleEscape(r);
    ReadPiece(p, t);
  }

  lemma ReadAlone()
    ensures VerdictOf(Unescape("\\" + [])) == Torn
  {
    assert "\\" + [] == "\\";
  }

  // The digits that a u or U after a backslash asks for: all of them, or too few.
  predicate Asks(u: char, n: nat) {
    (u == 'u' && n == 4) || (u == 'U' && n == 8)
  }

  lemma ReadDigits(u: char, d: string, t: string, n: nat)
    requires Asks(u, n) && AllHex(d) && |d| == n
    ensures VerdictOf(Unescape("\\" + ([u] + (d + t)))) ==
              if !ValidRune(HexNumber(d)) then Refused else VerdictOf(Unescape(t))
  {
    hide HexNumber, ValidRune, AllHex;
    var p := "\\" + [u] + d;
    DigitsGroup(u, d, t);
    DigitsPiece(p + t, n);
    assert (p + t)[2..n + 2] == d;
    ReadPiece(p, t);
  }

  lemma DigitsGroup(u: char, d: string, t: string)
    ensures "\\" + ([u] + (d + t)) == ("\\" + [u] + d) + t
  {
  }

  lemma DigitsPiece(s: string, n: nat)
    requires |s| >= n + 2 && s[0] == '\\' && Asks(s[1], n)
    ensures PieceLength(s) == n + 2 && PieceRune(s) == HexRune(s[2..n + 2])
  {
  }

  lemma ReadFewDigits(u: char, d: string, t: string, n: nat)
    requires Asks(u, n) && |d| < n
    requires t == [] || !IsHexadecimal(t[0])
    ensures VerdictOf(Unescape("\\" + ([u] + (d + t)))) == Torn
  {
    hide HexNumber;
    var s := "\\" + ([u] + (d + t));
    assert s[0] == '\\' && s[1] == u;
    if |s| >= n + 2 {
      DigitsPiece(s, n);
      assert s[2..n + 2][|d|] == t[0];
      assert !AllHex(s[2..n + 2]);
    }
  }

  lemma {:induction false} HexTaken(w: string, n: nat)
    requires MultiEscaped(w)
    ensures var (d, rest) := TakeHex(w, n);
            && MultiEscaped(rest)
            && StripEscapedWhitespace(w) == d + StripEscapedWhitespace(rest)
            && (|d| < n ==> StripEscapedWhitespace(rest) == [] || !IsHexadecimal(StripEscapedWhitespace(rest)[0]))
    decreases |w|
  {
    if n == 0 || w == [] {
      assert [] + StripEscapedWhitespace(w) == StripEscapedWhitespace(w);
    } else if Piece(w) == NEWLINE {
      StripNewline(w);
      TrimAligned(w[2..]);
      HexTaken(TrimLeft(w[2..]), n);
    } else if IsHexadecimal(w[0]) {
      HexTaken(w[1..], n - 1);
      StripOne(w);
      var (d, rest) := TakeHex(w[1..], n - 1);
      HeadJoined([w[0]] + d, StripEscapedWhitespace(rest));
    } else {
      StripOne(w);
      assert [] + StripEscapedWhitespace(w) == StripEscapedWhitespace(w);
    }
  }

  // Behind the backslash of an escape sequence there are plain runes.
  lemma {:induction false} PlainAligned(p: string, w: string)
    requires MultiEscaped(w) && forall i :: 0 <= i < |p| ==> p[i] != '\\'
    ensures MultiEscaped(p + w)
  {
    if p == [] {
      assert p + w == w;
    } else {
      assert (p + w)[1..] == p[1..] + w;
      PlainAligned(p[1..], w);
    }
  }

  lemma TailAligned(w: string)
    requires MultiEscaped(w) && |w| >= 2 && w[0] == '\\' && w[1] != '\\'
    ensures MultiEscaped(w[1..])
  {
    var n := PieceLength(w);
    if !IsContinuation(w) {
      EscapeTail(w);
    }
    assert w[1..] == w[..n][1..] + w[n..];
    PlainAligned(w[..n][1..], w[n..]);
  }

  // ---- the verdict ----

  // A backslash before a line feed, or the end of the text.
  lemma WalkDrop(w: string, lone: bool)
    requires w == [] || Piece(w) == NEWLINE
    ensures w == [] ==> VerdictOf(Unescape(Stripped(w, lone))) == Walk(w, lone)
    ensures w != [] ==>
        Stripped(w, lone) == Stripped(TrimLeft(w[2..]), lone) && Walk(w, lone) == Walk(TrimLeft(w[2..]), lone)
  {
    if w != [] {
      StripNewline(w);
    } else if lone {
      ReadAlone();
    }
  }

  // An escaped backslash before a line feed loses its second half.
  lemma WalkCut(w: string, lone: bool)
    requires Cut(w)
    ensures Walk(w, lone) == Walk(TrimLeft(w[3..]), !lone)
    ensures VerdictOf(Unescape(Stripped(w, lone))) == VerdictOf(Unescape(Stripped(TrimLeft(w[3..]), !lone)))
  {
    hide Unescape;
    StripOne(w);
    StripNewline(w[1..]);
    assert w[1..][2..] == w[3..];
    if lone {
      ReadTwo('\\', StripEscapedWhitespace(TrimLeft(w[3..])));
    }
  }

  lemma CutAligned(w: string)
    requires MultiEscaped(w) && Cut(w)
    ensures MultiEscaped(w[3..])
  {
    assert w[2..][1..] == w[3..];
  }

  // A piece with no lone backslash before it.
  lemma WalkPiece(w: string)
    requires w != [] && MultiEscaped(w) && Piece(w) != NEWLINE && !Cut(w)
    ensures IsContinuation(w) ==> VerdictOf(Unescape(Stripped(w, false))) == Torn == Walk(w, false)
    ensures !IsContinuation(w) && InvalidPoint(Piece(w)) ==>
              VerdictOf(Unescape(Stripped(w, false))) == Refused == Walk(w, false)
    ensures !IsContinuation(w) && !InvalidPoint(Piece(w)) ==>
              && VerdictOf(Unescape(Stripped(w, false))) == VerdictOf(Unescape(Stripped(After(w), false)))
              && Walk(w, false) == Walk(After(w), false)
  {
    hide Unescape, StripEscapedWhitespace;
    if IsContinuation(w) {
      StripOne(w);
      StripOne(w[1..]);
      ReadTwo('\r', StripEscapedWhitespace(w[1..][1..]));
    } else {
      StripEscape(w);
      ReadWhole(w, StripEscapedWhitespace(After(w)));
    }
  }

  // The first piece of w is read the same before another text.
  lemma ReadWhole(w: string, t: string)
    requires w != [] && PieceLength(w) <= |w| && !PieceRune(w).Bug?
    ensures VerdictOf(Unescape(Piece(w) + t)) == if InvalidPoint(Piece(w)) then Refused else VerdictOf(Unescape(t))
  {
    hide Unescape;
    var p := Piece(w);
    var n := |p|;
    assert (p + t)[..n] == p;
    assert n > 2 ==> (p + t)[2..n] == p[2..] == w[2..n];
    ReadPiece(p, t);
  }

  // An escape sequence after a lone backslash: its backslash completes the lone one.
  lemma WalkEscapeAfterLone(w: string)
    requires w != [] && w[0] == '\\' && !(|w| >= 2 && (w[1] == '\n' || w[1] == '\\'))
    ensures VerdictOf(Unescape(Stripped(w, true))) == VerdictOf(Unescape(Stripped(w[1..], false)))
  {
    hide Unescape, StripEscapedWhitespace;
    StripOne(w);
    ReadTwo('\\', StripEscapedWhitespace(w[1..]));
  }

  lemma WalkBackslashesAfterLone(w: string)
    requires |w| >= 2 && w[0] == '\\' && w[1] == '\\' && !Cut(w)
    ensures VerdictOf(Unescape(Stripped(w, true))) == VerdictOf(Unescape(Stripped(w[2..], true)))
  {
    hide Unescape, StripEscapedWhitespace;
    StripOne(w);
    ReadTwo('\\', StripEscapedWhitespace(w[1..]));
    StripOne(w[1..]);
    assert w[1..][1..] == w[2..];
  }

  lemma NewlinePiece(w: string)
    ensures |w| >= 2 && w[0] == '\\' && w[1] == '\n' ==> Piece(w) == NEWLINE
  {
  }

  lemma PassAfterLone(w: string)
    requires w != [] && MultiEscaped(w) && w[0] == '\\' && Piece(w) != NEWLINE && !Cut(w)
    ensures |w| >= 2 && w[1] != '\n'
    ensures Walk(w, true) == if w[1] == '\\' then Walk(w[2..], true) else Walk(w[1..], false)
    ensures w[1] == '\\' ==> MultiEscaped(w[2..])
  {
    assert |Piece(w)| >= 2;
    assert Piece(w)[1] == w[1];
    if w[1] == '\\' {
      assert Piece(w) == "\\\\";
    }
    NewlinePiece(w);
  }

  // A plain rune after a lone backslash.
  lemma WalkPlainAfterLone(w: string)
    requires w != [] && w[0] != '\\' && w[0] != 'u' && w[0] != 'U'
    ensures SimpleEscape(w[0]).Ok? ==>
              && Walk(w, true) == Walk(w[1..], false)
              && VerdictOf(Unescape(Stripped(w, true))) == VerdictOf(Unescape(Stripped(w[1..], false)))
    ensures !SimpleEscape(w[0]).Ok? ==> VerdictOf(Unescape(Stripped(w, true))) == Torn == Walk(w, true)
  {
    hide Unescape, StripEscapedWhitespace;
    StripOne(w);
    ReadTwo(w[0], StripEscapedWhitespace(w[1..]));
  }

  lemma WalkDigitsAfterLone(w: string, n: nat)
    requires w != [] && MultiEscaped(w) && Asks(w[0], n)
    ensures var (d, rest) := TakeHex(w[1..], n);
            if |d| < n then VerdictOf(Unescape(Stripped(w, true))) == Torn == Walk(w, true)
            else if !ValidRune(HexNumber(d)) then VerdictOf(Unescape(Stripped(w, true))) == Refused == Walk(w, true)
            else && Walk(w, true) == Walk(rest, false)
                 && VerdictOf(Unescape(Stripped(w, true))) == VerdictOf(Unescape(Stripped(rest, false)))
                 && MultiEscaped(rest)
  {
    hide Unescape, StripEscapedWhitespace, HexNumber, ValidRune;
    StripOne(w);
    HexTaken(w[1..], n);
    var (d, rest) := TakeHex(w[1..], n);
    if |d| < n {
      ReadFewDigits(w[0], d, StripEscapedWhitespace(rest), n);
    } else {
      ReadDigits(w[0], d, StripEscapedWhitespace(rest), n);
    }
  }

  /** The walk gives the verdict of stripping and reading. */
  lemma {:induction false} WalkDecides(w: string, lone: bool)
    requires MultiEscaped(w)
    ensures VerdictOf(Unescape(Stripped(w, lone))) == Walk(w, lone)
    decreases |w|
  {
    hide Unescape, StripEscapedWhitespace, Walk, Stripped;
    if w == [] || Piece(w) == NEWLINE {
      WalkDrop(w, lone);
      if w != [] {
        TrimAligned(w[2..]);
        WalkDecides(TrimLeft(w[2..]), lone);
      }
    } else if Cut(w) {
      WalkCut(w, lone);
      CutAligned(w);
      TrimAligned(w[3..]);
      WalkDecides(TrimLeft(w[3..]), !lone);
    } else if !lone {
      WalkPiece(w);
      WalkDecides(After(w), false);
    } else if w[0] == '\\' {
      PassAfterLone(w);
      if w[1] == '\\' {
        WalkBackslashesAfterLone(w);
        WalkDecides(w[2..], true);
      } else {
        WalkEscapeAfterLone(w);
        TailAligned(w);
        WalkDecides(w[1..], false);
      }
    } else if w[0] == 'u' || w[0] == 'U' {
      var n := if w[0] == 'u' then 4 else 8;
      WalkDigitsAfterLone(w, n);
      var (d, rest) := TakeHex(w[1..], n);
      if MultiEscaped(rest) {
        WalkDecides(rest, false);
      }
    } else {
      WalkPlainAfterLone(w);
      WalkDecides(w[1..], false);
    }
  }

  /** For the text of every multi-line token: it is accepted, rejected or fails an assertion as
      the walk says. */
  lemma MultilineVerdict(w: string)
    requires MultiEscaped(w)
    ensures VerdictOf(Unescape(Trimmed(w))) == Walk(w, false)
  {
    WalkDecides(w, false);
    FirstNewline(StripEscapedWhitespace(w));
  }

  lemma FirstNewline(s: string)
    ensures VerdictOf(Unescape(StripFirstNewline(s))) == VerdictOf(Unescape(s))
  {
    if s != [] && s[0] == '\n' {
      assert s == "\n" + s[1..];
      ReadPiece("\n", s[1..]);
    }
  }

  // ---- texts without an escaped backslash at the end of a line ----

  const RETURN := "\\\r"

  predicate NoneCut(ps: seq<string>) {
    forall i :: 0 <= i < |ps| - 1 && ps[i] == "\\\\" ==> ps[i + 1] != "\n"
  }

  // The first fault in ps: a backslash before CR, or an invalid code point.
  function FirstFault(ps: seq<string>): Verdict {
    if ps == [] then Fine
    else if ps[0] == RETURN then Torn
    else if InvalidPoint(ps[0]) then Refused
    else FirstFault(ps[1..])
  }

  // The piece at i has the fault, and the pieces before it have none of the other kind.
  predicate ReturnAt(ps: seq<string>, i: int) {
    0 <= i < |ps| && ps[i] == RETURN && forall j :: 0 <= j < i ==> !InvalidPoint(ps[j])
  }

  predicate InvalidAt(ps: seq<string>, i: int) {
    0 <= i < |ps| && InvalidPoint(ps[i]) && forall j :: 0 <= j < i ==> ps[j] != RETURN
  }

  lemma {:induction false} FaultMeans(ps: seq<string>)
    ensures FirstFault(ps) == Torn <==> exists i :: ReturnAt(ps, i)
    ensures FirstFault(ps) == Refused <==> exists i :: InvalidAt(ps, i)
  {
    if ps != [] {
      FaultMeans(ps[1..]);
      if ps[0] == RETURN {
        assert ReturnAt(ps, 0);
      } else if InvalidPoint(ps[0]) {
        assert InvalidAt(ps, 0);
      } else {
        LaterFault(ps);
      }
    }
  }

  lemma LaterFault(ps: seq<string>)
    requires ps != [] && ps[0] != RETURN && !InvalidPoint(ps[0])
    ensures (exists i :: ReturnAt(ps, i)) <==> exists i :: ReturnAt(ps[1..], i)
    ensures (exists i :: InvalidAt(ps, i)) <==> exists i :: InvalidAt(ps[1..], i)
  {
    forall i
      ensures ReturnAt(ps, i + 1) <==> ReturnAt(ps[1..], i)
      ensures InvalidAt(ps, i + 1) <==> InvalidAt(ps[1..], i)
    {
      Shifted(ps, i);
    }
    forall i | ReturnAt(ps, i) || InvalidAt(ps, i)
      ensures ReturnAt(ps, i) ==> ReturnAt(ps[1..], i - 1)
      ensures InvalidAt(ps, i) ==> InvalidAt(ps[1..], i - 1)
    {
      Shifted(ps, i - 1);
    }
  }

  lemma Shifted(ps: seq<string>, i: int)
    requires ps != [] && ps[0] != RETURN && !InvalidPoint(ps[0])
    ensures ReturnAt(ps, i + 1) <==> ReturnAt(ps[1..], i)
    ensures InvalidAt(ps, i + 1) <==> InvalidAt(ps[1..], i)
  {
    hide InvalidPoint;
    if 0 <= i < |ps| - 1 {
      assert forall j :: 0 <= j < i ==> ps[1..][j] == ps[j + 1];
      assert forall j :: 0 < j < i + 1 ==> ps[j] == ps[1..][j - 1];
    }
  }

  lemma {:induction false} TrimPieces(w: string)
    requires NoneCut(Pieces(w))
    ensures NoneCut(Pieces(TrimLeft(w))) && FirstFault(Pieces(TrimLeft(w))) == FirstFault(Pieces(w))
    decreases |w|
  {
    if w != [] && IsSpace(w[0]) {
      NoneCutTail(Pieces(w));
      TrimPieces(w[1..]);
    }
  }

  lemma NoneCutTail(ps: seq<string>)
    requires ps != [] && NoneCut(ps)
    ensures NoneCut(ps[1..])
  {
    assert forall i :: 0 <= i < |ps| - 1 ==> ps[1..][i] == ps[i + 1];
  }

  lemma CutPieces(w: string)
    ensures Cut(w) ==> !NoneCut(Pieces(w))
  {
    if Cut(w) {
      assert Pieces(w)[0] == "\\\\" && After(w)[0] == '\n';
      assert Pieces(w)[1] == Piece(After(w)) == "\n";
    }
  }

  lemma PieceFaults(w: string)
    requires w != [] && MultiEscaped(w) && NoneCut(Pieces(w))
    ensures !Cut(w)
    ensures Piece(w) == RETURN <==> IsContinuation(w) && Piece(w) != NEWLINE
    ensures Piece(w) == NEWLINE ==> !InvalidPoint(Piece(w)) && After(w) == w[2..]
    ensures MultiEscaped(After(w))
  {
    CutPieces(w);
  }

  lemma {:induction false} WalkPieces(w: string)
    requires MultiEscaped(w) && NoneCut(Pieces(w))
    ensures Walk(w, false) == FirstFault(Pieces(w))
    decreases |w|
  {
    hide InvalidPoint, NoneCut, MultiEscaped;
    if w != [] {
      PieceFaults(w);
      NoneCutTail(Pieces(w));
      assert Pieces(w)[1..] == Pieces(After(w));
      if Piece(w) == NEWLINE {
        TrimAligned(w[2..]);
        TrimPieces(w[2..]);
        WalkPieces(TrimLeft(w[2..]));
      } else {
        WalkPieces(After(w));
      }
    }
  }

  /** If no escaped backslash stands directly before a line feed, an assertion fails exactly if
      a backslash stands before CR, with no invalid code point before it; and the text is
      rejected exactly if an invalid code point comes first. */
  lemma LineBreaksDecide(w: string)
    requires MultiEscaped(w) && NoneCut(Pieces(w))
    ensures Unescape(Trimmed(w)).Bug? <==> exists i :: ReturnAt(Pieces(w), i)
    ensures Unescape(Trimmed(w)).Rejected? <==> exists i :: InvalidAt(Pieces(w), i)
  {
    MultilineVerdict(w);
    WalkPieces(w);
    FaultMeans(Pieces(w));
  }
}
