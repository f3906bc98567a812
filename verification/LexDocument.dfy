/** How the lexer reads the statements that the encoder prints. */
module LexDocument {
  import opened Sequences
  import opened Runes
  import opened Tokens
  import opened LexSpec
  import opened LexRun
  import opened Trees
  import opened EncoderSpec
  import opened LexPrinted

  // ---- names ----

  // The keys of the round trip.
  predicate CleanKey(k: string) {
    k != [] && forall i :: 0 <= i < |k| ==> k[i] != '\\' && k[i] != EOF && !IsNL(k[i])
  }

  // The token of a printed key or piece of a header.
  function NameTok(k: string): Token {
    if AllBare(k) then Token(ItemText, k) else Token(ItemString, EscapeQuotes(k))
  }

  lemma {:induction false} EscapeQuotesInner(k: string)
    requires forall i :: 0 <= i < |k| ==> k[i] != '\\' && k[i] != EOF && !IsNL(k[i])
    ensures Inner(EscapeQuotes(k))
  {
    if k != [] {
      EscapeQuotesInner(k[1..]);
      var e := if k[0] == '"' then "\\\"" else [k[0]];
      assert EscapeQuotes(k)[|e|..] == EscapeQuotes(k[1..]);
      assert EscapeQuotes(k)[0] == e[0] && (|e| == 2 ==> EscapeQuotes(k)[1] == e[1]);
    }
  }

  const TOP := Frame(LexTopEnd, Empty)

  lemma BareKeyEnds(input: string, start: nat, p: nat, out: seq<Token>)
    requires start <= p < |input| && input[p] == ' '
    ensures Reaches(input, Config(LexBareKey, TOP, start, p, out),
        Here(LexKeyEnd, TOP, p, out + [Token(ItemText, input[start..p])]))
  {
    StepTo(input, Config(LexBareKey, TOP, start, p, out),
        Here(LexKeyEnd, TOP, p, out + [Token(ItemText, input[start..p])]));
  }

  lemma KeyStarts(input: string, p: nat, out: seq<Token>)
    requires p < |input| && (IsBareKeyChar(input[p]) || input[p] == '"')
    ensures Reaches(input, Here(LexKeyStart, TOP, p, out),
                    if input[p] == '"' then Here(LexValue, Frame(LexKeyEnd, TOP), p, out + [Token(ItemKeyStart, [])])
                    else Here(LexBareKey, TOP, p, out + [Token(ItemKeyStart, [])]))
  {
    assert input[p..p] == [];
    var o := out + [Token(ItemKeyStart, [])];
    StepTo(input, Here(LexKeyStart, TOP, p, out),
           if input[p] == '"' then Here(LexValue, Frame(LexKeyEnd, TOP), p, o) else Here(LexBareKey, TOP, p, o));
  }

  // The first rune of a printed name.
  lemma NameStarts(input: string, p: nat, k: string, after: string)
    requires CleanKey(k) && HasAt(input, p, MaybeQuoted(k) + after)
    ensures HasAt(input, p, MaybeQuoted(k)) && HasAt(input, p + |MaybeQuoted(k)|, after)
    ensures p < |input|
    ensures if AllBare(k) then IsBareKeyChar(input[p]) else input[p] == '"'
    ensures !AllBare(k) ==> Inner(EscapeQuotes(k)) && EscapeQuotes(k) != []
  {
    HasSplit(input, p, MaybeQuoted(k), after);
    assert input[p] == input[p..p + |MaybeQuoted(k)|][0];
    EscapeQuotesInner(k);
  }

  lemma LexKey(input: string, p: nat, k: string, after: string, out: seq<Token>)
    requires CleanKey(k) && HasAt(input, p, MaybeQuoted(k) + after) && after != [] && after[0] == ' '
    ensures Reaches(input, Here(LexKeyStart, TOP, p, out),
                    Here(LexKeyEnd, TOP, p + |MaybeQuoted(k)|, out + [Token(ItemKeyStart, []), NameTok(k)]))
  {
    NameStarts(input, p, k, after);
    var q := p + |MaybeQuoted(k)|;
    var o := out + [Token(ItemKeyStart, [])];
    assert input[q] == input[q..q + |after|][0];
    KeyStarts(input, p, out);
    assert o + [NameTok(k)] == out + [Token(ItemKeyStart, []), NameTok(k)];
    if AllBare(k) {
      LexBare(input, LexBareKey, TOP, p, p, k, o);
      BareKeyEnds(input, p, q, o);
    } else {
      LexQuoted(input, Frame(LexKeyEnd, TOP), p, EscapeQuotes(k), o);
    }
  }

  // ---- assignments ----

  lemma EnterKey(input: string, p: nat, out: seq<Token>)
    requires p < |input| && (IsBareKeyChar(input[p]) || input[p] == '"')
    ensures Reaches(input, Here(LexTop, Empty, p, out), Here(LexKeyStart, TOP, p, out))
  {
    StepTo(input, Here(LexTop, Empty, p, out), Here(LexKeyStart, TOP, p, out));
  }

  lemma LexEquals(input: string, p: nat, out: seq<Token>)
    requires HasAt(input, p, " = ")
    ensures Reaches(input, Here(LexKeyEnd, TOP, p, out), Here(LexValue, TOP, p + 3, out))
  {
    assert input[p] == input[p..p + 3][0] && input[p + 1] == input[p..p + 3][1] && input[p + 2] == input[p..p + 3][2];
    StepTo(input, Here(LexKeyEnd, TOP, p, out), Config(LexSkip(LexKeyEnd), TOP, p, p + 1, out));
    StepTo(input, Config(LexSkip(LexKeyEnd), TOP, p, p + 1, out), Here(LexKeyEnd, TOP, p + 1, out));
    StepTo(input, Here(LexKeyEnd, TOP, p + 1, out), Config(LexSkip(LexValue), TOP, p + 1, p + 2, out));
    StepTo(input, Config(LexSkip(LexValue), TOP, p + 1, p + 2, out), Here(LexValue, TOP, p + 2, out));
    LexSpace(input, p + 2, out);
  }

  lemma LexSpace(input: string, p: nat, out: seq<Token>)
    requires p < |input| && input[p] == ' '
    ensures Reaches(input, Here(LexValue, TOP, p, out), Here(LexValue, TOP, p + 1, out))
  {
    StepTo(input, Here(LexValue, TOP, p, out), Config(LexSkip(LexValue), TOP, p, p + 1, out));
    StepTo(input, Config(LexSkip(LexValue), TOP, p, p + 1, out), Here(LexValue, TOP, p + 1, out));
  }

  lemma EndItem(input: string, p: nat, out: seq<Token>)
    requires p < |input| && input[p] == '\n'
    ensures Reaches(input, Here(LexTopEnd, Empty, p, out), Here(LexTop, Empty, p + 1, out))
  {
    StepTo(input, Here(LexTopEnd, Empty, p, out), Here(LexTop, Empty, p + 1, out));
  }

  function KeyToks(k: string): seq<Token> {
    [Token(ItemKeyStart, []), NameTok(k)]
  }

  function AssignToks(k: string, v: Value): seq<Token> {
    KeyToks(k) + ValueToks(v)
  }

  // Where the parts of a printed pair are.
  lemma PairParts(input: string, p: nat, key: string, e: string)
    requires HasAt(input, p, key + (" = " + (e + "\n")))
    ensures var p1 := p + |key|;
            && HasAt(input, p1, " = ") && HasAt(input, p1 + 3, e)
            && p1 + 3 + |e| < |input| && input[p1 + 3 + |e|] == '\n'
  {
    var p1 := p + |key|;
    HasSplit(input, p, key, " = " + (e + "\n"));
    HasSplit(input, p1, " = ", e + "\n");
    HasSplit(input, p1 + 3, e, "\n");
    assert input[p1 + 3 + |e|] == input[p1 + 3 + |e|..p1 + 3 + |e| + 1][0];
  }

  // A key of n runes, an equals sign and a value of m runes, from the key on.
  lemma LexAroundEquals(input: string, p: nat, n: nat, m: nat, key: seq<Token>, val: seq<Token>, out: seq<Token>)
    requires HasAt(input, p + n, " = ")
    requires Reaches(input, Here(LexKeyStart, TOP, p, out), Here(LexKeyEnd, TOP, p + n, out + key))
    requires Reaches(input, Here(LexValue, TOP, p + n + 3, out + key),
        Here(LexTopEnd, Empty, p + n + 3 + m, out + key + val))
    ensures Reaches(input, Here(LexKeyStart, TOP, p, out), Here(LexTopEnd, Empty, p + n + 3 + m, out + key + val))
  {
    LexEquals(input, p + n, out + key);
  }

  // A value at the end of a line.
  lemma LexLastValue(input: string, p: nat, v: Value, out: seq<Token>)
    requires Plain(v) && Element(v).Success? && HasAt(input, p, Element(v).value)
    requires p + |Element(v).value| < |input| && input[p + |Element(v).value|] == '\n'
    ensures Reaches(input, Here(LexValue, TOP, p, out),
        Here(LexTopEnd, Empty, p + |Element(v).value|, out + ValueToks(v)))
  {
    LexPlain(input, TOP, p, v, out);
  }

  lemma LexPair(input: string, p: nat, k: string, v: Value, out: seq<Token>)
    requires CleanKey(k) && Plain(v) && Element(v).Success?
    requires HasAt(input, p, MaybeQuoted(k) + (" = " + (Element(v).value + "\n")))
    ensures var q := p + |MaybeQuoted(k)| + 3 + |Element(v).value|;
            && q < |input| && input[q] == '\n'
            && Reaches(input, Here(LexKeyStart, TOP, p, out),
                Here(LexTopEnd, Empty, q, out + KeyToks(k) + ValueToks(v)))
  {
    var p1 := p + |MaybeQuoted(k)|;
    PairParts(input, p, MaybeQuoted(k), Element(v).value);
    LexKey(input, p, k, " = " + (Element(v).value + "\n"), out);
    LexLastValue(input, p1 + 3, v, out + KeyToks(k));
    LexAroundEquals(input, p, |MaybeQuoted(k)|, |Element(v).value|, KeyToks(k), ValueToks(v), out);
  }

  // A pair of n runes and a newline.
  lemma LexLine(input: string, p: nat, n: nat, toks: seq<Token>, out: seq<Token>)
    requires p + n < |input| && input[p + n] == '\n' && (IsBareKeyChar(input[p]) || input[p] == '"')
    requires Reaches(input, Here(LexKeyStart, TOP, p, out), Here(LexTopEnd, Empty, p + n, out + toks))
    ensures Reaches(input, Here(LexTop, Empty, p, out), Here(LexTop, Empty, p + n + 1, out + toks))
  {
    EnterKey(input, p, out);
    EndItem(input, p + n, out + toks);
  }

  function PairText(k: string, e: string): string {
    MaybeQuoted(k) + (" = " + (e + "\n"))
  }

  lemma PairLength(k: string, e: string)
    ensures |PairText(k, e)| == |MaybeQuoted(k)| + 3 + |e| + 1
  {
  }

  lemma PairStarts(input: string, p: nat, k: string, e: string)
    requires CleanKey(k) && HasAt(input, p, PairText(k, e))
    ensures p < |input| && (IsBareKeyChar(input[p]) || input[p] == '"')
  {
    NameStarts(input, p, k, " = " + (e + "\n"));
  }

  lemma LexPairLine(input: string, p: nat, k: string, v: Value, out: seq<Token>)
    requires CleanKey(k) && Plain(v) && Element(v).Success? && HasAt(input, p, PairText(k, Element(v).value))
    ensures Reaches(input, Here(LexTop, Empty, p, out),
                    Here(LexTop, Empty, p + (|MaybeQuoted(k)| + 3 + |Element(v).value|) + 1,
                        out + (KeyToks(k) + ValueToks(v))))
  {
    hide Element, Plain, CleanKey, Reaches;
    PairStarts(input, p, k, Element(v).value);
    LexPair(input, p, k, v, out);
    assert out + KeyToks(k) + ValueToks(v) == out + (KeyToks(k) + ValueToks(v));
    LexLine(input, p, |MaybeQuoted(k)| + 3 + |Element(v).value|, KeyToks(k) + ValueToks(v), out);
  }

  /** A printed assignment, with its indentation. */
  lemma LexAssign(input: string, p: nat, indent: string, k: string, v: Value, out: seq<Token>)
    requires CleanKey(k) && Plain(v) && Element(v).Success? && AllSkipped(indent)
    requires HasAt(input, p, indent + PairText(k, Element(v).value))
    ensures Reaches(input, Here(LexTop, Empty, p, out),
                    Here(LexTop, Empty, p + |indent + PairText(k, Element(v).value)|, out + AssignToks(k, v)))
  {
    hide PairText, HasAt, Element, Plain, CleanKey, AllSkipped, Reaches;
    HasSplit(input, p, indent, PairText(k, Element(v).value));
    LexPairLine(input, p + |indent|, k, v, out);
    PairLength(k, Element(v).value);
    LexAfterBlanks(input, p, indent, PairText(k, Element(v).value), AssignToks(k, v), out);
  }

  // ---- headers ----

  function PathToks(path: Key): seq<Token> {
    if path == [] then [] else [NameTok(path[0])] + PathToks(path[1..])
  }

  predicate CleanPath(path: Key) {
    forall i :: 0 <= i < |path| ==> CleanKey(path[i])
  }

  lemma PieceStarts(input: string, k: Stack, p: nat, out: seq<Token>)
    requires PlaceOf(k) == InHeader && p < |input| && (IsBareKeyChar(input[p]) || input[p] == '"')
    ensures Reaches(input, Here(LexTableNameStart, k, p, out),
                    if input[p] == '"' then Here(LexValue, Frame(LexTableNameEnd, k), p, out)
                        else Here(LexBareTableName, k, p, out))
  {
    StepTo(input, Here(LexTableNameStart, k, p, out),
           if input[p] == '"' then Here(LexValue, Frame(LexTableNameEnd, k), p, out)
               else Here(LexBareTableName, k, p, out));
  }

  lemma BarePieceEnds(input: string, k: Stack, start: nat, p: nat, out: seq<Token>)
    requires PlaceOf(k) == InHeader && start <= p < |input| && !IsBareKeyChar(input[p])
    ensures Reaches(input, Config(LexBareTableName, k, start, p, out),
        Here(LexTableNameEnd, k, p, out + [Token(ItemText, input[start..p])]))
  {
    StepTo(input, Config(LexBareTableName, k, start, p, out),
        Here(LexTableNameEnd, k, p, out + [Token(ItemText, input[start..p])]));
  }

  lemma LexPiece(input: string, k: Stack, p: nat, name: string, after: string, out: seq<Token>)
    requires PlaceOf(k) == InHeader && CleanKey(name)
    requires HasAt(input, p, MaybeQuoted(name) + after) && after != [] && (after[0] == '.' || after[0] == ']')
    ensures Reaches(input, Here(LexTableNameStart, k, p, out),
        Here(LexTableNameEnd, k, p + |MaybeQuoted(name)|, out + [NameTok(name)]))
  {
    NameStarts(input, p, name, after);
    var q := p + |MaybeQuoted(name)|;
    assert input[q] == input[q..q + |after|][0];
    PieceStarts(input, k, p, out);
    if AllBare(name) {
      LexBare(input, LexBareTableName, k, p, p, name, out);
      BarePieceEnds(input, k, p, q, out);
    } else {
      LexQuoted(input, Frame(LexTableNameEnd, k), p, EscapeQuotes(name), out);
    }
  }

  lemma NextPiece(input: string, k: Stack, p: nat, out: seq<Token>)
    requires PlaceOf(k) == InHeader && p < |input| && input[p] == '.'
    ensures Reaches(input, Here(LexTableNameEnd, k, p, out), Here(LexTableNameStart, k, p + 1, out))
  {
    StepTo(input, Here(LexTableNameEnd, k, p, out), Here(LexTableNameStart, k, p + 1, out));
  }

  lemma LastPiece(input: string, k: Stack, p: nat, out: seq<Token>)
    requires PlaceOf(k) == InHeader && p < |input| && input[p] == ']'
    ensures k.Frame?
    ensures Reaches(input, Here(LexTableNameEnd, k, p, out), Config(k.top, k.rest, p, p + 1, out))
  {
    PopPlace(k);
    StepTo(input, Here(LexTableNameEnd, k, p, out), Config(k.top, k.rest, p, p + 1, out));
  }

  lemma LexLastPiece(input: string, k: Stack, p: nat, name: string, after: string, out: seq<Token>)
    requires PlaceOf(k) == InHeader && CleanKey(name) && HasAt(input, p, MaybeQuoted(name) + ("]" + after))
    ensures k.Frame?
    ensures var q := p + |MaybeQuoted(name)|;
            Reaches(input, Here(LexTableNameStart, k, p, out), Config(k.top, k.rest, q, q + 1, out + [NameTok(name)]))
  {
    var q := p + |MaybeQuoted(name)|;
    LexPiece(input, k, p, name, "]" + after, out);
    HasSplit(input, p, MaybeQuoted(name), "]" + after);
    assert input[q] == input[q..q + |"]" + after|][0];
    LastPiece(input, k, q, out + [NameTok(name)]);
  }

  lemma LexFirstPiece(input: string, k: Stack, p: nat, name: string, after: string, out: seq<Token>)
    requires PlaceOf(k) == InHeader && CleanKey(name) && HasAt(input, p, MaybeQuoted(name) + ("." + after))
    ensures var q := p + |MaybeQuoted(name)| + 1;
            && HasAt(input, q, after)
            && Reaches(input, Here(LexTableNameStart, k, p, out), Here(LexTableNameStart, k, q, out + [NameTok(name)]))
  {
    var q := p + |MaybeQuoted(name)|;
    LexPiece(input, k, p, name, "." + after, out);
    HasSplit(input, p, MaybeQuoted(name), "." + after);
    HasSplit(input, q, ".", after);
    assert input[q] == input[q..q + 1][0];
    NextPiece(input, k, q, out + [NameTok(name)]);
  }

  // A path, followed by more text, from its first piece on.
  lemma FirstPiece(path: Key, after: string)
    requires |path| > 1
    ensures MaybeQuotedAll(path) + after == MaybeQuoted(path[0]) + ("." + (MaybeQuotedAll(path[1..]) + after))
  {
    Regroup(MaybeQuoted(path[0]) + ".", MaybeQuotedAll(path[1..]), after);
    Regroup(MaybeQuoted(path[0]), ".", MaybeQuotedAll(path[1..]) + after);
  }

  lemma PathToksFirst(path: Key, out: seq<Token>)
    requires path != []
    ensures out + PathToks(path) == (out + [NameTok(path[0])]) + PathToks(path[1..])
  {
  }

  // The lexer reads the path, printed at p with more text behind it.
  ghost predicate ReadsPath(input: string, k: Stack, p: nat, path: Key, out: seq<Token>)
    requires k.Frame?
  {
    var q := p + |MaybeQuotedAll(path)|;
    Reaches(input, Here(LexTableNameStart, k, p, out), Config(k.top, k.rest, q, q + 1, out + PathToks(path)))
  }

  lemma LexOnePiece(input: string, k: Stack, p: nat, path: Key, after: string, out: seq<Token>)
    requires PlaceOf(k) == InHeader && |path| == 1 && CleanPath(path)
    requires HasAt(input, p, MaybeQuotedAll(path) + ("]" + after))
    ensures k.Frame? && ReadsPath(input, k, p, path, out)
  {
    LexLastPiece(input, k, p, path[0], after, out);
    assert PathToks(path) == [NameTok(path[0])];
  }

  lemma LexMorePieces(input: string, k: Stack, p: nat, path: Key, after: string, out: seq<Token>)
    requires PlaceOf(k) == InHeader && k.Frame? && |path| > 1 && CleanKey(path[0])
    requires HasAt(input, p, MaybeQuoted(path[0]) + ("." + after))
    requires ReadsPath(input, k, p + |MaybeQuoted(path[0])| + 1, path[1..], out + [NameTok(path[0])])
    ensures ReadsPath(input, k, p, path, out)
  {
    LexFirstPiece(input, k, p, path[0], after, out);
    PathToksFirst(path, out);
  }

  lemma PathParts(input: string, p: nat, path: Key, after: string)
    requires |path| > 1 && HasAt(input, p, MaybeQuotedAll(path) + ("]" + after))
    ensures var rest := MaybeQuotedAll(path[1..]) + ("]" + after);
            && HasAt(input, p, MaybeQuoted(path[0]) + ("." + rest))
            && HasAt(input, p + |MaybeQuoted(path[0])| + 1, rest)
  {
    hide HasAt, MaybeQuoted, MaybeQuotedAll;
    var rest := MaybeQuotedAll(path[1..]) + ("]" + after);
    FirstPiece(path, "]" + after);
    HasSplit(input, p, MaybeQuoted(path[0]), "." + rest);
    HasSplit(input, p + |MaybeQuoted(path[0])|, ".", rest);
  }

  lemma CleanPieces(path: Key)
    requires CleanPath(path) && |path| > 1
    ensures CleanKey(path[0]) && CleanPath(path[1..])
  {
  }

  lemma {:induction false} LexPath(input: string, k: Stack, p: nat, path: Key, after: string, out: seq<Token>)
    requires PlaceOf(k) == InHeader && k.Frame? && path != [] && CleanPath(path)
    requires HasAt(input, p, MaybeQuotedAll(path) + ("]" + after))
    ensures ReadsPath(input, k, p, path, out)
    decreases |path|
  {
    hide ReadsPath, PlaceOf, CleanPath, CleanKey, HasAt, MaybeQuoted, MaybeQuotedAll;
    if |path| == 1 {
      LexOnePiece(input, k, p, path, after, out);
    } else {
      CleanPieces(path);
      var rest := MaybeQuotedAll(path[1..]) + ("]" + after);
      PathParts(input, p, path, after);
      LexPath(input, k, p + |MaybeQuoted(path[0])| + 1, path[1..], after, out + [NameTok(path[0])]);
      LexMorePieces(input, k, p, path, rest, out);
    }
  }

  function HeaderToks(path: Key, ofArray: bool): seq<Token> {
    if ofArray then [Token(ItemArrayTableStart, "[[")] + PathToks(path) + [Token(ItemArrayTableEnd, "]]")]
    else [Token(ItemTableStart, "[")] + PathToks(path) + [Token(ItemTableEnd, "]")]
  }

  lemma OpenHeader(input: string, p: nat, ofArray: bool, out: seq<Token>)
    requires p + 1 < |input| && input[p] == '[' && (input[p + 1] == '[' <==> ofArray)
    ensures Reaches(input, Here(LexTop, Empty, p, out),
                    if ofArray then Here(LexTableNameStart, Frame(LexArrayTableEnd, Empty), p + 2,
                        out + [Token(ItemArrayTableStart, "[[")])
                    else Here(LexTableNameStart, Frame(LexTableEnd, Empty), p + 1, out + [Token(ItemTableStart, "[")]))
  {
    var c := Config(LexTableStart, Empty, p, p + 1, out);
    StepTo(input, Here(LexTop, Empty, p, out), c);
    if ofArray {
      assert input[p..p + 2] == "[[";
      StepTo(input, c, Here(LexTableNameStart, Frame(LexArrayTableEnd, Empty), p + 2,
          out + [Token(ItemArrayTableStart, "[[")]));
    } else {
      assert input[p..p + 1] == "[";
      StepTo(input, c, Here(LexTableNameStart, Frame(LexTableEnd, Empty), p + 1, out + [Token(ItemTableStart, "[")]));
    }
  }

  lemma CloseHeader(input: string, p: nat, ofArray: bool, out: seq<Token>)
    requires HasAt(input, p, Closing(ofArray))
    ensures Reaches(input, Config(if ofArray then LexArrayTableEnd else LexTableEnd, Empty, p, p + 1, out),
                    if ofArray then Here(LexTop, Empty, p + 3, out + [Token(ItemArrayTableEnd, "]]")])
                    else Here(LexTop, Empty, p + 2, out + [Token(ItemTableEnd, "]")]))
  {
    var n := if ofArray then 2 else 1;
    var s := input[p..p + n + 1];
    assert input[p] == s[0] && input[p + n] == s[n];
    if ofArray {
      assert input[p + 1] == s[1];
      assert input[p..p + 2] == "]]";
      StepTo(input, Config(LexArrayTableEnd, Empty, p, p + 1, out),
          Here(LexTopEnd, Empty, p + 2, out + [Token(ItemArrayTableEnd, "]]")]));
      EndItem(input, p + 2, out + [Token(ItemArrayTableEnd, "]]")]);
    } else {
      assert input[p..p + 1] == "]";
      StepTo(input, Config(LexTableEnd, Empty, p, p + 1, out),
          Here(LexTopEnd, Empty, p + 1, out + [Token(ItemTableEnd, "]")]));
      EndItem(input, p + 1, out + [Token(ItemTableEnd, "]")]);
    }
  }

  function Opening(ofArray: bool): string { if ofArray then "[[" else "[" }

  function Closing(ofArray: bool): string { if ofArray then "]]\n" else "]\n" }

  lemma HeaderParts(path: Key, ofArray: bool)
    ensures HeaderText(path, ofArray) == Opening(ofArray) + (MaybeQuotedAll(path) + Closing(ofArray))
  {
  }

  function OpeningTok(ofArray: bool): Token {
    if ofArray then Token(ItemArrayTableStart, "[[") else Token(ItemTableStart, "[")
  }

  function ClosingTok(ofArray: bool): Token {
    if ofArray then Token(ItemArrayTableEnd, "]]") else Token(ItemTableEnd, "]")
  }

  lemma HeaderTokParts(path: Key, ofArray: bool, out: seq<Token>)
    ensures out + [OpeningTok(ofArray)] + PathToks(path) + [ClosingTok(ofArray)] == out + HeaderToks(path, ofArray)
  {
  }

  lemma HeaderLength(path: Key, ofArray: bool)
    ensures |HeaderText(path, ofArray)| == |Opening(ofArray)| + |MaybeQuotedAll(path)| + |Closing(ofArray)|
  {
  }

  lemma HeaderPlaces(input: string, p: nat, path: Key, ofArray: bool)
    requires path != [] && CleanPath(path) && HasAt(input, p, HeaderText(path, ofArray))
    ensures var p1 := p + |Opening(ofArray)|;
            && p1 < |input| && input[p] == '[' && (input[p + 1] == '[' <==> ofArray)
            && HasAt(input, p1, MaybeQuotedAll(path) + Closing(ofArray))
            && HasAt(input, p1 + |MaybeQuotedAll(path)|, Closing(ofArray))
  {
    var p1 := p + |Opening(ofArray)|;
    HeaderParts(path, ofArray);
    HasSplit(input, p, Opening(ofArray), MaybeQuotedAll(path) + Closing(ofArray));
    HasSplit(input, p1, MaybeQuotedAll(path), Closing(ofArray));
    PathStarts(input, p1, path, Closing(ofArray));
    assert input[p] == input[p..p1][0] && (ofArray ==> input[p + 1] == input[p..p1][1]);
  }

  // The states of a header of either kind.
  function HeaderStack(ofArray: bool): Stack {
    Frame(if ofArray then LexArrayTableEnd else LexTableEnd, Empty)
  }

  // A header whose path has n runes, which the lexer reads into mid.
  lemma LexAroundPath(input: string, p: nat, n: nat, mid: seq<Token>, ofArray: bool, out: seq<Token>)
    requires p + 1 < |input| && input[p] == '[' && (input[p + 1] == '[' <==> ofArray)
    requires HasAt(input, p + |Opening(ofArray)| + n, Closing(ofArray))
    requires var p1, k := p + |Opening(ofArray)|, HeaderStack(ofArray);
             Reaches(input, Here(LexTableNameStart, k, p1, out + [OpeningTok(ofArray)]),
                     Config(k.top, k.rest, p1 + n, p1 + n + 1, out + [OpeningTok(ofArray)] + mid))
    ensures Reaches(input, Here(LexTop, Empty, p, out),
                    Here(LexTop, Empty, p + |Opening(ofArray)| + n + |Closing(ofArray)|,
                         out + [OpeningTok(ofArray)] + mid + [ClosingTok(ofArray)]))
  {
    OpenHeader(input, p, ofArray, out);
    CloseHeader(input, p + |Opening(ofArray)| + n, ofArray, out + [OpeningTok(ofArray)] + mid);
  }

  lemma LexHeaderPath(input: string, p: nat, path: Key, ofArray: bool, out: seq<Token>)
    requires path != [] && CleanPath(path) && HasAt(input, p, MaybeQuotedAll(path) + Closing(ofArray))
    ensures ReadsPath(input, HeaderStack(ofArray), p, path, out)
  {
    ClosingParts(ofArray);
    LexPath(input, HeaderStack(ofArray), p, path, Closing(ofArray)[1..], out);
  }

  lemma ClosingParts(ofArray: bool)
    ensures Closing(ofArray) == "]" + Closing(ofArray)[1..]
  {
  }

  lemma LexHeader(input: string, p: nat, path: Key, ofArray: bool, out: seq<Token>)
    requires path != [] && CleanPath(path) && HasAt(input, p, HeaderText(path, ofArray))
    ensures Reaches(input, Here(LexTop, Empty, p, out),
                    Here(LexTop, Empty, p + |HeaderText(path, ofArray)|, out + HeaderToks(path, ofArray)))
  {
    hide HasAt, PathToks, MaybeQuotedAll;
    HeaderPlaces(input, p, path, ofArray);
    LexHeaderPath(input, p + |Opening(ofArray)|, path, ofArray, out + [OpeningTok(ofArray)]);
    LexAroundPath(input, p, |MaybeQuotedAll(path)|, PathToks(path), ofArray, out);
    HeaderLength(path, ofArray);
    HeaderTokParts(path, ofArray, out);
  }

  // The first rune of a printed path.
  lemma PathStarts(input: string, p: nat, path: Key, after: string)
    requires path != [] && CleanPath(path) && HasAt(input, p, MaybeQuotedAll(path) + after)
    ensures p < |input| && input[p] != '['
  {
    if |path| > 1 {
      FirstPiece(path, after);
    }
    NameStarts(input, p, path[0], if |path| == 1 then after else "." + (MaybeQuotedAll(path[1..]) + after));
  }

  // Blanks before a statement.
  lemma LexAfterBlanks(input: string, p: nat, blank: string, text: string, toks: seq<Token>, out: seq<Token>)
    requires AllSkipped(blank) && HasAt(input, p, blank + text)
    requires Reaches(input, Here(LexTop, Empty, p + |blank|, out),
        Here(LexTop, Empty, p + |blank| + |text|, out + toks))
    ensures Reaches(input, Here(LexTop, Empty, p, out), Here(LexTop, Empty, p + |blank + text|, out + toks))
  {
    HasSplit(input, p, blank, text);
    LexBlanks(input, p, blank, out);
  }

  /** A printed header, with its indentation. */
  lemma LexIndentedHeader(input: string, p: nat, indent: string, path: Key, ofArray: bool, out: seq<Token>)
    requires path != [] && CleanPath(path) && AllSkipped(indent) && HasAt(input, p, indent + HeaderText(path, ofArray))
    ensures Reaches(input, Here(LexTop, Empty, p, out),
                    Here(LexTop, Empty, p + |indent + HeaderText(path, ofArray)|, out + HeaderToks(path, ofArray)))
  {
    hide HeaderText, HeaderToks, HasAt, CleanPath, AllSkipped, Reaches;
    HasSplit(input, p, indent, HeaderText(path, ofArray));
    LexHeader(input, p + |indent|, path, ofArray, out);
    LexAfterBlanks(input, p, indent, HeaderText(path, ofArray), HeaderToks(path, ofArray), out);
  }
}
