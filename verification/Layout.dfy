/** The texts of TOML documents, written as a grammar of trees.

A `Doc` holds everything that a text is made of: items, values, blanks, line breaks and comments.
`DocText` is its text and `DocToks` the tokens it should be lexed into.  Nothing here knows of the
lexer: runes are classified by their code points. */
module Layout {
  import opened Tokens

  // ---- runes ----

  predicate IsBlank(c: char) {
    c == ' ' || c == '\t'
  }

  predicate IsBreak(c: char) {
    c == '\n' || c == '\r'
  }

  predicate IsNul(c: char) {
    c as int == 0
  }

  predicate IsDigitRune(c: char) {
    48 <= c as int <= 57
  }

  predicate IsHexRune(c: char) {
    48 <= c as int <= 57 || 65 <= c as int <= 70 || 97 <= c as int <= 102
  }

  predicate IsNameRune(c: char) {
    48 <= c as int <= 57 || 65 <= c as int <= 90 || 97 <= c as int <= 122 || c == '_' || c == '-'
  }

  predicate IsNumberRune(c: char) {
    IsDigitRune(c) || c == '_'
  }

  predicate IsFloatRune(c: char) {
    IsDigitRune(c) || c == '_' || c == '.' || c == '-' || c == '+' || c == 'e' || c == 'E'
  }

  predicate IsDateRune(c: char) {
    IsDigitRune(c) || c == '-' || c == 'T' || c == ':' || c == '.' || c == 'Z'
  }

  predicate All(s: string, f: char -> bool) {
    forall i :: 0 <= i < |s| ==> f(s[i])
  }

  predicate AreBlanks(s: string) {
    forall i :: 0 <= i < |s| ==> IsBlank(s[i])
  }

  // ---- numbers ----

  function SignLength(s: string): nat {
    if s != [] && (s[0] == '+' || s[0] == '-') then 1 else 0
  }

  // An optional sign, a digit, and digits and underscores.
  predicate IntegerLike(s: string) {
    var n := SignLength(s);
    n < |s| && IsDigitRune(s[n]) && All(s[n..], IsNumberRune)
  }

  // An integer up to place i, and then a period or an exponent.
  predicate FloatAt(s: string, i: nat) {
    && i < |s| && IntegerLike(s[..i])
    && (s[i] == '.' || s[i] == 'e' || s[i] == 'E')
    && All(s[i..], IsFloatRune)
  }

  predicate FloatLike(s: string) {
    exists i :: 0 < i < |s| && FloatAt(s, i)
  }

  // Digits up to place i, and then a dash.
  predicate DatetimeAt(s: string, i: nat) {
    && 0 < i < |s| && All(s[..i], IsDigitRune)
    && s[i] == '-'
    && All(s[i..], IsDateRune)
  }

  predicate DatetimeLike(s: string) {
    exists i :: 0 < i < |s| && DatetimeAt(s, i)
  }

  // ---- strings ----

  // The number of runes of an escape sequence that w begins with, or 0.
  function EscapeLength(w: string): (n: nat)
    ensures n <= |w|
  {
    if |w| < 2 || w[0] != '\\' then 0
    else if w[1] == 'u' then if |w| >= 6 && All(w[2..6], IsHexRune) then 6 else 0
    else if w[1] == 'U' then if |w| >= 10 && All(w[2..10], IsHexRune) then 10 else 0
    else if w[1] in {'b', 't', 'n', 'f', 'r', '"', '\\'} then 2
    else 0
  }

  // Between the quotes of a basic string.
  predicate BasicText(w: string)
    decreases |w|
  {
    || w == []
    || (EscapeLength(w) > 0 && BasicText(w[EscapeLength(w)..]))
    || (w[0] != '\\' && w[0] != '"' && !IsNul(w[0]) && !IsBreak(w[0]) && BasicText(w[1..]))
  }

  // With rest before three closing quotes, the next two runes are quotes.
  predicate Closes(rest: string, quote: char) {
    rest == [] || (rest[0] == quote && (|rest| == 1 || rest[1] == quote))
  }

  predicate MultilineText(w: string)
    decreases |w|
  {
    || w == []
    || (|w| >= 2 && w[0] == '\\' && IsBreak(w[1]) && MultilineText(w[2..]))
    || (EscapeLength(w) > 0 && MultilineText(w[EscapeLength(w)..]))
    || (w[0] != '\\' && !IsNul(w[0]) && !(w[0] == '"' && Closes(w[1..], '"')) && MultilineText(w[1..]))
  }

  predicate RawText(w: string)
    decreases |w|
  {
    w == [] || (w[0] != '\'' && !IsNul(w[0]) && !IsBreak(w[0]) && RawText(w[1..]))
  }

  predicate RawMultilineText(w: string)
    decreases |w|
  {
    w == [] || (!IsNul(w[0]) && !(w[0] == '\'' && Closes(w[1..], '\'')) && RawMultilineText(w[1..]))
  }

  predicate LegalString(typ: TokenType, txt: string) {
    match typ
    case ItemString => BasicText(txt)
    case ItemMultilineString => MultilineText(txt)
    case ItemRawString => RawText(txt)
    case ItemRawMultilineString => RawMultilineText(txt)
    case _ => false
  }

  function QuoteText(typ: TokenType): string {
    match typ
    case ItemString => "\""
    case ItemMultilineString => "\"\"\""
    case ItemRawString => "'"
    case ItemRawMultilineString => "'''"
    case _ => ""
  }

  // ---- names and scalars ----

  datatype Name = Name(typ: TokenType, txt: string)

  function NameText(name: Name): string {
    QuoteText(name.typ) + name.txt + QuoteText(name.typ)
  }

  function NameToken(name: Name): Token {
    Token(name.typ, name.txt)
  }

  predicate LegalBare(s: string) {
    s != [] && All(s, IsNameRune)
  }

  predicate LegalName(name: Name) {
    if name.typ.ItemText? then LegalBare(name.txt) else LegalString(name.typ, name.txt)
  }

  predicate LegalScalar(typ: TokenType, txt: string) {
    match typ
    case ItemBool => txt == "true" || txt == "false"
    case ItemInteger => IntegerLike(txt)
    case ItemFloat => FloatLike(txt)
    case ItemDatetime => DatetimeLike(txt)
    case _ => LegalString(typ, txt)
  }

  // ---- gaps ----

  // A blank or a line break, or a comment with the line break behind it.
  datatype Piece = Space(c: char) | Remark(txt: string, nl: char)

  predicate LegalRemark(txt: string) {
    forall i :: 0 <= i < |txt| ==> !IsBreak(txt[i]) && !IsNul(txt[i])
  }

  predicate LegalPiece(piece: Piece) {
    match piece
    case Space(c) => IsBlank(c) || IsBreak(c)
    case Remark(txt, nl) => LegalRemark(txt) && IsBreak(nl)
  }

  function PieceText(piece: Piece): string {
    match piece
    case Space(c) => [c]
    case Remark(txt, nl) => "#" + (txt + [nl])
  }

  function RemarkToks(txt: string): seq<Token> {
    [Token(ItemCommentStart, []), Token(ItemText, txt)]
  }

  function PieceToks(piece: Piece): seq<Token> {
    match piece
    case Space(_) => []
    case Remark(txt, _) => RemarkToks(txt)
  }

  predicate LegalGap(gap: seq<Piece>) {
    forall i :: 0 <= i < |gap| ==> LegalPiece(gap[i])
  }

  function GapText(gap: seq<Piece>): string {
    if gap == [] then "" else PieceText(gap[0]) + GapText(gap[1..])
  }

  function GapToks(gap: seq<Piece>): seq<Token> {
    if gap == [] then [] else PieceToks(gap[0]) + GapToks(gap[1..])
  }

  // ---- values ----

  datatype Val = Scalar(typ: TokenType, txt: string) | Arr(tail: Tail) | Inline(pairs: Pairs)

  // An array after its bracket or after a comma.
  datatype Tail =
    | Close(gap: seq<Piece>)
    | Last(gap: seq<Piece>, val: Val, after: seq<Piece>)
    | More(gap: seq<Piece>, val: Val, after: seq<Piece>, rest: Tail)

  // A name, a value, and the blanks around the equals sign.
  datatype Pair = Pair(name: Name, left: string, right: string, val: Val)

  // An inline table after its brace or after a comma.
  datatype Pairs =
    | NoPair(before: string)
    | LastPair(before: string, pair: Pair, after: string)
    | MorePairs(before: string, pair: Pair, after: string, rest: Pairs)

  predicate LegalVal(v: Val) {
    match v
    case Scalar(typ, txt) => LegalScalar(typ, txt)
    case Arr(tail) => LegalTail(tail)
    case Inline(pairs) => LegalPairs(pairs)
  }

  predicate LegalTail(t: Tail) {
    match t
    case Close(gap) => LegalGap(gap)
    case Last(gap, v, after) => LegalGap(gap) && LegalVal(v) && LegalGap(after)
    case More(gap, v, after, rest) => LegalGap(gap) && LegalVal(v) && LegalGap(after) && LegalTail(rest)
  }

  predicate LegalPair(pair: Pair) {
    LegalName(pair.name) && AreBlanks(pair.left) && AreBlanks(pair.right) && LegalVal(pair.val)
  }

  predicate LegalPairs(ps: Pairs) {
    match ps
    case NoPair(before) => AreBlanks(before)
    case LastPair(before, pair, after) => AreBlanks(before) && LegalPair(pair) && AreBlanks(after)
    case MorePairs(before, pair, after, rest) =>
      AreBlanks(before) && LegalPair(pair) && AreBlanks(after) && LegalPairs(rest)
  }

  function ValText(v: Val): string {
    match v
    case Scalar(typ, txt) => QuoteText(typ) + txt + QuoteText(typ)
    case Arr(tail) => "[" + TailText(tail)
    case Inline(pairs) => "{" + PairsText(pairs)
  }

  function TailText(t: Tail): string {
    match t
    case Close(gap) => GapText(gap) + "]"
    case Last(gap, v, after) => GapText(gap) + (ValText(v) + (GapText(after) + "]"))
    case More(gap, v, after, rest) => GapText(gap) + (ValText(v) + (GapText(after) + ("," + TailText(rest))))
  }

  function PairText(pair: Pair): string {
    NameText(pair.name) + (pair.left + ("=" + (pair.right + ValText(pair.val))))
  }

  function PairsText(ps: Pairs): string {
    match ps
    case NoPair(before) => before + "}"
    case LastPair(before, pair, after) => before + (PairText(pair) + (after + "}"))
    case MorePairs(before, pair, after, rest) => before + (PairText(pair) + (after + ("," + PairsText(rest))))
  }

  function ValToks(v: Val): seq<Token> {
    match v
    case Scalar(typ, txt) => [Token(typ, txt)]
    case Arr(tail) => [Token(ItemArray, [])] + TailToks(tail)
    case Inline(pairs) => [Token(ItemInlineTableStart, [])] + PairsToks(pairs)
  }

  function TailToks(t: Tail): seq<Token> {
    match t
    case Close(gap) => GapToks(gap) + [Token(ItemArrayEnd, [])]
    case Last(gap, v, after) => GapToks(gap) + (ValToks(v) + (GapToks(after) + [Token(ItemArrayEnd, [])]))
    case More(gap, v, after, rest) => GapToks(gap) + (ValToks(v) + (GapToks(after) + TailToks(rest)))
  }

  function PairToks(pair: Pair): seq<Token> {
    [Token(ItemKeyStart, []), NameToken(pair.name)] + ValToks(pair.val)
  }

  function PairsToks(ps: Pairs): seq<Token> {
    match ps
    case NoPair(_) => [Token(ItemInlineTableEnd, [])]
    case LastPair(_, pair, _) => PairToks(pair) + [Token(ItemInlineTableEnd, [])]
    case MorePairs(_, pair, _, rest) => PairToks(pair) + PairsToks(rest)
  }

  // ---- items ----

  // The pieces of a header, with the blanks around them.
  datatype Path =
    | LastPiece(before: string, name: Name, after: string)
    | MorePieces(before: string, name: Name, after: string, rest: Path)

  datatype Entry = Header(ofArray: bool, path: Path) | Assignment(pair: Pair)

  predicate LegalPath(path: Path) {
    && AreBlanks(path.before) && LegalName(path.name) && AreBlanks(path.after)
    && (path.MorePieces? ==> LegalPath(path.rest))
  }

  predicate LegalItem(item: Entry) {
    match item
    case Header(_, path) => LegalPath(path)
    case Assignment(pair) => LegalPair(pair)
  }

  function PathText(path: Path): string {
    match path
    case LastPiece(before, name, after) => before + (NameText(name) + after)
    case MorePieces(before, name, after, rest) => before + (NameText(name) + (after + ("." + PathText(rest))))
  }

  function PathTokens(path: Path): seq<Token> {
    match path
    case LastPiece(_, name, _) => [NameToken(name)]
    case MorePieces(_, name, _, rest) => [NameToken(name)] + PathTokens(rest)
  }

  function Open(ofArray: bool): string {
    if ofArray then "[[" else "["
  }

  function Closing(ofArray: bool): string {
    if ofArray then "]]" else "]"
  }

  function WrittenItem(item: Entry): string {
    match item
    case Header(ofArray, path) => Open(ofArray) + (PathText(path) + Closing(ofArray))
    case Assignment(pair) => PairText(pair)
  }

  function ItemToks(item: Entry): seq<Token> {
    match item
    case Header(ofArray, path) =>
      [Token(if ofArray then ItemArrayTableStart else ItemTableStart, Open(ofArray))]
      + (PathTokens(path) + [Token(if ofArray then ItemArrayTableEnd else ItemTableEnd, Closing(ofArray))])
    case Assignment(pair) => PairToks(pair)
  }

  // ---- documents ----

  // What may come after the blanks behind the last item: nothing, a comment, or a NUL, which hides
  // everything behind it.
  datatype End = AtEnd | AtNul(hidden: string) | AtRemark(txt: string)

  datatype Doc =
    | Done
    | LastRemark(txt: string)
    | LastItem(item: Entry, after: string, end: End)
    | Gap(piece: Piece, rest: Doc)
    | Line(item: Entry, after: string, piece: Piece, rest: Doc)

  predicate LegalEnd(end: End) {
    end.AtRemark? ==> LegalRemark(end.txt)
  }

  // An item is followed by a line break or a comment.
  predicate EndsLine(piece: Piece) {
    LegalPiece(piece) && (piece.Space? ==> IsBreak(piece.c))
  }

  predicate LegalDoc(d: Doc) {
    match d
    case Done => true
    case LastRemark(txt) => LegalRemark(txt)
    case LastItem(item, after, end) => LegalItem(item) && AreBlanks(after) && LegalEnd(end)
    case Gap(piece, rest) => LegalPiece(piece) && LegalDoc(rest)
    case Line(item, after, piece, rest) => LegalItem(item) && AreBlanks(after) && EndsLine(piece) && LegalDoc(rest)
  }

  function EndText(end: End): string {
    match end
    case AtEnd => ""
    case AtNul(hidden) => "\0" + hidden
    case AtRemark(txt) => "#" + txt
  }

  function DocText(d: Doc): string {
    match d
    case Done => ""
    case LastRemark(txt) => "#" + txt
    case LastItem(item, after, end) => WrittenItem(item) + (after + EndText(end))
    case Gap(piece, rest) => PieceText(piece) + DocText(rest)
    case Line(item, after, piece, rest) => WrittenItem(item) + (after + (PieceText(piece) + DocText(rest)))
  }

  // The token of the end of the input has the blanks before it as its text.
  function EndToks(after: string, end: End): seq<Token> {
    match end
    case AtEnd => [Token(ItemEOF, after)]
    case AtNul(_) => [Token(ItemEOF, after + "\0")]
    case AtRemark(txt) => RemarkToks(txt) + [Token(ItemEOF, [])]
  }

  function DocToks(d: Doc): seq<Token> {
    match d
    case Done => [Token(ItemEOF, [])]
    case LastRemark(txt) => RemarkToks(txt) + [Token(ItemEOF, [])]
    case LastItem(item, after, end) => ItemToks(item) + EndToks(after, end)
    case Gap(piece, rest) => PieceToks(piece) + DocToks(rest)
    case Line(item, _, piece, rest) => ItemToks(item) + (PieceToks(piece) + DocToks(rest))
  }
}
