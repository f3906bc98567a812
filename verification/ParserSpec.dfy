/** The parser as functions on token lists and trees.

A document is read statement by statement; `ParseStmt` reads one and `Exec` performs it.
`p.types`, line numbers and message texts are not modelled. */
module ParserSpec {
  import opened Runes
  import opened Tokens
  import opened Outcomes
  import opened Escapes
  import opened Grammar
  import opened Trees

  // ---- scalars ----

  // unicode.IsSpace
  predicate IsSpace(r: char) {
    || r == '\t' || r == '\n' || r == '\U{b}' || r == '\U{c}' || r == '\r' || r == ' '
    || r == '\U{85}' || r == '\U{A0}' || r == '\U{1680}' || '\U{2000}' <= r <= '\U{200a}'
    || r == '\U{2028}' || r == '\U{2029}' || r == '\U{202f}' || r == '\U{205f}' || r == '\U{3000}'
  }

  function TrimLeft(s: string): (t: string)
    ensures |t| <= |s|
  {
    if s != [] && IsSpace(s[0]) then TrimLeft(s[1..]) else s
  }

  function StripFirstNewline(s: string): string {
    if s != [] && s[0] == '\n' then s[1..] else s
  }

  // Drops every backslash-newline together with the blanks that follow it.
  function StripEscapedWhitespace(s: string): string
    decreases |s|
  {
    if s == [] then []
    else if |s| >= 2 && s[0] == '\\' && s[1] == '\n' then StripEscapedWhitespace(TrimLeft(s[2..]))
    else [s[0]] + StripEscapedWhitespace(s[1..])
  }

  function Trimmed(s: string): string {
    StripFirstNewline(StripEscapedWhitespace(s))
  }

  function StringOf(t: Token): Outcome<string>
    requires IsStringType(t.typ)
  {
    if t.typ.ItemString? then Unescape(t.val)
    else if t.typ.ItemMultilineString? then Unescape(Trimmed(t.val))
    else if t.typ.ItemRawString? then Ok(t.val)
    else Ok(StripFirstNewline(t.val))
  }

  // numUnderscoresOK: every underscore has something other than an underscore before it, and
  // the text does not end in one.
  predicate UnderscoresOK(s: string) {
    && s != []
    && s[|s| - 1] != '_'
    && forall i :: 0 <= i < |s| && s[i] == '_' ==> i > 0 && s[i - 1] != '_'
  }

  // strings.Replace(s, "_", "", -1)
  function WithoutUnderscores(s: string): string {
    if s == [] then [] else (if s[0] == '_' then [] else [s[0]]) + WithoutUnderscores(s[1..])
  }

  predicate AllDigits(s: string) {
    forall i :: 0 <= i < |s| ==> IsDigit(s[i])
  }

  function Decimal(s: string): nat
    requires AllDigits(s)
  {
    if s == [] then 0 else 10 * Decimal(s[..|s| - 1]) + (s[|s| - 1] as int - '0' as int)
  }

  predicate IsInt64(n: int) {
    -0x8000_0000_0000_0000 <= n < 0x8000_0000_0000_0000
  }

  // strconv.ParseInt(s, 10, 64); a text that is out of range is the user's fault, one that is
  // no integer is the lexer's.
  function ParseInt(s: string): Outcome<int> {
    var digits := if s != [] && (s[0] == '+' || s[0] == '-') then s[1..] else s;
    if digits == [] || !AllDigits(digits) then Bug(NotAnInteger) else
      var n: int := if s[0] == '-' then -(Decimal(digits) as int) else Decimal(digits);
      if IsInt64(n) then Ok(n) else Rejected
  }

  // Which texts strconv.ParseFloat and time.ParseInLocation accept is left open.
  const FloatOK: string -> bool
  const DatetimeOK: string -> bool

  function Scalar(t: Token): Outcome<Value>
    requires IsPrimitive(t.typ)
  {
    if IsStringType(t.typ) then
      var s :- StringOf(t);
      Ok(Str(s))
    else if t.typ.ItemBool? then
      if t.val == "true" then Ok(Bool(true)) else if t.val == "false" then Ok(Bool(false)) else Bug(NotABool)
    else if t.typ.ItemInteger? then
      if !UnderscoresOK(t.val) then Rejected else
        var n :- ParseInt(WithoutUnderscores(t.val));
        Ok(Integer(n))
    else if t.typ.ItemFloat? then
      if FloatOK(t.val) then Ok(Float(t.val)) else Rejected
    else
      if DatetimeOK(t.val) then Ok(Datetime(t.val)) else Rejected
  }

  function KeyString(t: Token): Outcome<string> {
    if t.typ.ItemText? then Ok(t.val)
    else if IsStringType(t.typ) then StringOf(t)
    else Bug(UnexpectedToken)
  }

  // ---- values ----

  // p.next: an error token ends the parse.
  function Next(toks: seq<Token>): (r: Outcome<Token>)
    ensures r.Ok? ==> toks != [] && r.value == toks[0]
  {
    if toks == [] then Bug(PastEnd) else if toks[0].typ.ItemError? then Rejected else Ok(toks[0])
  }

  // p.expect
  function Expect(toks: seq<Token>, typ: TokenType): (r: Outcome<Token>)
    ensures r.Ok? ==> toks != [] && r.value == toks[0]
  {
    var t :- Next(toks);
    if t.typ == typ then Ok(t) else Bug(UnexpectedToken)
  }

  // What reading a value yields: the value, the keys of inline tables inside it, the tokens left.
  datatype Read<+T> = Read(val: T, keys: seq<Key>, rest: seq<Token>)

  // p.value(t), where context and key say where the value is assigned.
  function ReadValue(context: Key, key: string, t: Token, toks: seq<Token>): (r: Outcome<Read<Value>>)
    ensures r.Ok? ==> |r.value.rest| <= |toks|
    decreases |toks|, 1
  {
    if IsPrimitive(t.typ) then
      var v :- Scalar(t);
      Ok(Read(v, [], toks))
    else if t.typ.ItemArray? then
      var r :- ReadElements(context, key, [], [], toks);
      if Homogeneous(r.val) then Ok(Read(Array(r.val), r.keys, r.rest)) else Rejected
    else if t.typ.ItemInlineTableStart? then
      var r :- ReadPairs(context + [key], map[], [], toks);
      Ok(Read(Hash(Table(r.val)), r.keys, r.rest))
    else Bug(UnexpectedToken)
  }

  function ReadElements(context: Key, key: string, vs: seq<Value>, keys: seq<Key>,
      toks: seq<Token>): (r: Outcome<Read<seq<Value>>>)
    ensures r.Ok? ==> |r.value.rest| <= |toks|
    decreases |toks|, 0
  {
    var t :- Next(toks);
    if t.typ.ItemArrayEnd? then Ok(Read(vs, keys, toks[1..]))
    else if t.typ.ItemCommentStart? then
      var _ :- Expect(toks[1..], ItemText);
      ReadElements(context, key, vs, keys, toks[2..])
    else
      var r :- ReadValue(context, key, t, toks[1..]);
      ReadElements(context, key, vs + [r.val], keys + r.keys, r.rest)
  }

  function ReadPairs(context: Key, hash: map<string, Value>, keys: seq<Key>,
      toks: seq<Token>): (r: Outcome<Read<map<string, Value>>>)
    ensures r.Ok? ==> |r.value.rest| <= |toks|
    decreases |toks|, 0
  {
    var t :- Next(toks);
    if t.typ.ItemInlineTableEnd? then Ok(Read(hash, keys, toks[1..]))
    else if !t.typ.ItemKeyStart? then Bug(NoKeyStart)
    else
      var r :- ReadPair(context, toks[1..]);
      var (name, v) := r.val;
      ReadPairs(context, hash[name := v], keys + r.keys + [context + [name]], r.rest)
  }

  // A key and a value, at top level or in an inline table.
  function ReadPair(context: Key, toks: seq<Token>): (r: Outcome<Read<(string, Trees.Value)>>)
    ensures r.Ok? ==> |r.value.rest| < |toks|
    decreases |toks|, 2
  {
    var k :- Next(toks);
    var name :- KeyString(k);
    var v :- Next(toks[1..]);
    var r :- ReadValue(context, name, v, toks[2..]);
    Ok(Read((name, r.val), r.keys, r.rest))
  }

  // ---- statements ----

  datatype Stmt =
    | Comment
    | TableHeader(path: Key)
    | ArrayHeader(path: Key)
    | Assign(key: string, val: Value, inner: seq<Key>)

  // The pieces of a header up to the token that ends it.
  function ReadHeader(end: TokenType, path: Key, toks: seq<Token>): (r: Outcome<Read<Key>>)
    ensures r.Ok? ==> |r.value.rest| < |toks|
    decreases |toks|
  {
    var t :- Next(toks);
    if t.typ == end then Ok(Read(path, [], toks[1..]))
    else if t.typ.ItemEOF? then Bug(UnexpectedToken)
    else
      var k :- KeyString(t);
      ReadHeader(end, path + [k], toks[1..])
  }

  // p.topLevel, up to the change of the tree.
  function ParseStmt(context: Key, toks: seq<Token>): (r: Outcome<Read<Stmt>>)
    ensures r.Ok? ==> |r.value.rest| < |toks|
  {
    var t :- Next(toks);
    if t.typ.ItemCommentStart? then
      var _ :- Expect(toks[1..], ItemText);
      Ok(Read(Comment, [], toks[2..]))
    else if t.typ.ItemTableStart? then
      var r :- ReadHeader(ItemTableEnd, [], toks[1..]);
      Ok(Read(TableHeader(r.val), [], r.rest))
    else if t.typ.ItemArrayTableStart? then
      var r :- ReadHeader(ItemArrayTableEnd, [], toks[1..]);
      Ok(Read(ArrayHeader(r.val), [], r.rest))
    else if t.typ.ItemKeyStart? then
      var r :- ReadPair(context, toks[1..]);
      Ok(Read(Assign(r.val.0, r.val.1, r.keys), [], r.rest))
    else Bug(UnexpectedToken)
  }

  // ---- the tree ----

  datatype PState = PState(mapping: Table, implicits: map<string, bool>, ordered: seq<Key>, context: Key)

  const INIT := PState(EMPTY, map[], [], [])

  predicate IsImplicit(st: PState, path: Key) {
    Join(path) in st.implicits && st.implicits[Join(path)]
  }

  // The assertions on the way to the current context.
  function Context(st: PState): Outcome<Table> {
    match Get(st.mapping, st.context)
    case Missing => Bug(NoContext)
    case NotATable => Bug(NotAHash)
    case NoElements => Bug(NoElement)
    case At(t) => Ok(t)
  }

  function SetValue(st: PState, key: string, v: Value): Outcome<PState> {
    var hash :- Context(st);
    var full := st.context + [key];
    if key in hash.entries then
      if IsImplicit(st, full) then Ok(st.(implicits := st.implicits[Join(full) := false])) else Rejected
    else Ok(st.(mapping := Put(st.mapping, st.context, With(hash, key, v))))
  }

  // The loop of establishContext over all but the last piece of a header; the pieces already
  // walked are the context.
  function Drill(st: PState, todo: Key): Outcome<PState>
    decreases |todo|
  {
    if todo == [] then Ok(st) else
      var hash :- Context(st);
      var path := st.context + [todo[0]];
      var st1 := if todo[0] in hash.entries then st
                 else st.(mapping := Put(st.mapping, st.context, With(hash, todo[0], Hash(EMPTY))),
                          implicits := st.implicits[Join(path) := true]);
      match Child(if todo[0] in hash.entries then hash else With(hash, todo[0], Hash(EMPTY)), todo[0])
      case NoElements => Bug(NoElement)
      case At(_) => Drill(st1.(context := path), todo[1..])
      case _ => Rejected
  }

  function EstablishContext(st: PState, path: Key, ofArray: bool): Outcome<PState> {
    // an empty path is a slice out of bounds in the source
    if path == [] then Bug(UnexpectedToken) else
      var last := path[|path| - 1];
      var st1 :- Drill(st.(context := []), path[..|path| - 1]);
      var st2 :- if ofArray then AddElement(st1, last) else SetValue(st1, last, Hash(EMPTY));
      Ok(st2.(context := path))
  }

  // The array case of establishContext.
  function AddElement(st: PState, key: string): Outcome<PState> {
    var hash :- Context(st);
    var ts := if key in hash.entries then hash.entries[key] else Tables([]);
    if ts.Tables? then
      Ok(st.(mapping := Put(st.mapping, st.context, With(hash, key, Tables(ts.ts + [EMPTY])))))
    else Rejected
  }

  function Exec(st: PState, s: Stmt): Outcome<PState> {
    match s
    case Comment => Ok(st)
    case TableHeader(path) =>
      var st1 :- EstablishContext(st, path, false);
      Ok(st1.(ordered := st1.ordered + [path]))
    case ArrayHeader(path) =>
      var st1 :- EstablishContext(st, path, true);
      Ok(st1.(ordered := st1.ordered + [path]))
    case Assign(key, v, inner) =>
      var st1 :- SetValue(st, key, v);
      Ok(st1.(ordered := st1.ordered + inner + [st1.context + [key]]))
  }

  // parse, from a state and the tokens left.
  function ParseFrom(st: PState, toks: seq<Token>): Outcome<PState>
    decreases |toks|
  {
    var t :- Next(toks);
    if t.typ.ItemEOF? then Ok(st) else
      var r :- ParseStmt(st.context, toks);
      var st1 :- Exec(st, r.val);
      ParseFrom(st1, r.rest)
  }

  function Parse(toks: seq<Token>): Outcome<PState> {
    ParseFrom(INIT, toks)
  }

  // Every part of the path exists: the loop of establishContext only walks.
  lemma {:induction false} DrillWalks(st: PState, todo: Key)
    requires Get(st.mapping, st.context + todo).At? && Get(st.mapping, st.context).At?
    ensures Drill(st, todo) == Ok(st.(context := st.context + todo))
    decreases |todo|
  {
    if todo == [] {
      assert st.context + todo == st.context;
    } else {
      var next := st.context + [todo[0]];
      assert next + todo[1..] == st.context + todo;
      GetPrefix(st.mapping, next, todo[1..]);
      GetAppend(st.mapping, st.context, todo[0]);
      DrillWalks(st.(context := next), todo[1..]);
    }
  }
}
