/** The encoder as functions from trees to text.

Values are those of Trees: nil, structs and TextMarshalers are not modelled, and floats and
datetimes are written as their text. */
module EncoderSpec {
  import opened Options
  import opened Runes
  import opened Escapes
  import opened Trees
  import opened Sorting

  datatype EncodeError =
    | BadArray        // mixed element types, or a table in a nested array
    | NoKeyForValue   // a top-level value that is not a table
    | EmptyKey
    | Unencodable     // the default case of eElement: not an error but a crash

  datatype Result<+T> = Success(value: T) | Failure(error: EncodeError) {
    predicate IsFailure() {
      Failure?
    }

    function PropagateFailure<U>(): Result<U>
      requires Failure?
    {
      Failure(error)
    }

    function Extract(): T
      requires Success?
    {
      value
    }
  }

  // ---- types ----

  // tomlTypeOfGo
  function GoType(v: Value): Result<TomlType>
    decreases v, 1
  {
    match v
    case Array(elems) =>
      var t :- ArrayType(elems);
      Success(if t == Some(TomlHash) then TomlArrayHash else TomlArray)
    case Tables(ts) => Success(if ts == [] then TomlArray else TomlArrayHash)
    case _ => Success(ParsedType(v))
  }

  // tomlArrayType; None for the empty array.
  function ArrayType(elems: seq<Value>): Result<Option<TomlType>>
    decreases elems, 0
  {
    if elems == [] then Success(None) else
      var first :- GoType(elems[0]);
      var _ :- RestOfType(elems, 1, first);
      if first.TomlArray? || first.TomlArrayHash? then
        var nest :- if elems[0].Array? then ArrayType(elems[0].elems)
                    else if elems[0].Tables? && elems[0].ts != [] then Success(Some(TomlHash))
                    else Success(None);
        if nest == Some(TomlHash) || nest == Some(TomlArrayHash) then Failure(BadArray) else Success(Some(first))
      else Success(Some(first))
  }

  // The loop of tomlArrayType: the elements from i on have the type of the first.
  function RestOfType(elems: seq<Value>, i: nat, first: TomlType): Result<()>
    decreases elems, 0, |elems| - i
  {
    if i >= |elems| then Success(()) else
      var t :- GoType(elems[i]);
      if t != first then Failure(BadArray) else RestOfType(elems, i + 1, first)
  }

  predicate IsHash(t: TomlType) {
    t.TomlHash? || t.TomlArrayHash?
  }

  // ---- numbers and keys ----

  function Digit(d: nat): char
    requires d < 10
  {
    ('0' as int + d) as char
  }

  function NatText(n: nat): (s: string)
    ensures s != []
  {
    if n < 10 then [Digit(n)] else NatText(n / 10) + [Digit(n % 10)]
  }

  // strconv.FormatInt(n, 10)
  function IntText(n: int): string {
    if n < 0 then "-" + NatText(-n) else NatText(n)
  }

  predicate AllBare(s: string) {
    forall i :: 0 <= i < |s| ==> IsBareKeyChar(s[i])
  }

  // strings.Replace(k, "\"", "\\\"", -1)
  function EscapeQuotes(k: string): string {
    if k == [] then [] else (if k[0] == '"' then "\\\"" else [k[0]]) + EscapeQuotes(k[1..])
  }

  // Key.maybeQuoted
  function MaybeQuoted(k: string): string {
    if AllBare(k) then k else "\"" + EscapeQuotes(k) + "\""
  }

  // Key.maybeQuotedAll
  function MaybeQuotedAll(path: Key): string {
    if path == [] then "" else if |path| == 1 then MaybeQuoted(path[0])
    else MaybeQuoted(path[0]) + "." + MaybeQuotedAll(path[1..])
  }

  function Repeat(s: string, n: nat): string {
    if n == 0 then "" else s + Repeat(s, n - 1)
  }

  // enc.indentStr
  function IndentOf(indent: string, path: Key): string {
    if path == [] then "" else Repeat(indent, |path| - 1)
  }

  // panicIfInvalidKey
  predicate ValidPath(path: Key) {
    forall i :: 0 <= i < |path| ==> path[i] != []
  }

  // ---- values ----

  function Quoted(s: string): string {
    "\"" + Escape(s) + "\""
  }

  // enc.eElement
  function Element(v: Value): Result<string>
    decreases v, 0, 0
  {
    match v
    case Bool(b) => Success(if b then "true" else "false")
    case Integer(n) => Success(IntText(n))
    case Str(s) => Success(Quoted(s))
    case Float(text) => Success(text)
    case Datetime(text) => Success(text)
    case Array(elems) =>
      var inner :- Elements(elems, 0);
      Success("[" + inner + "]")
    case Hash(_) => Failure(Unencodable)
    case Tables(ts) => if ts == [] then Success("[]") else Failure(Unencodable)
  }

  // The loop of eArrayOrSliceElement from element i on.
  function Elements(elems: seq<Value>, i: nat): Result<string>
    decreases elems, 1, |elems| - i
  {
    if i >= |elems| then Success("") else
      var e :- Element(elems[i]);
      var rest :- Elements(elems, i + 1);
      Success(e + (if i != |elems| - 1 then ", " else "") + rest)
  }

  // enc.keyEqElement
  function KeyEqElement(indent: string, path: Key, v: Value): Result<string> {
    if path == [] then Failure(NoKeyForValue)
    else if !ValidPath(path) then Failure(EmptyKey)
    else
      var e :- Element(v);
      Success(IndentOf(indent, path) + MaybeQuoted(path[|path| - 1]) + " = " + e + "\n")
  }

  // ---- tables ----

  // The keys written before the sub-tables, and those of the sub-tables, each in order.
  ghost function DirectKeys(t: Table): seq<string> {
    SortedSet(set k | k in t.entries && !(GoType(t.entries[k]).Success? && IsHash(GoType(t.entries[k]).value)))
  }

  ghost function SubKeys(t: Table): seq<string> {
    SortedSet(set k | k in t.entries && GoType(t.entries[k]).Success? && IsHash(GoType(t.entries[k]).value))
  }

  predicate Typed(t: Table) {
    forall k :: k in t.entries ==> GoType(t.entries[k]).Success?
  }

  function Newline(written: bool): string {
    if written then "\n" else ""
  }

  function HeaderText(path: Key, ofArray: bool): string {
    if ofArray then "[[" + MaybeQuotedAll(path) + "]]\n" else "[" + MaybeQuotedAll(path) + "]\n"
  }

  // enc.eMap; written says whether anything has been written before.
  ghost function Body(indent: string, written: bool, path: Key, t: Table): Result<string>
    decreases t, 3, 0
  {
    if !Typed(t) then Failure(BadArray) else
      var direct :- Directs(indent, path, t, DirectKeys(t));
      var subs :- Subs(indent, written || direct != "", path, t, SubKeys(t));
      Success(direct + subs)
  }

  ghost function Directs(indent: string, path: Key, t: Table, keys: seq<string>): Result<string>
    requires forall k :: k in keys ==> k in t.entries
    decreases t, 2, |keys|
  {
    if keys == [] then Success("") else
      var first :- KeyEqElement(indent, path + [keys[0]], t.entries[keys[0]]);
      var rest :- Directs(indent, path, t, keys[1..]);
      Success(first + rest)
  }

  ghost function Subs(indent: string, written: bool, path: Key, t: Table, keys: seq<string>): Result<string>
    requires forall k :: k in keys ==> k in t.entries
    decreases t, 2, |keys|
  {
    if keys == [] then Success("") else
      var first :- Sub(indent, written, path + [keys[0]], t.entries[keys[0]]);
      var rest :- Subs(indent, written || first != "", path, t, keys[1..]);
      Success(first + rest)
  }

  // A table or an array of tables below a key.
  ghost function Sub(indent: string, written: bool, path: Key, v: Value): Result<string>
    decreases v, 4, 0
  {
    match v
    case Hash(s) => SubTable(indent, written, path, s)
    case Tables(ts) => Elems(indent, written, path, ts)
    case Array(elems) => HashElems(indent, written, path, elems)
    case _ => Failure(Unencodable)
  }

  // enc.eTable, below the top level
  ghost function SubTable(indent: string, written: bool, path: Key, t: Table): Result<string>
    decreases t, 4, 0
  {
    if !ValidPath(path) then Failure(EmptyKey) else
      var head := ((if |path| == 1 then Newline(written) else "") + IndentOf(indent, path)) + HeaderText(path, false);
      var body :- Body(indent, true, path, t);
      Success(head + body)
  }

  // enc.eArrayOfTables
  ghost function Elems(indent: string, written: bool, path: Key, ts: seq<Table>): Result<string>
    decreases ts, 5, 0
  {
    if ts == [] then Success("") else
      var first :- Elem(indent, written, path, ts[0]);
      var rest :- Elems(indent, true, path, ts[1..]);
      Success(first + rest)
  }

  ghost function Elem(indent: string, written: bool, path: Key, t: Table): Result<string>
    decreases t, 4, 0
  {
    if !ValidPath(path) then Failure(EmptyKey) else
      var head := (Newline(written) + IndentOf(indent, path)) + HeaderText(path, true);
      var body :- Body(indent, true, path, t);
      Success(head + body)
  }

  // The same for a slice whose elements are tables.
  ghost function HashElems(indent: string, written: bool, path: Key, elems: seq<Value>): Result<string>
    decreases elems, 5, 0
  {
    if elems == [] then Success("") else
      var first :- HashElem(indent, written, path, elems[0]);
      var rest :- HashElems(indent, true, path, elems[1..]);
      Success(first + rest)
  }

  ghost function HashElem(indent: string, written: bool, path: Key, v: Value): Result<string>
    decreases v, 4, 0
  {
    if v.Hash? then Elem(indent, written, path, v.table)
    else if !ValidPath(path) then Failure(EmptyKey)
    else Failure(Unencodable)
  }

  // enc.encode; no header is written for the table at the empty path.
  ghost function EncodeAt(indent: string, written: bool, path: Key, v: Value): Result<string> {
    var t :- GoType(v);
    if !IsHash(t) then KeyEqElement(indent, path, v)
    else if path != [] then Sub(indent, written, path, v)
    else if v.Hash? then Body(indent, written, path, v.table)
    else Failure(NoKeyForValue)
  }

  // enc.Encode, on a new encoder
  ghost function Encode(indent: string, v: Value): Result<string> {
    EncodeAt(indent, false, [], v)
  }
}
