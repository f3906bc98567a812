/** How the parser reads the tokens of what the encoder prints. */
module ParsePrinted {
  import opened Runes
  import opened Tokens
  import opened Outcomes
  import opened Escapes
  import opened Trees
  import opened ParserSpec
  import opened EncoderSpec
  import opened LexPrinted
  import opened LexDocument

  // ---- integers ----

  lemma {:induction false} NatTextValue(n: nat)
    ensures AllDigits(NatText(n)) && Decimal(NatText(n)) == n
  {
    if n >= 10 {
      NatTextValue(n / 10);
      var s := NatText(n);
      assert s[..|s| - 1] == NatText(n / 10);
    }
  }

  lemma {:induction false} NoUnderscores(s: string)
    requires '_' !in s
    ensures WithoutUnderscores(s) == s
  {
    if s != [] {
      NoUnderscores(s[1..]);
      assert s == [s[0]] + s[1..];
    }
  }

  /** strconv.ParseInt undoes strconv.FormatInt. */
  lemma IntegerInverse(n: int)
    requires IsInt64(n)
    ensures UnderscoresOK(IntText(n)) && ParseInt(WithoutUnderscores(IntText(n))) == Ok(n)
  {
    var s := IntText(n);
    var m := if n < 0 then -n else n;
    NatTextValue(m);
    var d := NatText(m);
    assert forall i :: 0 <= i < |d| ==> IsDigit(d[i]);
    assert n < 0 ==> s[1..] == d;
    assert n >= 0 ==> s == d;
    forall i | 0 <= i < |s|
      ensures s[i] != '_'
    {
      assert n < 0 && i > 0 ==> s[i] == d[i - 1];
    }
    NoUnderscores(s);
    assert s[|s| - 1] == d[|d| - 1];
  }

  // ---- names ----

  /** replaceEscapes undoes the quoting of a key. */
  lemma {:induction false} EscapeQuotesInverse(k: string)
    requires forall i :: 0 <= i < |k| ==> k[i] != '\\'
    ensures Unescape(EscapeQuotes(k)) == Ok(k)
  {
    if k != [] {
      EscapeQuotesInverse(k[1..]);
      var q := EscapeQuotes(k);
      var e := if k[0] == '"' then "\\\"" else [k[0]];
      assert q[|e|..] == EscapeQuotes(k[1..]);
      assert q[0] == e[0] && (|e| == 2 ==> q[1] == e[1]);
      assert k == [k[0]] + k[1..];
    }
  }

  lemma NameInverse(k: string)
    requires CleanKey(k)
    ensures KeyString(NameTok(k)) == Ok(k)
  {
    EscapeQuotesInverse(k);
  }

  // ---- values ----

  lemma PlainScalar(v: Value)
    requires Plain(v) && !v.Array?
    ensures |ValueToks(v)| == 1 && Grammar.IsPrimitive(ValueToks(v)[0].typ) && Scalar(ValueToks(v)[0]) == Ok(v)
  {
    match v
    case Integer(n) => IntegerInverse(n);
    case Str(s) => EscapeInverse(s);
    case _ =>
  }

  // A token list that begins with the printed value v and goes on with rest.
  ghost predicate Reads(context: Key, key: string, v: Value, toks: seq<Token>, rest: seq<Token>) {
    && toks != []
    && !toks[0].typ.ItemError? && !toks[0].typ.ItemArrayEnd? && !toks[0].typ.ItemCommentStart?
    && ReadValue(context, key, toks[0], toks[1..]) == Ok(Read(v, [], rest))
  }

  lemma {:induction false} ReadPlain(context: Key, key: string, v: Value, rest: seq<Token>)
    requires Plain(v)
    ensures Reads(context, key, v, ValueToks(v) + rest, rest)
    decreases v, 0
  {
    if v.Array? {
      ReadArray(context, key, v.elems, rest);
    } else {
      PlainScalar(v);
      assert (ValueToks(v) + rest)[1..] == rest;
    }
  }

  lemma {:induction false} ReadArray(context: Key, key: string, elems: seq<Value>, rest: seq<Token>)
    requires Homogeneous(elems) && forall j :: 0 <= j < |elems| ==> Plain(elems[j])
    ensures Reads(context, key, Array(elems), ValueToks(Array(elems)) + rest, rest)
    decreases elems, 2, 0
  {
    var start, end := Token(ItemArray, []), Token(ItemArrayEnd, []);
    Ending(ElementToks(elems, 0), end, rest);
    Shift(start, ElementToks(elems, 0) + [end], rest);
    assert ValueToks(Array(elems)) == [start] + (ElementToks(elems, 0) + [end]);
    ReadPlains(context, key, elems, 0, [], rest);
    assert [] + elems[0..] == elems;
  }

  lemma Shift(a: Token, m: seq<Token>, rest: seq<Token>)
    ensures ([a] + m + rest)[0] == a && ([a] + m + rest)[1..] == m + rest
  {
  }

  lemma Ending(m: seq<Token>, z: Token, rest: seq<Token>)
    ensures m + [z] + rest == m + ([z] + rest)
  {
  }

  lemma {:induction false} ReadPlains(context: Key, key: string, elems: seq<Value>, i: nat, vs: seq<Value>,
      rest: seq<Token>)
    requires i <= |elems| && forall j :: 0 <= j < |elems| ==> Plain(elems[j])
    ensures ReadElements(context, key, vs, [], ElementToks(elems, i) + ([Token(ItemArrayEnd, [])] + rest))
         == Ok(Read(vs + elems[i..], [], rest))
    decreases elems, 1, |elems| - i
  {
    hide ValueToks;
    var after := [Token(ItemArrayEnd, [])] + rest;
    if i == |elems| {
      assert [] + after == after && after[1..] == rest && vs + elems[i..] == vs;
    } else {
      var more := ElementToks(elems, i + 1) + after;
      assert ElementToks(elems, i) + after == ValueToks(elems[i]) + more;
      ReadPlain(context, key, elems[i], more);
      var none: seq<Key> := [];
      assert none + none == none;
      ReadPlains(context, key, elems, i + 1, vs + [elems[i]], rest);
      assert vs + [elems[i]] + elems[i + 1..] == vs + elems[i..];
    }
  }

  // ---- statements ----

  lemma ReadPrintedPair(context: Key, k: string, v: Value, rest: seq<Token>)
    requires CleanKey(k) && Plain(v)
    ensures ReadPair(context, [NameTok(k)] + ValueToks(v) + rest) == Ok(Read((k, v), [], rest))
  {
    Shift(NameTok(k), ValueToks(v), rest);
    var toks := [NameTok(k)] + ValueToks(v) + rest;
    var vt := ValueToks(v) + rest;
    NameInverse(k);
    ReadPlain(context, k, v, rest);
    assert toks[2..] == vt[1..];
  }

  lemma ReadAssign(context: Key, k: string, v: Value, rest: seq<Token>)
    requires CleanKey(k) && Plain(v)
    ensures ParseStmt(context, AssignToks(k, v) + rest) == Ok(Read(Assign(k, v, []), [], rest))
    ensures AssignToks(k, v) != [] && AssignToks(k, v)[0].typ.ItemKeyStart?
  {
    var start := Token(ItemKeyStart, []);
    Shift(start, [NameTok(k)] + ValueToks(v), rest);
    assert AssignToks(k, v) == [start] + ([NameTok(k)] + ValueToks(v));
    ReadPrintedPair(context, k, v, rest);
  }

  lemma {:induction false} ReadPath(end: TokenType, done: Key, path: Key, val: string, rest: seq<Token>)
    requires CleanPath(path) && (end == ItemTableEnd || end == ItemArrayTableEnd)
    ensures ReadHeader(end, done, PathToks(path) + ([Token(end, val)] + rest)) == Ok(Read(done + path, [], rest))
    decreases |path|
  {
    var toks := PathToks(path) + ([Token(end, val)] + rest);
    if path == [] {
      assert toks[1..] == rest && done + path == done;
    } else {
      NameInverse(path[0]);
      assert toks[0] == NameTok(path[0]) && toks[1..] == PathToks(path[1..]) + ([Token(end, val)] + rest);
      ReadPath(end, done + [path[0]], path[1..], val, rest);
      assert done + [path[0]] + path[1..] == done + path;
    }
  }

  lemma ReadPrintedHeader(context: Key, path: Key, ofArray: bool, rest: seq<Token>)
    requires CleanPath(path)
    ensures ParseStmt(context, HeaderToks(path, ofArray) + rest)
         == Ok(Read(if ofArray then ArrayHeader(path) else TableHeader(path), [], rest))
    ensures HeaderToks(path, ofArray) != [] && !HeaderToks(path, ofArray)[0].typ.ItemEOF?
    ensures !HeaderToks(path, ofArray)[0].typ.ItemError?
  {
    var start := if ofArray then Token(ItemArrayTableStart, "[[") else Token(ItemTableStart, "[");
    var end := if ofArray then Token(ItemArrayTableEnd, "]]") else Token(ItemTableEnd, "]");
    Ending(PathToks(path), end, rest);
    Shift(start, PathToks(path) + [end], rest);
    assert HeaderToks(path, ofArray) == [start] + (PathToks(path) + [end]);
    ReadPath(end.typ, [], path, end.val, rest);
    assert [] + path == path;
  }

  // ---- performing them ----

  // No table is marked as implicit.
  predicate Explicit(st: PState) {
    st.implicits == map[]
  }

  // An assignment in the current table cur.
  lemma ExecAssign(st: PState, cur: Table, k: string, v: Value) returns (st': PState)
    requires Get(st.mapping, st.context) == At(cur) && k !in cur.entries
    ensures Exec(st, Assign(k, v, [])) == Ok(st')
    ensures st'.context == st.context && st'.implicits == st.implicits
    ensures st'.mapping == Put(st.mapping, st.context, With(cur, k, v))
  {
    st' := Exec(st, Assign(k, v, [])).value;
  }

  lemma ExecHeader(st: PState, path: Key, cur: Table, k: string) returns (st': PState)
    requires Get(st.mapping, path) == At(cur) && k !in cur.entries && Explicit(st)
    ensures Exec(st, TableHeader(path + [k])) == Ok(st')
    ensures st'.context == path + [k] && Explicit(st')
    ensures st'.mapping == Put(st.mapping, path, With(cur, k, Hash(EMPTY)))
  {
    var full := path + [k];
    assert full[..|full| - 1] == path && [] + path == path;
    DrillWalks(st.(context := []), path);
    st' := Exec(st, TableHeader(path + [k])).value;
  }

  // The elements of the array of tables at k so far.
  function TablesAt(cur: Table, k: string): seq<Table>
    requires k in cur.entries ==> cur.entries[k].Tables?
  {
    if k in cur.entries then cur.entries[k].ts else []
  }

  lemma ExecArrayHeader(st: PState, path: Key, cur: Table, k: string) returns (st': PState)
    requires Get(st.mapping, path) == At(cur) && Explicit(st)
    requires k in cur.entries ==> cur.entries[k].Tables?
    ensures Exec(st, ArrayHeader(path + [k])) == Ok(st')
    ensures st'.context == path + [k] && Explicit(st')
    ensures st'.mapping == Put(st.mapping, path, With(cur, k, Tables(TablesAt(cur, k) + [EMPTY])))
  {
    var full := path + [k];
    assert full[..|full| - 1] == path && [] + path == path;
    DrillWalks(st.(context := []), path);
    st' := Exec(st, ArrayHeader(path + [k])).value;
  }
}
