/** The layout of what the encoder writes: one line for every value and every header, indented by
the depth of its table, an empty line before the headers of top-level tables and of arrays of
tables, and nothing else. */
module Output {
  import opened Sequences
  import opened Tokens
  import opened Trees
  import opened EncoderSpec
  import opened LexPrinted
  import opened LexDocument
  import opened RoundTrip
  import Layout
  import ParserSpec

  // ---- keys and arrays ----

  /** A key is written as it is exactly if it has ASCII letters, digits, underscores and dashes
      only, and in quotes otherwise. */
  lemma KeyQuoting(k: string)
    ensures MaybeQuoted(k) == if Layout.All(k, Layout.IsNameRune) then k else "\"" + EscapeQuotes(k) + "\""
  {
  }

  function Joined(parts: seq<string>, sep: string): string {
    if parts == [] then "" else if |parts| == 1 then parts[0] else parts[0] + sep + Joined(parts[1..], sep)
  }

  // The texts of the elements from i on.
  function Texts(elems: seq<Value>, i: nat): seq<string>
    requires AllLoose(elems)
    decreases |elems| - i
  {
    if i >= |elems| then [] else
      LooseText(elems[i]);
      [Element(elems[i]).value] + Texts(elems, i + 1)
  }

  lemma {:induction false} ElementsJoined(elems: seq<Value>, i: nat)
    requires AllLoose(elems)
    ensures Elements(elems, i) == Success(Joined(Texts(elems, i), ", "))
    decreases |elems| - i
  {
    if i < |elems| {
      LooseText(elems[i]);
      ElementsJoined(elems, i + 1);
      var e, rest := Element(elems[i]).value, Texts(elems, i + 1);
      assert ([e] + rest)[1..] == rest;
      if i == |elems| - 1 {
        assert rest == [] && e + "" + "" == e;
      }
    }
  }

  /** An array is written as the texts of its elements with a comma and a blank between them, in
      brackets; a path as its quoted pieces with dots between them. */
  lemma ArrayWritten(elems: seq<Value>)
    requires AllLoose(elems)
    ensures Element(Array(elems)) == Success("[" + Joined(Texts(elems, 0), ", ") + "]")
  {
    ElementsJoined(elems, 0);
  }

  /** An empty array of tables is written as an empty array, and a float or a datetime as its
      text, which is read back as the same value if it is one. */
  lemma OtherValuesWritten(text: string)
    ensures Element(Tables([])) == Element(Array([])) == Success("[]")
    ensures Element(Float(text)) == Element(Datetime(text)) == Success(text)
    ensures ParserSpec.Scalar(Token(ItemFloat, text)).Ok? ==>
              ParserSpec.Scalar(Token(ItemFloat, text)).value == Float(text)
    ensures ParserSpec.Scalar(Token(ItemDatetime, text)).Ok? ==>
              ParserSpec.Scalar(Token(ItemDatetime, text)).value == Datetime(text)
  {
    ArrayWritten([]);
    assert "[" + "" + "]" == "[]";
  }

  // The tables of an array that has tables only.
  function TablesOf(elems: seq<Value>): (ts: seq<Table>)
    requires forall i :: 0 <= i < |elems| ==> elems[i].Hash?
    ensures |ts| == |elems|
  {
    if elems == [] then [] else [elems[0].table] + TablesOf(elems[1..])
  }

  /** Arrays of tables are written alike in both representations. */
  lemma {:induction false} HashesWritten(indent: string, written: bool, path: Key, elems: seq<Value>)
    requires forall i :: 0 <= i < |elems| ==> elems[i].Hash?
    ensures HashElems(indent, written, path, elems) == Elems(indent, written, path, TablesOf(elems))
    decreases |elems|
  {
    if elems != [] {
      HashesWritten(indent, true, path, elems[1..]);
      assert TablesOf(elems)[1..] == TablesOf(elems[1..]);
    }
  }

  function QuotedPieces(path: Key): seq<string> {
    if path == [] then [] else [MaybeQuoted(path[0])] + QuotedPieces(path[1..])
  }

  lemma {:induction false} PathWritten(path: Key)
    ensures MaybeQuotedAll(path) == Joined(QuotedPieces(path), ".")
  {
    if path != [] {
      PathWritten(path[1..]);
      assert QuotedPieces(path)[1..] == QuotedPieces(path[1..]);
      if |path| == 1 {
        assert path[1..] == [] && QuotedPieces(path[1..]) == [];
      }
    }
  }

  // ---- lines ----

  // A line: whether an empty one comes before it, its depth, and its text.
  datatype OutLine = OutLine(gap: bool, depth: nat, text: string)

  function Render(indent: string, written: bool, lines: seq<OutLine>): string
    decreases |lines|
  {
    if lines == [] then "" else
      (if lines[0].gap && written then "\n" else "") + Repeat(indent, lines[0].depth) + lines[0].text + "\n"
      + Render(indent, true, lines[1..])
  }

  lemma {:induction false} RenderBoth(indent: string, written: bool, a: seq<OutLine>, b: seq<OutLine>)
    ensures Render(indent, written, a + b) == Render(indent, written, a) + Render(indent, written || a != [], b)
    decreases |a|
  {
    if a == [] {
      assert a + b == b && "" + Render(indent, written, b) == Render(indent, written, b);
    } else {
      assert (a + b)[0] == a[0] && (a + b)[1..] == a[1..] + b;
      RenderBoth(indent, true, a[1..], b);
      var first := (if a[0].gap && written then "\n" else "") + Repeat(indent, a[0].depth) + a[0].text + "\n";
      Regroup(first, Render(indent, true, a[1..]), Render(indent, true, b));
    }
  }

  lemma RenderSome(indent: string, written: bool, lines: seq<OutLine>)
    ensures Render(indent, written, lines) == "" <==> lines == []
  {
    if lines != [] {
      var first := (if lines[0].gap && written then "\n" else "") + Repeat(indent, lines[0].depth) + lines[0].text;
      assert |first + "\n" + Render(indent, true, lines[1..])| >= 1;
    }
  }

  lemma RenderOne(indent: string, written: bool, l: OutLine)
    ensures Render(indent, written, [l])
         == (if l.gap && written then "\n" else "") + Repeat(indent, l.depth) + l.text + "\n"
  {
    assert [l][1..] == [];
    var line := (if l.gap && written then "\n" else "") + Repeat(indent, l.depth) + l.text + "\n";
    assert line + "" == line;
  }

  // ---- the lines of a tree ----

  ghost function BodyLines(path: Key, t: Table): seq<OutLine>
    requires KeyedTable(t)
    decreases t, 3, 0
  {
    KeyedKeys(t);
    DirectLines(path, t, DirectKeys(t)) + SubLines(path, t, SubKeys(t))
  }

  ghost function DirectLines(path: Key, t: Table, keys: seq<string>): seq<OutLine>
    requires forall k :: k in keys ==> k in t.entries && Loose(t.entries[k])
    decreases t, 2, |keys|
  {
    if keys == [] then [] else
      LooseText(t.entries[keys[0]]);
      [OutLine(false, |path|, MaybeQuoted(keys[0]) + " = " + Element(t.entries[keys[0]]).value)]
      + DirectLines(path, t, keys[1..])
  }

  ghost function SubLines(path: Key, t: Table, keys: seq<string>): seq<OutLine>
    requires KeyedTable(t)
    requires forall k :: k in keys ==> k in t.entries && (t.entries[k].Hash? || t.entries[k].Tables?)
    decreases t, 2, |keys|
  {
    if keys == [] then [] else
      assert KeyedValue(t.entries[keys[0]]);
      (match t.entries[keys[0]]
       case Hash(s) => TableLines(path + [keys[0]], s)
       case Tables(ts) => ElementLines(path + [keys[0]], ts)
       case _ => [])
      + SubLines(path, t, keys[1..])
  }

  // A header stands as deep as the table around it.
  ghost function TableLines(path: Key, t: Table): seq<OutLine>
    requires path != [] && KeyedTable(t)
    decreases t, 4, 0
  {
    [OutLine(|path| == 1, |path| - 1, "[" + MaybeQuotedAll(path) + "]")] + BodyLines(path, t)
  }

  ghost function ElementLines(path: Key, ts: seq<Table>): seq<OutLine>
    requires path != [] && KeyedTables(ts)
    decreases ts, 5, 0
  {
    if ts == [] then [] else
      [OutLine(true, |path| - 1, "[[" + MaybeQuotedAll(path) + "]]")] + BodyLines(path, ts[0])
      + ElementLines(path, ts[1..])
  }

  // ---- the encoder writes these lines ----

  lemma {:induction false} WritesBody(indent: string, written: bool, path: Key, t: Table)
    requires CleanPath(path) && KeyedTable(t)
    ensures Body(indent, written, path, t) == Success(Render(indent, written, BodyLines(path, t)))
    decreases t, 3, 0
  {
    KeyedKeys(t);
    var direct, subs := DirectLines(path, t, DirectKeys(t)), SubLines(path, t, SubKeys(t));
    WritesDirects(indent, written, path, t, DirectKeys(t));
    RenderSome(indent, written, direct);
    WritesSubs(indent, written || direct != [], path, t, SubKeys(t));
    RenderBoth(indent, written, direct, subs);
  }

  lemma {:induction false} WritesDirects(indent: string, written: bool, path: Key, t: Table, keys: seq<string>)
    requires CleanPath(path) && KeyedTable(t)
    requires forall k :: k in keys ==> k in t.entries && Loose(t.entries[k])
    ensures Directs(indent, path, t, keys) == Success(Render(indent, written, DirectLines(path, t, keys)))
    decreases t, 2, |keys|
  {
    if keys != [] {
      var full, v := path + [keys[0]], t.entries[keys[0]];
      CleanAppend(path, keys[0]);
      CleanValid(full);
      LooseText(v);
      var line := OutLine(false, |path|, MaybeQuoted(keys[0]) + " = " + Element(v).value);
      KeyLine(IndentOf(indent, full), MaybeQuoted(keys[0]), Element(v).value);
      assert KeyEqElement(indent, full, v) == Success(Repeat(indent, |path|) + line.text + "\n");
      assert "" + Repeat(indent, |path|) == Repeat(indent, |path|);
      RenderOne(indent, written, line);
      WritesDirects(indent, true, path, t, keys[1..]);
      RenderBoth(indent, written, [line], DirectLines(path, t, keys[1..]));
    }
  }

  lemma KeyLine(indent: string, k: string, e: string)
    ensures indent + k + " = " + e + "\n" == indent + (k + " = " + e) + "\n"
  {
    assert indent + k + " = " + e == indent + (k + " = " + e);
  }

  lemma {:induction false} WritesSubs(indent: string, written: bool, path: Key, t: Table, keys: seq<string>)
    requires CleanPath(path) && KeyedTable(t)
    requires forall k :: k in keys ==> k in t.entries && (t.entries[k].Hash? || t.entries[k].Tables?)
    ensures Subs(indent, written, path, t, keys) == Success(Render(indent, written, SubLines(path, t, keys)))
    decreases t, 2, |keys|
  {
    if keys != [] {
      var full, v := path + [keys[0]], t.entries[keys[0]];
      CleanAppend(path, keys[0]);
      assert KeyedValue(v);
      var lines := match v case Hash(s) => TableLines(full, s) case Tables(ts) => ElementLines(full, ts) case _ => [];
      match v {
        case Hash(s) => WritesTable(indent, written, full, s);
        case Tables(ts) => WritesElements(indent, written, full, ts);
      }
      RenderSome(indent, written, lines);
      WritesSubs(indent, written || lines != [], path, t, keys[1..]);
      RenderBoth(indent, written, lines, SubLines(path, t, keys[1..]));
    }
  }

  lemma HeaderLine(gap: string, indent: string, open: string, path: string, close: string)
    ensures gap + indent + (open + path + (close + "\n")) == gap + indent + (open + path + close) + "\n"
  {
    assert open + path + (close + "\n") == open + path + close + "\n";
    Regroup(gap + indent, open + path + close, "\n");
  }

  // The header of an element, as the encoder puts it together.
  lemma ElementHead(indent: string, written: bool, path: Key)
    requires path != []
    ensures (Newline(written) + IndentOf(indent, path)) + HeaderText(path, true)
         == Render(indent, written, [OutLine(true, |path| - 1, "[[" + MaybeQuotedAll(path) + "]]")])
  {
    hide MaybeQuotedAll;
    RenderOne(indent, written, OutLine(true, |path| - 1, "[[" + MaybeQuotedAll(path) + "]]"));
    HeaderLine(Newline(written), IndentOf(indent, path), "[[", MaybeQuotedAll(path), "]]");
    assert HeaderText(path, true) == "[[" + MaybeQuotedAll(path) + ("]]" + "\n");
  }

  lemma TableHead(indent: string, written: bool, path: Key)
    requires path != []
    ensures ((if |path| == 1 then Newline(written) else "") + IndentOf(indent, path)) + HeaderText(path, false)
         == Render(indent, written, [OutLine(|path| == 1, |path| - 1, "[" + MaybeQuotedAll(path) + "]")])
  {
    hide MaybeQuotedAll;
    var gap := if |path| == 1 then Newline(written) else "";
    RenderOne(indent, written, OutLine(|path| == 1, |path| - 1, "[" + MaybeQuotedAll(path) + "]"));
    HeaderLine(gap, IndentOf(indent, path), "[", MaybeQuotedAll(path), "]");
    assert HeaderText(path, false) == "[" + MaybeQuotedAll(path) + ("]" + "\n");
  }

  lemma {:induction false} WritesTable(indent: string, written: bool, path: Key, t: Table)
    requires path != [] && CleanPath(path) && KeyedTable(t)
    ensures SubTable(indent, written, path, t) == Success(Render(indent, written, TableLines(path, t)))
    decreases t, 4, 0
  {
    hide Render, HeaderText, MaybeQuotedAll, IndentOf, Newline, KeyedTable, CleanPath, ValidPath;
    var head := OutLine(|path| == 1, |path| - 1, "[" + MaybeQuotedAll(path) + "]");
    CleanValid(path);
    TableHead(indent, written, path);
    WritesBody(indent, true, path, t);
    RenderBoth(indent, written, [head], BodyLines(path, t));
  }

  lemma {:induction false} WritesElements(indent: string, written: bool, path: Key, ts: seq<Table>)
    requires path != [] && CleanPath(path) && KeyedTables(ts)
    ensures Elems(indent, written, path, ts) == Success(Render(indent, written, ElementLines(path, ts)))
    decreases ts, 5, 0
  {
    if ts != [] {
      hide Render, HeaderText, MaybeQuotedAll, IndentOf, Newline, KeyedTable, CleanPath, ValidPath;
      var head := OutLine(true, |path| - 1, "[[" + MaybeQuotedAll(path) + "]]");
      CleanValid(path);
      ElementHead(indent, written, path);
      WritesBody(indent, true, path, ts[0]);
      RenderBoth(indent, written, [head], BodyLines(path, ts[0]));
      WritesElements(indent, true, path, ts[1..]);
      RenderBoth(indent, written, [head] + BodyLines(path, ts[0]), ElementLines(path, ts[1..]));
    } else {
      assert Render(indent, written, []) == "";
    }
  }

  /** For every tree with clean keys and every indentation: the encoder writes the lines of the
      tree. */
  lemma EncodesLines(indent: string, t: Table)
    requires KeyedTable(t)
    ensures Encode(indent, Hash(t)) == Success(Render(indent, false, BodyLines([], t)))
  {
    WritesBody(indent, false, [], t);
  }
}
