/** Printing a tree and parsing the text gives back the tree. */
module RoundTrip {
  import opened Sequences
  import opened Options
  import opened Runes
  import opened Tokens
  import opened LexSpec
  import opened LexRun
  import opened Outcomes
  import opened Trees
  import opened Sorting
  import opened ParserSpec
  import opened EncoderSpec
  import opened LexPrinted
  import opened LexDocument
  import opened LexNul
  import opened ParsePrinted

  // ---- the trees of the round trip ----

  // Tables and non-empty arrays of tables over plain values, with keys that survive quoting.
  ghost predicate CleanTable(t: Table) {
    forall k :: k in t.entries ==> CleanKey(k) && CleanValue(t.entries[k])
  }

  ghost predicate CleanValue(v: Value) {
    match v
    case Hash(s) => CleanTable(s)
    case Tables(ts) => ts != [] && forall i :: 0 <= i < |ts| ==> CleanTable(ts[i])
    case _ => Plain(v)
  }

  // The same trees, with any strings.
  ghost predicate KeyedTable(t: Table) {
    forall k :: k in t.entries ==> CleanKey(k) && KeyedValue(t.entries[k])
  }

  ghost predicate KeyedValue(v: Value) {
    match v
    case Hash(s) => KeyedTable(s)
    case Tables(ts) => ts != [] && KeyedTables(ts)
    case _ => Loose(v)
  }

  ghost predicate KeyedTables(ts: seq<Table>) {
    forall i :: 0 <= i < |ts| ==> KeyedTable(ts[i])
  }

  // No string at any depth has a NUL.
  ghost predicate NulFreeTable(t: Table) {
    forall k :: k in t.entries ==> NulFree(t.entries[k])
  }

  ghost predicate NulFree(v: Value) {
    match v
    case Str(s) => EOF !in s
    case Array(elems) => forall i :: 0 <= i < |elems| ==> NulFree(elems[i])
    case Hash(s) => NulFreeTable(s)
    case Tables(ts) => NulFreeTables(ts)
    case _ => true
  }

  ghost predicate NulFreeTables(ts: seq<Table>) {
    forall i :: 0 <= i < |ts| ==> NulFreeTable(ts[i])
  }

  lemma {:induction false} PlainIff(v: Value)
    ensures Plain(v) <==> Loose(v) && NulFree(v)
  {
    if v.Array? {
      forall i | 0 <= i < |v.elems|
        ensures Plain(v.elems[i]) <==> Loose(v.elems[i]) && NulFree(v.elems[i])
      {
        PlainIff(v.elems[i]);
      }
    }
  }

  lemma {:induction false} CleanIff(t: Table)
    ensures CleanTable(t) <==> KeyedTable(t) && NulFreeTable(t)
  {
    forall k | k in t.entries
      ensures CleanValue(t.entries[k]) <==> KeyedValue(t.entries[k]) && NulFree(t.entries[k])
    {
      CleanValueIff(t.entries[k]);
    }
  }

  lemma {:induction false} CleanValueIff(v: Value)
    ensures CleanValue(v) <==> KeyedValue(v) && NulFree(v)
  {
    match v
    case Hash(s) => CleanIff(s);
    case Tables(ts) =>
      forall i | 0 <= i < |ts|
        ensures CleanTable(ts[i]) <==> KeyedTable(ts[i]) && NulFreeTable(ts[i])
      {
        CleanIff(ts[i]);
      }
    case _ => PlainIff(v);
  }

  // ---- types ----

  lemma {:induction false} LooseType(v: Value)
    requires Loose(v)
    ensures GoType(v) == Success(ParsedType(v)) && !IsHash(ParsedType(v))
    decreases v, 1
  {
    if v.Array? {
      LooseArrayType(v.elems);
    }
  }

  lemma {:induction false} LooseArrayType(elems: seq<Value>)
    requires Homogeneous(elems) && AllLoose(elems)
    ensures ArrayType(elems) == Success(if elems == [] then None else Some(ParsedType(elems[0])))
    ensures elems != [] ==> !IsHash(ParsedType(elems[0]))
    decreases elems, 0
  {
    if elems != [] {
      LooseType(elems[0]);
      LooseRest(elems, 1);
      if elems[0].Array? {
        LooseArrayType(elems[0].elems);
      }
    }
  }

  lemma {:induction false} LooseRest(elems: seq<Value>, i: nat)
    requires elems != [] && Homogeneous(elems) && AllLoose(elems) && i >= 1
    ensures RestOfType(elems, i, ParsedType(elems[0])) == Success(())
    decreases elems, 0, |elems| - i
  {
    if i < |elems| {
      LooseType(elems[i]);
      LooseRest(elems, i + 1);
    }
  }

  // The keys of such a table are split by what is under them.
  lemma KeyedKeys(t: Table)
    requires KeyedTable(t)
    ensures Typed(t)
    ensures forall k :: k in DirectKeys(t) <==> k in t.entries && Loose(t.entries[k])
    ensures forall k :: k in SubKeys(t) <==> k in t.entries && (t.entries[k].Hash? || t.entries[k].Tables?)
  {
    forall k | k in t.entries
      ensures GoType(t.entries[k]).Success?
      ensures IsHash(GoType(t.entries[k]).value) <==> t.entries[k].Hash? || t.entries[k].Tables?
      ensures Loose(t.entries[k]) <==> !(t.entries[k].Hash? || t.entries[k].Tables?)
    {
      assert KeyedValue(t.entries[k]);
      if Loose(t.entries[k]) {
        LooseType(t.entries[k]);
      }
    }
  }

  lemma CleanKeys(t: Table)
    requires CleanTable(t)
    ensures forall k :: k in DirectKeys(t) <==> k in t.entries && Plain(t.entries[k])
    ensures forall k :: k in SubKeys(t) <==> k in t.entries && (t.entries[k].Hash? || t.entries[k].Tables?)
  {
    CleanIff(t);
    KeyedKeys(t);
    forall k | k in t.entries
      ensures Plain(t.entries[k]) <==> Loose(t.entries[k])
    {
      assert CleanValue(t.entries[k]);
      PlainIff(t.entries[k]);
    }
  }

  // ---- the tokens of a printed tree ----

  ghost function BodyToks(path: Key, t: Table): seq<Token>
    decreases t, 3, 0
  {
    DirectToks(t, DirectKeys(t)) + SubsToks(path, t, SubKeys(t))
  }

  ghost function DirectToks(t: Table, keys: seq<string>): seq<Token>
    decreases t, 2, |keys|
  {
    if keys == [] || keys[0] !in t.entries then []
        else AssignToks(keys[0], t.entries[keys[0]]) + DirectToks(t, keys[1..])
  }

  ghost function SubsToks(path: Key, t: Table, keys: seq<string>): seq<Token>
    decreases t, 2, |keys|
  {
    if keys == [] || keys[0] !in t.entries then []
    else SubToks(path + [keys[0]], t.entries[keys[0]]) + SubsToks(path, t, keys[1..])
  }

  ghost function SubToks(path: Key, v: Value): seq<Token>
    decreases v, 4, 0
  {
    match v
    case Hash(s) => HeaderToks(path, false) + BodyToks(path, s)
    case Tables(ts) => ElemsToks(path, ts)
    case _ => []
  }

  ghost function ElemsToks(path: Key, ts: seq<Table>): seq<Token>
    decreases ts, 5, 0
  {
    if ts == [] then [] else HeaderToks(path, true) + BodyToks(path, ts[0]) + ElemsToks(path, ts[1..])
  }

  // ---- lexing ----

  // Printing succeeds, and the lexer reads the printed text, wherever it stands, into toks.
  ghost predicate Prints(text: EncoderSpec.Result<string>, toks: seq<Token>) {
    text.Success? && forall input: string, p: nat,
        out: seq<Token> {:trigger HasAt(input, p, text.value), Here(LexTop, Empty, p, out)} ::
      HasAt(input, p, text.value) ==>
      Reaches(input, Here(LexTop, Empty, p, out), Here(LexTop, Empty, p + |text.value|, out + toks))
  }

  lemma PrintsNothing()
    ensures Prints(Success(""), [])
  {
    forall input: string, p: nat, out: seq<Token> | HasAt(input, p, "")
      ensures Reaches(input, Here(LexTop, Empty, p, out), Here(LexTop, Empty, p + |""|, out + []))
    {
      assert out + [] == out;
    }
  }

  lemma PrintsBoth(a: EncoderSpec.Result<string>, s: seq<Token>, b: EncoderSpec.Result<string>, t: seq<Token>)
    requires Prints(a, s) && Prints(b, t)
    ensures Prints(Success(a.value + b.value), s + t)
  {
    forall input: string, p: nat, out: seq<Token> | HasAt(input, p, a.value + b.value)
      ensures Reaches(input, Here(LexTop, Empty, p, out), Here(LexTop, Empty, p + |a.value + b.value|, out + (s + t)))
    {
      HasSplit(input, p, a.value, b.value);
      assert out + s + t == out + (s + t);
      assert Reaches(input, Here(LexTop, Empty, p, out), Here(LexTop, Empty, p + |a.value|, out + s));
      assert Reaches(input, Here(LexTop, Empty, p + |a.value|, out + s),
          Here(LexTop, Empty, p + |a.value| + |b.value|, out + s + t));
    }
  }

  // Wherever the text stands, the lexer stops in it with an error.
  ghost predicate Stops(text: string) {
    forall input: string, p: nat, out: seq<Token> {:trigger HasAt(input, p, text), Here(LexTop, Empty, p, out)} ::
      HasAt(input, p, text) ==> Halts(input, Here(LexTop, Empty, p, out))
  }

  // Printing succeeds; the text is lexed into toks if it is clean, and stops the lexer otherwise.
  ghost predicate Lexes(text: EncoderSpec.Result<string>, toks: seq<Token>, clean: bool) {
    text.Success? && if clean then Prints(text, toks) else Stops(text.value)
  }

  lemma StopsFirst(a: string, b: string)
    requires Stops(a)
    ensures Stops(a + b)
  {
    forall input: string, p: nat, out: seq<Token> | HasAt(input, p, a + b)
      ensures Halts(input, Here(LexTop, Empty, p, out))
    {
      HasSplit(input, p, a, b);
    }
  }

  lemma StopsSecond(a: EncoderSpec.Result<string>, s: seq<Token>, b: string)
    requires Prints(a, s) && Stops(b)
    ensures Stops(a.value + b)
  {
    forall input: string, p: nat, out: seq<Token> | HasAt(input, p, a.value + b)
      ensures Halts(input, Here(LexTop, Empty, p, out))
    {
      HasSplit(input, p, a.value, b);
      assert Reaches(input, Here(LexTop, Empty, p, out), Here(LexTop, Empty, p + |a.value|, out + s));
      assert Halts(input, Here(LexTop, Empty, p + |a.value|, out + s));
      HaltsLater(input, Here(LexTop, Empty, p, out), Here(LexTop, Empty, p + |a.value|, out + s));
    }
  }

  lemma LexesBoth(a: EncoderSpec.Result<string>, s: seq<Token>, c: bool, b: EncoderSpec.Result<string>, t: seq<Token>,
      d: bool)
    requires Lexes(a, s, c) && Lexes(b, t, d)
    ensures Lexes(Success(a.value + b.value), s + t, c && d)
  {
    hide Prints, Stops;
    if !c {
      StopsFirst(a.value, b.value);
    } else if d {
      PrintsBoth(a, s, b, t);
    } else {
      StopsSecond(a, s, b.value);
    }
  }

  lemma {:induction false} BlankRepeat(indent: string, n: nat)
    requires AllSkipped(indent)
    ensures AllSkipped(Repeat(indent, n))
  {
    if n > 0 {
      BlankRepeat(indent, n - 1);
    }
  }

  lemma BlankIndent(indent: string, path: Key)
    requires AllSkipped(indent)
    ensures AllSkipped(IndentOf(indent, path))
  {
    if path != [] {
      BlankRepeat(indent, |path| - 1);
    }
  }

  lemma CleanValid(path: Key)
    requires CleanPath(path)
    ensures ValidPath(path)
  {
    forall i | 0 <= i < |path|
      ensures path[i] != []
    {
      assert CleanKey(path[i]);
    }
  }

  lemma LexesAssign(indent: string, path: Key, v: Value)
    requires AllSkipped(indent) && path != [] && CleanPath(path) && Loose(v)
    ensures Lexes(KeyEqElement(indent, path, v), AssignToks(path[|path| - 1], v), NulFree(v))
  {
    var k, blank := path[|path| - 1], IndentOf(indent, path);
    CleanValid(path);
    LooseText(v);
    PlainIff(v);
    BlankIndent(indent, path);
    var e := Element(v).value;
    var text := KeyEqElement(indent, path, v).value;
    AssignText(blank, MaybeQuoted(k), e);
    if NulFree(v) {
      forall input: string, p: nat, out: seq<Token> | HasAt(input, p, text)
        ensures Reaches(input, Here(LexTop, Empty, p, out), Here(LexTop, Empty, p + |text|, out + AssignToks(k, v)))
      {
        LexAssign(input, p, blank, k, v, out);
      }
    } else {
      forall input: string, p: nat, out: seq<Token> | HasAt(input, p, text)
        ensures Halts(input, Here(LexTop, Empty, p, out))
      {
        AssignHalts(input, p, blank, k, v, out);
      }
    }
  }

  lemma AssignText(indent: string, k: string, e: string)
    ensures indent + k + " = " + e + "\n" == indent + (k + (" = " + (e + "\n")))
  {
  }

  lemma PrintsHeader(indent: string, path: Key, ofArray: bool, newline: string)
    requires AllSkipped(indent) && path != [] && CleanPath(path) && (newline == "" || newline == "\n")
    ensures Prints(Success((newline + IndentOf(indent, path)) + HeaderText(path, ofArray)), HeaderToks(path, ofArray))
  {
    BlankIndent(indent, path);
    var blank := newline + IndentOf(indent, path);
    forall input: string, p: nat, out: seq<Token> | HasAt(input, p, blank + HeaderText(path, ofArray))
      ensures Reaches(input, Here(LexTop, Empty, p, out),
                      Here(LexTop, Empty, p + |blank + HeaderText(path, ofArray)|, out + HeaderToks(path, ofArray)))
    {
      LexIndentedHeader(input, p, blank, path, ofArray, out);
    }
  }

  lemma CleanAppend(path: Key, k: string)
    requires CleanPath(path) && CleanKey(k)
    ensures CleanPath(path + [k])
  {
  }

  ghost predicate NulFreeAt(t: Table, keys: seq<string>) {
    forall k :: k in keys ==> k in t.entries && NulFree(t.entries[k])
  }

  lemma NulFreeHead(t: Table, keys: seq<string>)
    requires keys != [] && keys[0] in t.entries
    ensures NulFreeAt(t, keys) <==> NulFree(t.entries[keys[0]]) && NulFreeAt(t, keys[1..])
  {
    assert keys == [keys[0]] + keys[1..];
  }

  lemma NulFreeSplit(t: Table)
    requires KeyedTable(t)
    ensures NulFreeTable(t) <==> NulFreeAt(t, DirectKeys(t)) && NulFreeAt(t, SubKeys(t))
  {
    KeyedKeys(t);
    forall k | k in t.entries
      ensures k in DirectKeys(t) || k in SubKeys(t)
    {
      assert KeyedValue(t.entries[k]);
    }
  }

  /** A printed table is lexed into its statements, or it has a NUL in a string and stops the
      lexer. */
  lemma {:induction false} LexesBody(indent: string, written: bool, path: Key, t: Table)
    requires AllSkipped(indent) && CleanPath(path) && KeyedTable(t)
    ensures Lexes(Body(indent, written, path, t), BodyToks(path, t), NulFreeTable(t))
    decreases t, 3, 0
  {
    KeyedKeys(t);
    NulFreeSplit(t);
    LexesDirects(indent, path, t, DirectKeys(t));
    var direct := Directs(indent, path, t, DirectKeys(t));
    LexesSubs(indent, written || direct.value != "", path, t, SubKeys(t));
    LexesBoth(direct, DirectToks(t, DirectKeys(t)), NulFreeAt(t, DirectKeys(t)),
              Subs(indent, written || direct.value != "", path, t, SubKeys(t)), SubsToks(path, t, SubKeys(t)),
              NulFreeAt(t, SubKeys(t)));
  }

  lemma {:induction false} LexesDirects(indent: string, path: Key, t: Table, keys: seq<string>)
    requires AllSkipped(indent) && CleanPath(path) && KeyedTable(t)
    requires forall k :: k in keys ==> k in t.entries && Loose(t.entries[k])
    ensures Lexes(Directs(indent, path, t, keys), DirectToks(t, keys), NulFreeAt(t, keys))
    decreases t, 2, |keys|
  {
    if keys == [] {
      PrintsNothing();
    } else {
      var full := path + [keys[0]];
      var v := t.entries[keys[0]];
      CleanAppend(path, keys[0]);
      NulFreeHead(t, keys);
      LexesAssign(indent, full, v);
      LexesDirects(indent, path, t, keys[1..]);
      LexesBoth(KeyEqElement(indent, full, v), AssignToks(keys[0], v), NulFree(v),
                Directs(indent, path, t, keys[1..]), DirectToks(t, keys[1..]), NulFreeAt(t, keys[1..]));
    }
  }

  lemma {:induction false} LexesSubs(indent: string, written: bool, path: Key, t: Table, keys: seq<string>)
    requires AllSkipped(indent) && CleanPath(path) && KeyedTable(t)
    requires forall k :: k in keys ==> k in t.entries && (t.entries[k].Hash? || t.entries[k].Tables?)
    ensures Lexes(Subs(indent, written, path, t, keys), SubsToks(path, t, keys), NulFreeAt(t, keys))
    decreases t, 2, |keys|
  {
    if keys == [] {
      PrintsNothing();
    } else {
      var full := path + [keys[0]];
      var v := t.entries[keys[0]];
      CleanAppend(path, keys[0]);
      NulFreeHead(t, keys);
      assert KeyedValue(v);
      LexesSub(indent, written, full, v);
      var first := Sub(indent, written, full, v);
      LexesSubs(indent, written || first.value != "", path, t, keys[1..]);
      LexesBoth(first, SubToks(full, v), NulFree(v),
                Subs(indent, written || first.value != "", path, t, keys[1..]), SubsToks(path, t, keys[1..]),
                NulFreeAt(t, keys[1..]));
    }
  }

  lemma {:induction false} LexesSub(indent: string, written: bool, path: Key, v: Value)
    requires AllSkipped(indent) && path != [] && CleanPath(path) && KeyedValue(v) && (v.Hash? || v.Tables?)
    ensures Lexes(Sub(indent, written, path, v), SubToks(path, v), NulFree(v))
    decreases v, 4, 0
  {
    CleanValid(path);
    match v
    case Hash(s) =>
      var newline := if |path| == 1 then Newline(written) else "";
      PrintsHeader(indent, path, false, newline);
      LexesBody(indent, true, path, s);
      LexesBoth(Success((newline + IndentOf(indent, path)) + HeaderText(path, false)), HeaderToks(path, false), true,
                Body(indent, true, path, s), BodyToks(path, s), NulFreeTable(s));
    case Tables(ts) => LexesElems(indent, written, path, ts);
  }

  lemma NulFreeFirst(ts: seq<Table>)
    requires ts != []
    ensures NulFreeTables(ts) <==> NulFreeTable(ts[0]) && NulFreeTables(ts[1..])
  {
    assert ts == [ts[0]] + ts[1..];
  }

  lemma {:induction false} LexesElems(indent: string, written: bool, path: Key, ts: seq<Table>)
    requires AllSkipped(indent) && path != [] && CleanPath(path) && KeyedTables(ts)
    ensures Lexes(Elems(indent, written, path, ts), ElemsToks(path, ts), NulFreeTables(ts))
    decreases ts, 5, 0
  {
    if ts == [] {
      PrintsNothing();
    } else {
      CleanValid(path);
      NulFreeFirst(ts);
      var head := (Newline(written) + IndentOf(indent, path)) + HeaderText(path, true);
      PrintsHeader(indent, path, true, Newline(written));
      LexesBody(indent, true, path, ts[0]);
      LexesElems(indent, true, path, ts[1..]);
      var body := Body(indent, true, path, ts[0]);
      LexesBoth(Success(head), HeaderToks(path, true), true, body, BodyToks(path, ts[0]), NulFreeTable(ts[0]));
      LexesBoth(Elem(indent, written, path, ts[0]), HeaderToks(path, true) + BodyToks(path, ts[0]),
                NulFreeTable(ts[0]), Elems(indent, true, path, ts[1..]), ElemsToks(path, ts[1..]),
                NulFreeTables(ts[1..]));
    }
  }

  /** A clean table is printed to a text that is lexed into its statements. */
  lemma PrintsBody(indent: string, written: bool, path: Key, t: Table)
    requires AllSkipped(indent) && CleanPath(path) && CleanTable(t)
    ensures Prints(Body(indent, written, path, t), BodyToks(path, t))
  {
    CleanIff(t);
    LexesBody(indent, written, path, t);
  }

  // ---- parsing ----

  lemma {:induction false} PutSame(t: Table, p: Key, s: Table)
    requires Get(t, p) == At(s)
    ensures Put(t, p, s) == t
  {
    if p != [] {
      PutSame(Child(t, p[0]).table, p[1..], s);
      var c := Child(t, p[0]).table;
      match t.entries[p[0]]
      case Tables(ts) => assert ts[..|ts| - 1] + [c] == ts;
      case _ =>
    }
  }

  // The part of a table under some of its keys.
  function Restrict(t: Table, keys: set<string>): Table {
    Table(map k | k in t.entries && k in keys :: t.entries[k])
  }

  lemma RestrictMore(t: Table, keys: set<string>, k: string)
    requires k in t.entries
    ensures With(Restrict(t, keys), k, t.entries[k]) == Restrict(t, keys + {k})
  {
  }

  function Members(keys: seq<string>): set<string> {
    set k | k in keys
  }

  lemma MoreMembers(done: set<string>, keys: seq<string>)
    requires keys != []
    ensures done + {keys[0]} + Members(keys[1..]) == done + Members(keys)
  {
    assert keys == [keys[0]] + keys[1..];
  }

  lemma FewerKeys(done: set<string>, keys: seq<string>)
    requires keys != [] && StrictlySorted(keys) && done !! Members(keys)
    ensures StrictlySorted(keys[1..]) && done + {keys[0]} !! Members(keys[1..]) && keys[0] !in done
  {
    forall k | k in keys[1..]
      ensures k != keys[0] && k in keys
    {
      HeadNotInTail(keys, k);
    }
    assert keys[0] in Members(keys);
  }

  lemma ParseStep(st: PState, stmt: Stmt, toks: seq<Token>, rest: seq<Token>, st': PState)
    requires toks != [] && !toks[0].typ.ItemEOF? && !toks[0].typ.ItemError?
    requires ParseStmt(st.context, toks) == Ok(Read(stmt, [], rest)) && Exec(st, stmt) == Ok(st')
    ensures ParseFrom(st, toks) == ParseFrom(st', rest)
  {
  }

  lemma {:induction false} ParseDirects(st: PState, path: Key, t: Table, done: set<string>, keys: seq<string>,
      rest: seq<Token>)
    returns (st': PState)
    requires CleanTable(t) && StrictlySorted(keys) && done !! Members(keys)
    requires forall k :: k in keys ==> k in t.entries && Plain(t.entries[k])
    requires st.context == path && Explicit(st) && Get(st.mapping, path) == At(Restrict(t, done))
    ensures ParseFrom(st, DirectToks(t, keys) + rest) == ParseFrom(st', rest)
    ensures Explicit(st') && st'.mapping == Put(st.mapping, path, Restrict(t, done + Members(keys)))
    decreases |keys|
  {
    if keys == [] {
      st' := st;
      assert DirectToks(t, keys) + rest == rest;
      assert done + Members(keys) == done;
      PutSame(st.mapping, path, Restrict(t, done));
    } else {
      var k := keys[0];
      var v := t.entries[k];
      FewerKeys(done, keys);
      var toks := AssignToks(k, v) + (DirectToks(t, keys[1..]) + rest);
      assert DirectToks(t, keys) + rest == toks;
      ReadAssign(st.context, k, v, DirectToks(t, keys[1..]) + rest);
      var st1 := ExecAssign(st, Restrict(t, done), k, v);
      ParseStep(st, Assign(k, v, []), toks, DirectToks(t, keys[1..]) + rest, st1);
      RestrictMore(t, done, k);
      GetPut(st.mapping, path, Restrict(t, done + {k}));
      st' := ParseDirects(st1, path, t, done + {k}, keys[1..], rest);
      MoreMembers(done, keys);
      PutPut(st.mapping, path, Restrict(t, done + {k}), Restrict(t, done + Members(keys)));
    }
  }

  lemma SplitBody(path: Key, t: Table, rest: seq<Token>)
    ensures BodyToks(path, t) + rest == DirectToks(t, DirectKeys(t)) + (SubsToks(path, t, SubKeys(t)) + rest)
  {
  }

  lemma AllKeys(t: Table)
    requires CleanTable(t)
    ensures Restrict(t, {}) == EMPTY
    ensures Restrict(t, {} + Members(DirectKeys(t)) + Members(SubKeys(t))) == t
    ensures {} + Members(DirectKeys(t)) !! Members(SubKeys(t))
  {
    CleanKeys(t);
    forall k | k in t.entries
      ensures k in DirectKeys(t) || k in SubKeys(t)
    {
      assert CleanValue(t.entries[k]);
    }
  }

  lemma {:induction false} ParseBody(st: PState, path: Key, t: Table, rest: seq<Token>) returns (st': PState)
    requires CleanPath(path) && CleanTable(t)
    requires st.context == path && Explicit(st) && Get(st.mapping, path) == At(EMPTY)
    ensures ParseFrom(st, BodyToks(path, t) + rest) == ParseFrom(st', rest)
    ensures Explicit(st') && st'.mapping == Put(st.mapping, path, t)
    decreases t, 3, 0
  {
    CleanKeys(t);
    AllKeys(t);
    SplitBody(path, t, rest);
    var subs := SubsToks(path, t, SubKeys(t));
    var st1 := ParseDirects(st, path, t, {}, DirectKeys(t), subs + rest);
    var done := {} + Members(DirectKeys(t));
    GetPut(st.mapping, path, Restrict(t, done));
    st' := ParseSubs(st1, path, t, done, SubKeys(t), rest);
    PutPut(st.mapping, path, Restrict(t, done), t);
  }

  lemma {:induction false} ParseSubs(st: PState, path: Key, t: Table, done: set<string>, keys: seq<string>,
      rest: seq<Token>)
    returns (st': PState)
    requires CleanPath(path) && CleanTable(t) && StrictlySorted(keys) && done !! Members(keys)
    requires forall k :: k in keys ==> k in t.entries && (t.entries[k].Hash? || t.entries[k].Tables?)
    requires Explicit(st) && Get(st.mapping, path) == At(Restrict(t, done))
    ensures ParseFrom(st, SubsToks(path, t, keys) + rest) == ParseFrom(st', rest)
    ensures Explicit(st') && st'.mapping == Put(st.mapping, path, Restrict(t, done + Members(keys)))
    decreases t, 2, |keys|
  {
    if keys == [] {
      st' := st;
      assert SubsToks(path, t, keys) + rest == rest;
      assert done + Members(keys) == done;
      PutSame(st.mapping, path, Restrict(t, done));
    } else {
      var k := keys[0];
      var v := t.entries[k];
      assert CleanValue(v);
      FewerKeys(done, keys);
      var more := SubsToks(path, t, keys[1..]) + rest;
      assert SubsToks(path, t, keys) + rest == SubToks(path + [k], v) + more;
      var st1 := ParseSub(st, path, Restrict(t, done), k, v, more);
      RestrictMore(t, done, k);
      GetPut(st.mapping, path, Restrict(t, done + {k}));
      st' := ParseSubs(st1, path, t, done + {k}, keys[1..], rest);
      MoreMembers(done, keys);
      PutPut(st.mapping, path, Restrict(t, done + {k}), Restrict(t, done + Members(keys)));
    }
  }

  // After a header, the table that it leads to is empty.
  lemma FreshChild(m: Table, path: Key, next: Table, k: string)
    requires Get(m, path).At? && Child(next, k) == At(EMPTY)
    ensures Get(Put(m, path, next), path + [k]) == At(EMPTY)
  {
    GetPut(m, path, next);
    GetAppend(Put(m, path, next), path, k);
  }

  // Filling that table.
  lemma FilledChild(m: Table, path: Key, next: Table, k: string, s: Table)
    requires Get(m, path).At? && Child(next, k) == At(EMPTY)
    ensures Get(Put(m, path, next), path + [k]).At?
    ensures Put(Put(m, path, next), path + [k], s) == Put(m, path, PutChild(next, k, s))
  {
    FreshChild(m, path, next, k);
    GetPut(m, path, next);
    PutAppend(Put(m, path, next), path, k, s);
    PutPut(m, path, next, PutChild(next, k, s));
  }

  // What a header makes of the table above the one that it opens.
  function Opened(cur: Table, k: string, ofArray: bool): Table
    requires ofArray && k in cur.entries ==> cur.entries[k].Tables?
  {
    With(cur, k, if ofArray then Tables(TablesAt(cur, k) + [EMPTY]) else Hash(EMPTY))
  }

  lemma ParseHeader(st: PState, path: Key, cur: Table, k: string, ofArray: bool, rest: seq<Token>) returns (st': PState)
    requires CleanPath(path) && CleanKey(k)
    requires Explicit(st) && Get(st.mapping, path) == At(cur)
    requires if k in cur.entries then ofArray && cur.entries[k].Tables? else true
    ensures ParseFrom(st, HeaderToks(path + [k], ofArray) + rest) == ParseFrom(st', rest)
    ensures st'.context == path + [k] && Explicit(st')
    ensures st'.mapping == Put(st.mapping, path, Opened(cur, k, ofArray))
    ensures Get(st'.mapping, path + [k]) == At(EMPTY)
  {
    hide Join;
    var full := path + [k];
    CleanAppend(path, k);
    ReadPrintedHeader(st.context, full, ofArray, rest);
    if ofArray {
      st' := ExecArrayHeader(st, path, cur, k);
      ParseStep(st, ArrayHeader(full), HeaderToks(full, ofArray) + rest, rest, st');
    } else {
      st' := ExecHeader(st, path, cur, k);
      ParseStep(st, TableHeader(full), HeaderToks(full, ofArray) + rest, rest, st');
    }
    FreshChild(st.mapping, path, Opened(cur, k, ofArray), k);
  }

  // The statements of one printed table: its header and its body.
  lemma {:induction false} ParseSection(st: PState, path: Key, cur: Table, k: string, ofArray: bool, t: Table,
      rest: seq<Token>)
    returns (st': PState)
    requires CleanPath(path) && CleanKey(k) && CleanTable(t)
    requires Explicit(st) && Get(st.mapping, path) == At(cur)
    requires if k in cur.entries then ofArray && cur.entries[k].Tables? else true
    ensures ParseFrom(st, HeaderToks(path + [k], ofArray) + (BodyToks(path + [k], t) + rest)) == ParseFrom(st', rest)
    ensures Explicit(st') && st'.mapping == Put(st.mapping, path, PutChild(Opened(cur, k, ofArray), k, t))
    decreases t, 4, 0
  {
    hide HeaderToks, BodyToks, CleanTable, ParseFrom, Put, Get;
    CleanAppend(path, k);
    var st1 := ParseHeader(st, path, cur, k, ofArray, BodyToks(path + [k], t) + rest);
    st' := ParseBody(st1, path + [k], t, rest);
    FilledChild(st.mapping, path, Opened(cur, k, ofArray), k, t);
  }

  lemma FilledTable(cur: Table, k: string, t: Table)
    ensures PutChild(Opened(cur, k, false), k, t) == With(cur, k, Hash(t))
  {
  }

  lemma FilledElement(cur: Table, k: string, done: seq<Table>, t: Table)
    requires if done == [] then k !in cur.entries else k in cur.entries && cur.entries[k] == Tables(done)
    ensures PutChild(Opened(cur, k, true), k, t) == With(cur, k, Tables(done + [t]))
  {
    assert (done + [EMPTY])[..|done|] == done;
  }

  // A table or an array of tables at a key that is not there yet.
  lemma {:induction false} ParseSub(st: PState, path: Key, cur: Table, k: string, v: Value, rest: seq<Token>)
      returns (st': PState)
    requires CleanPath(path) && CleanKey(k) && CleanValue(v) && (v.Hash? || v.Tables?)
    requires Explicit(st) && Get(st.mapping, path) == At(cur) && k !in cur.entries
    ensures ParseFrom(st, SubToks(path + [k], v) + rest) == ParseFrom(st', rest)
    ensures Explicit(st') && st'.mapping == Put(st.mapping, path, With(cur, k, v))
    decreases v, 5, 0
  {
    if v.Hash? {
      Regroup(HeaderToks(path + [k], false), BodyToks(path + [k], v.table), rest);
      st' := ParseSection(st, path, cur, k, false, v.table, rest);
      FilledTable(cur, k, v.table);
    } else {
      st' := ParseElems(st, path, cur, k, [], v.ts, rest);
      assert [] + v.ts == v.ts;
    }
  }

  lemma {:induction false} ParseElems(st: PState, path: Key, cur: Table, k: string, done: seq<Table>, ts: seq<Table>,
      rest: seq<Token>)
    returns (st': PState)
    requires CleanPath(path) && CleanKey(k) && forall i :: 0 <= i < |ts| ==> CleanTable(ts[i])
    requires Explicit(st) && Get(st.mapping, path) == At(cur) && done + ts != []
    requires if done == [] then k !in cur.entries else k in cur.entries && cur.entries[k] == Tables(done)
    ensures ParseFrom(st, ElemsToks(path + [k], ts) + rest) == ParseFrom(st', rest)
    ensures Explicit(st') && st'.mapping == Put(st.mapping, path, With(cur, k, Tables(done + ts)))
    decreases ts, 5, 0
  {
    if ts == [] {
      st' := st;
      NoMoreElems(cur, k, done, rest);
      PutSame(st.mapping, path, cur);
    } else {
      var full := path + [k];
      var tail := ElemsToks(full, ts[1..]);
      Regroup(HeaderToks(full, true) + BodyToks(full, ts[0]), tail, rest);
      Regroup(HeaderToks(full, true), BodyToks(full, ts[0]), tail + rest);
      var st1 := ParseSection(st, path, cur, k, true, ts[0], tail + rest);
      FilledElement(cur, k, done, ts[0]);
      MoreElems(st.mapping, path, cur, k, done, ts);
      st' := ParseElems(st1, path, With(cur, k, Tables(done + [ts[0]])), k, done + [ts[0]], ts[1..], rest);
    }
  }

  lemma NoMoreElems(cur: Table, k: string, done: seq<Table>, rest: seq<Token>)
    requires k in cur.entries && cur.entries[k] == Tables(done)
    ensures [] + rest == rest && With(cur, k, Tables(done + [])) == cur
  {
    assert done + [] == done;
  }

  lemma MoreElems(m: Table, path: Key, cur: Table, k: string, done: seq<Table>, ts: seq<Table>)
    requires Get(m, path) == At(cur) && ts != []
    ensures var cur' := With(cur, k, Tables(done + [ts[0]]));
            && Get(Put(m, path, cur'), path) == At(cur')
            && Put(Put(m, path, cur'), path, With(cur', k, Tables(done + [ts[0]] + ts[1..])))
            == Put(m, path, With(cur, k, Tables(done + ts)))
  {
    var cur' := With(cur, k, Tables(done + [ts[0]]));
    GetPut(m, path, cur');
    assert done + [ts[0]] + ts[1..] == done + ts;
    assert With(cur', k, Tables(done + ts)) == With(cur, k, Tables(done + ts));
    PutPut(m, path, cur', With(cur, k, Tables(done + ts)));
  }

  // ---- the round trip ----

  lemma EndOfText(input: string, out: seq<Token>)
    ensures Reaches(input, Here(LexTop, Empty, |input|, out), Here(LexDone, Empty, |input|, out + [Token(ItemEOF, [])]))
  {
    assert input[|input|..|input|] == [];
    StepTo(input, Here(LexTop, Empty, |input|, out), Here(LexDone, Empty, |input|, out + [Token(ItemEOF, [])]));
  }

  lemma PrintedTokens(text: string, toks: seq<Token>)
    requires Prints(Success(text), toks)
    ensures LexAll(text) == toks + [Token(ItemEOF, [])]
  {
    var end := Here(LexDone, Empty, |text|, toks + [Token(ItemEOF, [])]);
    assert text[0..0 + |text|] == text;
    assert HasAt(text, 0, text);
    assert Reaches(text, Here(LexTop, Empty, 0, []), Here(LexTop, Empty, 0 + |text|, [] + toks));
    assert [] + toks == toks;
    EndOfText(text, toks);
    assert Reaches(text, LexSpec.INIT, end);
    ReachesSameEnd(text, LexSpec.INIT, end);
  }

  /** Printing a tree succeeds, and parsing the printed text gives the tree back. */
  lemma DocumentRoundTrip(indent: string, t: Table) returns (text: string, st: PState)
    requires AllSkipped(indent) && CleanTable(t)
    ensures Encode(indent, Hash(t)) == Success(text)
    ensures Parse(LexAll(text)) == Ok(st) && st.mapping == t
  {
    hide LexAll, Parse, Body, BodyToks, CleanTable, Prints, AllSkipped, Reaches;
    PrintsBody(indent, false, [], t);
    text := Body(indent, false, [], t).value;
    PrintedTokens(text, BodyToks([], t));
    st := ParseDocument(t);
  }

  lemma ParseDocument(t: Table) returns (st: PState)
    requires CleanTable(t)
    ensures Parse(BodyToks([], t) + [Token(ItemEOF, [])]) == Ok(st) && st.mapping == t
  {
    var end := [Token(ItemEOF, [])];
    st := ParseBody(ParserSpec.INIT, [], t, end);
    assert ParseFrom(st, end) == Ok(st);
  }

  // ---- the stages on their own ----

  /** A printed value, wherever it stands before a comma, a bracket or a newline, is lexed up to
      its end, and reading its tokens gives the value back. */
  lemma ValueRoundTrip(input: string, k: Stack, p: nat, v: Value, out: seq<Token>, context: Key, key: string,
      rest: seq<Token>)
    requires Plain(v) && Element(v).Success? && HasAt(input, p, Element(v).value)
    requires Ends(Peek(input, p + |Element(v).value|)) && TakesValue(PlaceOf(k))
    ensures k.Frame?
    ensures Reaches(input, Here(LexValue, k, p, out), Popped(k, p + |Element(v).value|, out + ValueToks(v)))
    ensures ValueToks(v) != []
    ensures ReadValue(context, key, ValueToks(v)[0], (ValueToks(v) + rest)[1..]) == Ok(Read(v, [], rest))
  {
    LexPlain(input, k, p, v, out);
    ParsePrinted.ReadPlain(context, key, v, rest);
  }

  /** A printed header is lexed and read as the header of the same path. */
  lemma HeaderRoundTrip(path: Key, ofArray: bool)
    requires path != [] && CleanPath(path)
    ensures LexAll(HeaderText(path, ofArray)) == HeaderToks(path, ofArray) + [Token(ItemEOF, [])]
    ensures ParseStmt([], LexAll(HeaderText(path, ofArray)))
         == Ok(Read(if ofArray then ArrayHeader(path) else TableHeader(path), [], [Token(ItemEOF, [])]))
  {
    var text, toks := HeaderText(path, ofArray), HeaderToks(path, ofArray);
    forall input: string, p: nat, out: seq<Token> | HasAt(input, p, text)
      ensures Reaches(input, Here(LexTop, Empty, p, out), Here(LexTop, Empty, p + |text|, out + toks))
    {
      LexHeader(input, p, path, ofArray, out);
    }
    hide LexAll;
    PrintedTokens(text, toks);
    ReadPrintedHeader([], path, ofArray, [Token(ItemEOF, [])]);
  }

  /** So headers of different paths are printed differently. */
  lemma HeadersDiffer(path: Key, path': Key, ofArray: bool)
    requires path != [] && CleanPath(path) && path' != [] && CleanPath(path')
    requires HeaderText(path, ofArray) == HeaderText(path', ofArray)
    ensures path == path'
  {
    HeaderRoundTrip(path, ofArray);
    HeaderRoundTrip(path', ofArray);
  }
}
