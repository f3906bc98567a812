/** What a document of the grammar means, and that parsing its text gives just this.

The meaning follows the tree of the document: blanks, line breaks and comments do not occur in it.
Numbers and strings have the values that the module Scalars gives to their text. */
module LayoutMeaning {
  import opened Tokens
  import opened Outcomes
  import opened LexRun
  import opened Trees
  import opened ParserSpec
  import opened Layout
  import opened LayoutStrings
  import opened LayoutItems
  import opened LayoutFind
  import opened EndOfInput

  // ---- meanings ----

  // A value or a part of one, and the keys that the inline tables in it record.
  datatype Meaning<+T> = Meaning(val: T, keys: seq<Key>)

  function MeansVal(context: Key, key: string, v: Val): Outcome<Meaning<Value>>
    requires LegalVal(v)
    decreases v
  {
    match v
    case Scalar(typ, txt) =>
      LegalPrimitive(typ, txt);
      var x :- ParserSpec.Scalar(Token(typ, txt));
      Ok(Meaning(x, []))
    case Arr(tail) =>
      var m :- MeansTail(context, key, tail);
      if Homogeneous(m.val) then Ok(Meaning(Array(m.val), m.keys)) else Rejected
    case Inline(pairs) =>
      var m :- MeansPairs(context + [key], pairs);
      Ok(Meaning(Hash(Table(Bind(map[], m.val))), m.keys))
  }

  function MeansTail(context: Key, key: string, t: Tail): Outcome<Meaning<seq<Value>>>
    requires LegalTail(t)
    decreases t
  {
    if t.Close? then Ok(Meaning([], [])) else
      var v :- MeansVal(context, key, t.val);
      if t.Last? then Ok(Meaning([v.val], v.keys)) else
        var m :- MeansTail(context, key, t.rest);
        Ok(Meaning([v.val] + m.val, v.keys + m.keys))
  }

  // The name and the value of a pair; the name is recorded behind the keys of the value.
  function MeansPair(context: Key, pair: Pair): Outcome<Meaning<(string, Value)>>
    requires LegalPair(pair)
    decreases pair
  {
    var name :- KeyString(NameToken(pair.name));
    var v :- MeansVal(context, name, pair.val);
    Ok(Meaning((name, v.val), v.keys))
  }

  function MeansPairs(context: Key, ps: Pairs): Outcome<Meaning<seq<(string, Value)>>>
    requires LegalPairs(ps)
    decreases ps
  {
    if ps.NoPair? then Ok(Meaning([], [])) else
      var p :- MeansPair(context, ps.pair);
      var keys := p.keys + [context + [p.val.0]];
      if ps.LastPair? then Ok(Meaning([p.val], keys)) else
        var m :- MeansPairs(context, ps.rest);
        Ok(Meaning([p.val] + m.val, keys + m.keys))
  }

  // The bindings, the later ones over the earlier ones.
  function Bind(hash: map<string, Value>, pairs: seq<(string, Value)>): map<string, Value>
    decreases |pairs|
  {
    if pairs == [] then hash else Bind(hash[pairs[0].0 := pairs[0].1], pairs[1..])
  }

  function MeansPath(path: Path): Outcome<Key> {
    var name :- KeyString(NameToken(path.name));
    if path.LastPiece? then Ok([name]) else
      var rest :- MeansPath(path.rest);
      Ok([name] + rest)
  }

  function MeansItem(context: Key, item: Entry): Outcome<Stmt>
    requires LegalItem(item)
  {
    match item
    case Header(ofArray, path) =>
      var names :- MeansPath(path);
      Ok(if ofArray then ArrayHeader(names) else TableHeader(names))
    case Assignment(pair) =>
      var m :- MeansPair(context, pair);
      Ok(Assign(m.val.0, m.val.1, m.keys))
  }

  // The items are performed in order.
  function Perform(st: PState, d: Doc): Outcome<PState>
    requires LegalDoc(d)
    decreases d
  {
    match d
    case Done => Ok(st)
    case LastRemark(_) => Ok(st)
    case LastItem(item, _, _) =>
      var stmt :- MeansItem(st.context, item);
      Exec(st, stmt)
    case Gap(_, rest) => Perform(st, rest)
    case Line(item, _, _, rest) =>
      var stmt :- MeansItem(st.context, item);
      var st1 :- Exec(st, stmt);
      Perform(st1, rest)
  }

  lemma LegalPrimitive(typ: TokenType, txt: string)
    requires LegalScalar(typ, txt)
    ensures Grammar.IsPrimitive(typ)
  {
  }

  // ---- reading ----

  // The outcome of reading what has the meaning, with the tokens rest behind it.
  function Reading<T>(m: Outcome<Meaning<T>>, rest: seq<Token>): Outcome<Read<T>> {
    match m
    case Ok(x) => Ok(Read(x.val, x.keys, rest))
    case Rejected => Rejected
    case Bug(site) => Bug(site)
  }

  lemma Joined(a: seq<Token>, b: seq<Token>, rest: seq<Token>)
    ensures a + b + rest == a + (b + rest)
  {
  }

  lemma Headed(t: Token, toks: seq<Token>)
    ensures ([t] + toks)[0] == t && ([t] + toks)[1..] == toks
  {
  }

  // The token at which an element of an array begins.
  predicate BeginsVal(t: Token) {
    !t.typ.ItemArrayEnd? && !t.typ.ItemCommentStart? && !t.typ.ItemError?
  }

  lemma {:induction false} ReadsVal(context: Key, key: string, v: Val, rest: seq<Token>)
    requires LegalVal(v)
    ensures var toks := ValToks(v) + rest;
            && toks != [] && BeginsVal(toks[0])
            && ReadValue(context, key, toks[0], toks[1..]) == Reading(MeansVal(context, key, v), rest)
    decreases v, 1
  {
    match v
    case Scalar(typ, txt) =>
      LegalPrimitive(typ, txt);
      Headed(Token(typ, txt), rest);
    case Arr(tail) =>
      var start := Token(ItemArray, []);
      Joined([start], TailToks(tail), rest);
      Headed(start, TailToks(tail) + rest);
      ReadsTail(context, key, [], [], tail, rest);
      ElementsFirst(MeansTail(context, key, tail));
    case Inline(pairs) =>
      var start := Token(ItemInlineTableStart, []);
      Joined([start], PairsToks(pairs), rest);
      Headed(start, PairsToks(pairs) + rest);
      ReadsPairs(context + [key], map[], [], pairs, rest);
      var m := MeansPairs(context + [key], pairs);
      assert m.Ok? ==> [] + m.value.keys == m.value.keys;
  }

  lemma ElementsFirst(m: Outcome<Meaning<seq<Value>>>)
    ensures Elements([], [], m) == m
  {
    if m.Ok? {
      assert [] + m.value.val == m.value.val && [] + m.value.keys == m.value.keys;
    }
  }

  // A gap is passed over.
  lemma {:induction false} ReadsGap(context: Key, key: string, vs: seq<Value>, keys: seq<Key>, gap: seq<Piece>,
      rest: seq<Token>)
    ensures ReadElements(context, key, vs, keys, GapToks(gap) + rest) == ReadElements(context, key, vs, keys, rest)
    decreases |gap|
  {
    if gap == [] {
      assert GapToks(gap) + rest == rest;
    } else {
      var more := GapToks(gap[1..]) + rest;
      Joined(PieceToks(gap[0]), GapToks(gap[1..]), rest);
      ReadsGap(context, key, vs, keys, gap[1..], rest);
      if gap[0].Space? {
        assert [] + more == more;
      } else {
        var toks := RemarkToks(gap[0].txt) + more;
        assert toks[1..][0] == Token(ItemText, gap[0].txt) && toks[2..] == more;
      }
    }
  }

  // The meaning of further elements behind those read.
  function Elements(vs: seq<Value>, keys: seq<Key>, m: Outcome<Meaning<seq<Value>>>): Outcome<Meaning<seq<Value>>> {
    match m
    case Ok(x) => Ok(Meaning(vs + x.val, keys + x.keys))
    case failed => failed
  }

  lemma {:induction false} ReadsTail(context: Key, key: string, vs: seq<Value>, keys: seq<Key>, t: Tail,
      rest: seq<Token>)
    requires LegalTail(t)
    ensures ReadElements(context, key, vs, keys, TailToks(t) + rest)
         == Reading(Elements(vs, keys, MeansTail(context, key, t)), rest)
    decreases t, 0
  {
    hide ValToks, LegalVal, GapToks, Homogeneous;
    var end := [Token(ItemArrayEnd, [])];
    if t.Close? {
      Joined(GapToks(t.gap), end, rest);
      ReadsGap(context, key, vs, keys, t.gap, end + rest);
      Headed(end[0], rest);
      assert vs + [] == vs && keys + [] == keys;
    } else {
      var after := if t.Last? then end else TailToks(t.rest);
      var more := GapToks(t.after) + (after + rest);
      TailJoined(t, rest);
      ReadsGap(context, key, vs, keys, t.gap, ValToks(t.val) + more);
      ReadsVal(context, key, t.val, more);
      var m := MeansVal(context, key, t.val);
      if m.Ok? {
        var vs1, keys1 := vs + [m.value.val], keys + m.value.keys;
        ReadsGap(context, key, vs1, keys1, t.after, after + rest);
        if t.Last? {
          Headed(end[0], rest);
        } else {
          ReadsTail(context, key, vs1, keys1, t.rest, rest);
          ElementsJoined(context, key, vs, keys, t);
        }
      }
    }
  }

  lemma TailJoined(t: Tail, rest: seq<Token>)
    requires !t.Close?
    ensures var after := if t.Last? then [Token(ItemArrayEnd, [])] else TailToks(t.rest);
            TailToks(t) + rest == GapToks(t.gap) + (ValToks(t.val) + (GapToks(t.after) + (after + rest)))
  {
    hide GapToks, ValToks;
    var after := if t.Last? then [Token(ItemArrayEnd, [])] else TailToks(t.rest);
    Joined(GapToks(t.gap), ValToks(t.val) + (GapToks(t.after) + after), rest);
    Joined(ValToks(t.val), GapToks(t.after) + after, rest);
    Joined(GapToks(t.after), after, rest);
  }

  lemma ElementsJoined(context: Key, key: string, vs: seq<Value>, keys: seq<Key>, t: Tail)
    requires t.More? && LegalTail(t) && MeansVal(context, key, t.val).Ok?
    ensures var m := MeansVal(context, key, t.val).value;
            Elements(vs + [m.val], keys + m.keys, MeansTail(context, key, t.rest))
            == Elements(vs, keys, MeansTail(context, key, t))
  {
    hide MeansVal;
    var m, r := MeansVal(context, key, t.val).value, MeansTail(context, key, t.rest);
    if r.Ok? {
      assert vs + [m.val] + r.value.val == vs + ([m.val] + r.value.val);
      assert keys + m.keys + r.value.keys == keys + (m.keys + r.value.keys);
    }
  }

  lemma {:induction false} ReadsPair(context: Key, pair: Pair, rest: seq<Token>)
    requires LegalPair(pair)
    ensures var toks := PairToks(pair) + rest;
            && toks != [] && toks[0].typ.ItemKeyStart?
            && ReadPair(context, toks[1..]) == Reading(MeansPair(context, pair), rest)
    decreases pair, 0
  {
    hide ValToks, LegalVal, KeyString, LegalString, MeansVal;
    var start, name := Token(ItemKeyStart, []), NameToken(pair.name);
    var more := ValToks(pair.val) + rest;
    assert PairToks(pair) == [start] + ([name] + ValToks(pair.val));
    Joined([start], [name] + ValToks(pair.val), rest);
    Joined([name], ValToks(pair.val), rest);
    Headed(start, [name] + more);
    Headed(name, more);
    NameNoError(pair.name);
    if KeyString(name).Ok? {
      ReadsVal(context, KeyString(name).value, pair.val, more[|ValToks(pair.val)|..]);
      assert more[|ValToks(pair.val)|..] == rest;
      assert ([name] + more)[2..] == more[1..];
    }
  }

  lemma NameNoError(name: Name)
    requires LegalName(name)
    ensures !name.typ.ItemError? && Grammar.IsName(name.typ)
    ensures name.typ != ItemTableEnd && name.typ != ItemArrayTableEnd
  {
  }

  // The outcome of reading further pairs into a table that has some already.
  function Bound(hash: map<string, Value>, keys: seq<Key>, m: Outcome<Meaning<seq<(string, Value)>>>):
      Outcome<Meaning<map<string, Value>>>
  {
    match m
    case Ok(x) => Ok(Meaning(Bind(hash, x.val), keys + x.keys))
    case Rejected => Rejected
    case Bug(site) => Bug(site)
  }

  lemma {:induction false} ReadsPairs(context: Key, hash: map<string, Value>, keys: seq<Key>, ps: Pairs,
      rest: seq<Token>)
    requires LegalPairs(ps)
    ensures ReadPairs(context, hash, keys, PairsToks(ps) + rest)
         == Reading(Bound(hash, keys, MeansPairs(context, ps)), rest)
    decreases ps, 0
  {
    hide PairToks, LegalPair, MeansPair;
    var end := [Token(ItemInlineTableEnd, [])];
    if ps.NoPair? {
      Headed(end[0], rest);
      assert keys + [] == keys;
    } else {
      var after := if ps.LastPair? then end else PairsToks(ps.rest);
      Joined(PairToks(ps.pair), after, rest);
      ReadsPair(context, ps.pair, after + rest);
      var m := MeansPair(context, ps.pair);
      if m.Ok? {
        var hash1 := hash[m.value.val.0 := m.value.val.1];
        var keys1 := keys + m.value.keys + [context + [m.value.val.0]];
        if ps.LastPair? {
          Headed(end[0], rest);
          assert Bind(hash, [m.value.val]) == hash1;
          assert keys + (m.value.keys + [context + [m.value.val.0]]) == keys1;
        } else {
          ReadsPairs(context, hash1, keys1, ps.rest, rest);
          PairsJoined(context, hash, keys, ps);
        }
      }
    }
  }

  lemma PairsJoined(context: Key, hash: map<string, Value>, keys: seq<Key>, ps: Pairs)
    requires ps.MorePairs? && LegalPairs(ps) && MeansPair(context, ps.pair).Ok?
    ensures var m := MeansPair(context, ps.pair).value;
            Bound(hash[m.val.0 := m.val.1], keys + m.keys + [context + [m.val.0]], MeansPairs(context, ps.rest))
            == Bound(hash, keys, MeansPairs(context, ps))
  {
    hide MeansPair;
    var m, r := MeansPair(context, ps.pair).value, MeansPairs(context, ps.rest);
    if r.Ok? {
      assert ([m.val] + r.value.val)[1..] == r.value.val;
      var last := [context + [m.val.0]];
      assert keys + m.keys + last + r.value.keys == keys + (m.keys + last + r.value.keys);
    }
  }

  // ---- items and documents ----

  lemma {:induction false} ReadsPath(ofArray: bool, done: Key, path: Path, rest: seq<Token>)
    requires LegalPath(path)
    ensures var end := CloseToken(ofArray);
            ReadHeader(end.typ, done, PathTokens(path) + ([end] + rest))
            == match MeansPath(path)
               case Ok(names) => Ok(Read(done + names, [], rest))
               case Rejected => Rejected
               case Bug(site) => Bug(site)
    decreases path
  {
    hide KeyString, LegalName;
    var end, name := CloseToken(ofArray), NameToken(path.name);
    NameNoError(path.name);
    var more := if path.LastPiece? then [end] + rest else PathTokens(path.rest) + ([end] + rest);
    if path.MorePieces? {
      Joined([name], PathTokens(path.rest), [end] + rest);
    }
    assert PathTokens(path) + ([end] + rest) == [name] + more;
    Headed(name, more);
    assert !name.typ.ItemEOF? by {
      hide LegalPath;
      NameNoError(path.name);
    }
    if KeyString(name).Ok? {
      var done1 := done + [KeyString(name).value];
      if path.LastPiece? {
        Headed(end, rest);
      } else {
        ReadsPath(ofArray, done1, path.rest, rest);
        var m := MeansPath(path.rest);
        assert m.Ok? ==> done1 + m.value == done + ([KeyString(name).value] + m.value);
      }
    }
  }

  lemma ReadsItem(context: Key, item: Entry, rest: seq<Token>)
    requires LegalItem(item)
    ensures var toks := ItemToks(item) + rest;
            && toks != [] && !toks[0].typ.ItemEOF? && !toks[0].typ.ItemError?
            && ParseStmt(context, toks)
               == match MeansItem(context, item)
                  case Ok(stmt) => Ok(Read(stmt, [], rest))
                  case Rejected => Rejected
                  case Bug(site) => Bug(site)
  {
    hide KeyString, PairToks, LegalPair, MeansPair, PathTokens, LegalPath, MeansPath;
    match item
    case Header(ofArray, path) =>
      var start, end := OpenToken(ofArray), CloseToken(ofArray);
      Joined([start], PathTokens(path) + [end], rest);
      Joined(PathTokens(path), [end], rest);
      Headed(start, PathTokens(path) + ([end] + rest));
      ReadsPath(ofArray, [], path, rest);
      assert MeansPath(path).Ok? ==> [] + MeansPath(path).value == MeansPath(path).value;
    case Assignment(pair) =>
      ReadsPair(context, pair, rest);
  }

  lemma ParsesRemark(st: PState, txt: string, rest: seq<Token>)
    ensures ParseFrom(st, RemarkToks(txt) + rest) == ParseFrom(st, rest)
  {
    var toks := RemarkToks(txt) + rest;
    assert toks[1..][0] == Token(ItemText, txt) && toks[2..] == rest;
  }

  lemma ParsesPiece(st: PState, piece: Piece, rest: seq<Token>)
    ensures ParseFrom(st, PieceToks(piece) + rest) == ParseFrom(st, rest)
  {
    if piece.Space? {
      assert [] + rest == rest;
    } else {
      ParsesRemark(st, piece.txt, rest);
    }
  }

  // Performing a statement, and parsing on.
  function Onward(st: PState, m: Outcome<Stmt>, rest: seq<Token>): Outcome<PState> {
    var stmt :- m;
    var st1 :- Exec(st, stmt);
    ParseFrom(st1, rest)
  }

  lemma ParsesItem(st: PState, item: Entry, rest: seq<Token>)
    requires LegalItem(item)
    ensures ParseFrom(st, ItemToks(item) + rest) == Onward(st, MeansItem(st.context, item), rest)
  {
    hide ItemToks, LegalItem, MeansItem, ParseStmt, Exec;
    ReadsItem(st.context, item, rest);
  }

  lemma {:induction false} ParsesDoc(st: PState, d: Doc)
    requires LegalDoc(d)
    ensures ParseFrom(st, DocToks(d)) == Perform(st, d)
    decreases d
  {
    hide ItemToks, PieceToks, RemarkToks, LegalItem, MeansItem, Exec;
    match d
    case Done =>
    case LastRemark(txt) => ParsesRemark(st, txt, [Token(ItemEOF, [])]);
    case LastItem(item, after, end) =>
      ParsesItem(st, item, EndToks(after, end));
      var m := MeansItem(st.context, item);
      if m.Ok? && Exec(st, m.value).Ok? {
        ParsesEnd(Exec(st, m.value).value, after, end);
      }
    case Gap(piece, rest) =>
      ParsesPiece(st, piece, DocToks(rest));
      ParsesDoc(st, rest);
    case Line(item, _, piece, rest) =>
      ParsesItem(st, item, PieceToks(piece) + DocToks(rest));
      var m := MeansItem(st.context, item);
      if m.Ok? && Exec(st, m.value).Ok? {
        ParsesPiece(Exec(st, m.value).value, piece, DocToks(rest));
        ParsesDoc(Exec(st, m.value).value, rest);
      }
  }

  lemma ParsesEnd(st: PState, after: string, end: End)
    ensures ParseFrom(st, EndToks(after, end)) == Ok(st)
  {
    if end.AtRemark? {
      ParsesRemark(st, end.txt, [Token(ItemEOF, [])]);
    }
  }

  /** Lexing and parsing the text of a document gives what the document means. */
  lemma DocMeans(d: Doc)
    requires LegalDoc(d)
    ensures Parse(LexAll(DocText(d))) == Perform(INIT, d)
  {
    hide LexAll;
    DocTokens(d);
    ParsesDoc(INIT, d);
  }

  // ---- what is accepted ----

  ghost predicate HasMeaning(input: string) {
    exists d :: LegalDoc(d) && DocText(d) == input && Perform(INIT, d).Ok?
  }

  lemma ErrorsRejected(input: string)
    requires !EndsAtEOF(LexAll(input))
    ensures !Parse(LexAll(input)).Ok?
  {
    StackDiscipline(input);
    NotAccepted(INIT, LexAll(input));
  }

  /** For every input: it is accepted exactly if it is the text of a document that has a meaning,
      and the tree is this meaning. */
  lemma TextAccepted(input: string)
    ensures Parse(LexAll(input)).Ok? <==> HasMeaning(input)
    ensures forall d :: LegalDoc(d) && DocText(d) == input ==> Parse(LexAll(input)) == Perform(INIT, d)
  {
    hide LexAll, Parse, Perform, EndsAtEOF;
    LexesExactly(input);
    forall d | LegalDoc(d) && DocText(d) == input
      ensures Parse(LexAll(input)) == Perform(INIT, d)
    {
      DocMeans(d);
    }
    if !EndsAtEOF(LexAll(input)) {
      ErrorsRejected(input);
    }
  }
}
