/** A document is accepted only at the end of the input: the parser drops tokens from the front,
and stops at EOF. */
module EndOfInput {
  import opened Tokens
  import opened LexRun
  import opened Outcomes
  import opened Trees
  import opened ParserSpec
  import opened LexPrinted
  import opened LexNul

  predicate NoEnd(toks: seq<Token>) {
    forall i :: 0 <= i < |toks| ==> !toks[i].typ.ItemEOF?
  }

  predicate EndsLater<T>(r: Outcome<Read<T>>) {
    r.Ok? ==> NoEnd(r.value.rest)
  }

  lemma {:induction false} ValueNoEnd(context: Key, key: string, t: Token, toks: seq<Token>)
    requires NoEnd(toks)
    ensures EndsLater(ReadValue(context, key, t, toks))
    decreases |toks|, 1
  {
    if t.typ.ItemArray? {
      ElementsNoEnd(context, key, [], [], toks);
    } else if t.typ.ItemInlineTableStart? {
      PairsNoEnd(context + [key], map[], [], toks);
    }
  }

  lemma {:induction false} ElementsNoEnd(context: Key, key: string, vs: seq<Value>, keys: seq<Key>, toks: seq<Token>)
    requires NoEnd(toks)
    ensures EndsLater(ReadElements(context, key, vs, keys, toks))
    decreases |toks|, 0
  {
    if toks != [] {
      var t := toks[0];
      if t.typ.ItemCommentStart? {
        if |toks| >= 2 {
          ElementsNoEnd(context, key, vs, keys, toks[2..]);
        }
      } else if !t.typ.ItemArrayEnd? {
        ValueNoEnd(context, key, t, toks[1..]);
        var r := ReadValue(context, key, t, toks[1..]);
        if r.Ok? {
          ElementsNoEnd(context, key, vs + [r.value.val], keys + r.value.keys, r.value.rest);
        }
      }
    }
  }

  lemma {:induction false} PairsNoEnd(context: Key, hash: map<string, Value>, keys: seq<Key>, toks: seq<Token>)
    requires NoEnd(toks)
    ensures EndsLater(ReadPairs(context, hash, keys, toks))
    decreases |toks|, 0
  {
    if toks != [] && toks[0].typ.ItemKeyStart? {
      PairNoEnd(context, toks[1..]);
      var r := ReadPair(context, toks[1..]);
      if r.Ok? {
        var (name, v) := r.value.val;
        PairsNoEnd(context, hash[name := v], keys + r.value.keys + [context + [name]], r.value.rest);
      }
    }
  }

  lemma {:induction false} PairNoEnd(context: Key, toks: seq<Token>)
    requires NoEnd(toks)
    ensures EndsLater(ReadPair(context, toks))
    decreases |toks|, 2
  {
    if |toks| >= 2 && KeyString(toks[0]).Ok? {
      ValueNoEnd(context, KeyString(toks[0]).value, toks[1], toks[2..]);
    }
  }

  lemma {:induction false} HeaderNoEnd(end: TokenType, path: Key, toks: seq<Token>)
    requires NoEnd(toks)
    ensures EndsLater(ReadHeader(end, path, toks))
    decreases |toks|
  {
    if toks != [] && toks[0].typ != end && KeyString(toks[0]).Ok? {
      HeaderNoEnd(end, path + [KeyString(toks[0]).value], toks[1..]);
    }
  }

  lemma StmtNoEnd(context: Key, toks: seq<Token>)
    requires NoEnd(toks)
    ensures EndsLater(ParseStmt(context, toks))
  {
    if toks != [] {
      HeaderNoEnd(ItemTableEnd, [], toks[1..]);
      HeaderNoEnd(ItemArrayTableEnd, [], toks[1..]);
      PairNoEnd(context, toks[1..]);
    }
  }

  lemma {:induction false} NotAccepted(st: PState, toks: seq<Token>)
    requires NoEnd(toks)
    ensures !ParseFrom(st, toks).Ok?
    decreases |toks|
  {
    StmtNoEnd(st.context, toks);
    var r := ParseStmt(st.context, toks);
    if r.Ok? && Exec(st, r.value.val).Ok? {
      NotAccepted(Exec(st, r.value.val).value, r.value.rest);
    }
  }

  /** A text in which the lexer stops with an error is not accepted. */
  lemma ErrorNotAccepted(text: string)
    requires Halts(text, LexSpec.INIT)
    ensures !Parse(LexAll(text)).Ok?
  {
    hide Reaches, ParseFrom, LexSpec.Step;
    var d, out :| Reaches(text, LexSpec.INIT, d) && Failed(d, out);
    ReachesSameEnd(text, LexSpec.INIT, d);
    StackDiscipline(text);
    assert d.out == LexAll(text);
    NotAccepted(ParserSpec.INIT, LexAll(text));
  }
}
