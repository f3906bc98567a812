/** Blanks, line breaks and comments have no effect: a document without them parses alike. */
module LayoutIgnored {
  import opened LexRun
  import opened Trees
  import opened ParserSpec
  import opened Layout
  import opened LayoutMeaning

  // ---- documents without layout ----

  function BareVal(v: Val): (w: Val)
    ensures LegalVal(v) ==> LegalVal(w)
    decreases v
  {
    match v
    case Scalar(_, _) => v
    case Arr(tail) => Arr(BareTail(tail))
    case Inline(pairs) => Inline(BarePairs(pairs))
  }

  function BareTail(t: Tail): (u: Tail)
    ensures LegalTail(t) ==> LegalTail(u)
    decreases t
  {
    match t
    case Close(_) => Close([])
    case Last(_, v, _) => Last([], BareVal(v), [])
    case More(_, v, _, rest) => More([], BareVal(v), [], BareTail(rest))
  }

  function BarePair(pair: Pair): (bare: Pair)
    ensures LegalPair(pair) ==> LegalPair(bare)
    decreases pair
  {
    Pair(pair.name, "", "", BareVal(pair.val))
  }

  function BarePairs(ps: Pairs): (qs: Pairs)
    ensures LegalPairs(ps) ==> LegalPairs(qs)
    decreases ps
  {
    match ps
    case NoPair(_) => NoPair("")
    case LastPair(_, pair, _) => LastPair("", BarePair(pair), "")
    case MorePairs(_, pair, _, rest) => MorePairs("", BarePair(pair), "", BarePairs(rest))
  }

  function BarePath(path: Path): (bare: Path)
    ensures LegalPath(path) ==> LegalPath(bare)
    decreases path
  {
    match path
    case LastPiece(_, name, _) => LastPiece("", name, "")
    case MorePieces(_, name, _, rest) => MorePieces("", name, "", BarePath(rest))
  }

  function BareItem(item: Entry): (bare: Entry)
    ensures LegalItem(item) ==> LegalItem(bare)
  {
    match item
    case Header(ofArray, path) => Header(ofArray, BarePath(path))
    case Assignment(pair) => Assignment(BarePair(pair))
  }

  // One item on every line, and nothing else.
  function BareDoc(d: Doc): (bare: Doc)
    ensures LegalDoc(d) ==> LegalDoc(bare)
    decreases d
  {
    match d
    case Done => Done
    case LastRemark(_) => Done
    case LastItem(item, _, _) => LastItem(BareItem(item), "", AtEnd)
    case Gap(_, rest) => BareDoc(rest)
    case Line(item, _, _, rest) => Line(BareItem(item), "", Space('\n'), BareDoc(rest))
  }

  // ---- the same meaning ----

  lemma {:induction false} SameVal(context: Key, key: string, v: Val)
    requires LegalVal(v)
    ensures MeansVal(context, key, BareVal(v)) == MeansVal(context, key, v)
    decreases v
  {
    match v
    case Scalar(_, _) =>
    case Arr(tail) => SameTail(context, key, tail);
    case Inline(pairs) => SamePairs(context + [key], pairs);
  }

  lemma {:induction false} SameTail(context: Key, key: string, t: Tail)
    requires LegalTail(t)
    ensures MeansTail(context, key, BareTail(t)) == MeansTail(context, key, t)
    decreases t
  {
    if !t.Close? {
      SameVal(context, key, t.val);
      if t.More? {
        SameTail(context, key, t.rest);
      }
    }
  }

  lemma {:induction false} SamePair(context: Key, pair: Pair)
    requires LegalPair(pair)
    ensures MeansPair(context, BarePair(pair)) == MeansPair(context, pair)
    decreases pair
  {
    var name := KeyString(NameToken(pair.name));
    if name.Ok? {
      SameVal(context, name.value, pair.val);
    }
  }

  lemma {:induction false} SamePairs(context: Key, ps: Pairs)
    requires LegalPairs(ps)
    ensures MeansPairs(context, BarePairs(ps)) == MeansPairs(context, ps)
    decreases ps
  {
    if !ps.NoPair? {
      SamePair(context, ps.pair);
      if ps.MorePairs? {
        SamePairs(context, ps.rest);
      }
    }
  }

  lemma {:induction false} SamePath(path: Path)
    ensures MeansPath(BarePath(path)) == MeansPath(path)
    decreases path
  {
    if path.MorePieces? {
      SamePath(path.rest);
    }
  }

  lemma SameItem(context: Key, item: Entry)
    requires LegalItem(item)
    ensures MeansItem(context, BareItem(item)) == MeansItem(context, item)
  {
    match item
    case Header(_, path) => SamePath(path);
    case Assignment(pair) => SamePair(context, pair);
  }

  lemma {:induction false} SameDoc(st: PState, d: Doc)
    requires LegalDoc(d)
    ensures Perform(st, BareDoc(d)) == Perform(st, d)
    decreases d
  {
    hide LegalItem, MeansItem, BareItem, Exec;
    match d
    case Done =>
    case LastRemark(_) =>
    case LastItem(item, _, _) => SameItem(st.context, item);
    case Gap(_, rest) => SameDoc(st, rest);
    case Line(item, _, _, rest) =>
      SameItem(st.context, item);
      var m := MeansItem(st.context, item);
      if m.Ok? && Exec(st, m.value).Ok? {
        SameDoc(Exec(st, m.value).value, rest);
      }
  }

  /** A document parses as it does without its blanks, its comments and all line breaks but those
      between its items. */
  lemma LayoutIgnored(d: Doc)
    requires LegalDoc(d)
    ensures Parse(LexAll(DocText(d))) == Parse(LexAll(DocText(BareDoc(d))))
  {
    hide LexAll, Parse, Perform;
    DocMeans(d);
    DocMeans(BareDoc(d));
    SameDoc(INIT, d);
  }
}
