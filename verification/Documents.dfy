/** Whole documents: the statements of a token list, and the closed form of what is accepted. */
module Documents {
  import opened Tokens
  import opened Outcomes
  import opened Trees
  import opened ParserSpec
  import opened Acceptance

  // ---- documents as statement lists ----

  // The statements that can be read from a token list, and how the reading ends; which keys an
  // inline table records depends on the header above it.
  function ReadAll(context: Key, toks: seq<Token>): (seq<Stmt>, Outcome<()>)
    decreases |toks|
  {
    var t := Next(toks);
    if !t.Ok? then ([], t.PropagateFailure())
    else if t.value.typ.ItemEOF? then ([], Ok(()))
    else
      var r := ParseStmt(context, toks);
      if !r.Ok? then ([], r.PropagateFailure()) else
        var (stmts, end) := ReadAll(Moved(context, r.value.val), r.value.rest);
        ([r.value.val] + stmts, end)
  }

  // The statements of a token list that can be read to its end.
  function Statements(context: Key, toks: seq<Token>): Outcome<seq<Stmt>> {
    var (stmts, end) := ReadAll(context, toks);
    if end.Ok? then Ok(stmts) else end.PropagateFailure()
  }

  // The current table after a statement.
  function Moved(context: Key, s: Stmt): Key {
    match s
    case TableHeader(path) => path
    case ArrayHeader(path) => path
    case _ => context
  }

  function ExecAll(st: PState, stmts: seq<Stmt>): Outcome<PState>
    decreases |stmts|
  {
    if stmts == [] then Ok(st) else
      var st1 :- Exec(st, stmts[0]);
      ExecAll(st1, stmts[1..])
  }

  lemma ExecMoves(st: PState, s: Stmt)
    ensures Exec(st, s).Ok? ==> Exec(st, s).value.context == Moved(st.context, s)
  {
  }

  /** Parsing is reading statements and performing them, interleaved: it ends with the first
      statement that fails, or as the reading ends. */
  lemma {:induction false} ParseFactors(st: PState, toks: seq<Token>)
    ensures var (stmts, end) := ReadAll(st.context, toks);
            ParseFrom(st, toks) == if ExecAll(st, stmts).Ok? && !end.Ok? then end.PropagateFailure()
                else ExecAll(st, stmts)
    decreases |toks|
  {
    var t := Next(toks);
    if t.Ok? && !t.value.typ.ItemEOF? {
      var r := ParseStmt(st.context, toks);
      if r.Ok? {
        var st1 := Exec(st, r.value.val);
        ExecMoves(st, r.value.val);
        var stmts := ReadAll(Moved(st.context, r.value.val), r.value.rest).0;
        assert ([r.value.val] + stmts)[1..] == stmts;
        if st1.Ok? {
          ParseFactors(st1.value, r.value.rest);
        }
      }
    }
  }

  // ---- the closed form ----

  predicate PlainDocument(stmts: seq<Stmt>) {
    forall i :: 0 <= i < |stmts| ==> PlainStmt(stmts[i])
  }

  // The table that statement i stands under.
  function ContextAt(stmts: seq<Stmt>, i: nat): Key
    requires i <= |stmts|
  {
    if i == 0 then [] else Moved(ContextAt(stmts, i - 1), stmts[i - 1])
  }

  predicate Names(s: Stmt) {
    s.TableHeader? || s.Assign?
  }

  // The full path that statement i names.
  function Full(stmts: seq<Stmt>, i: nat): Key
    requires i < |stmts| && Names(stmts[i])
  {
    match stmts[i]
    case TableHeader(path) => path
    case Assign(k, _, _) => ContextAt(stmts, i) + [k]
  }

  // Statement i assigns to a table that an earlier header implies; the value is dropped.
  predicate Dropped(stmts: seq<Stmt>, i: nat)
    requires i < |stmts| && Names(stmts[i])
  {
    exists h :: 0 <= h < i && stmts[h].TableHeader? && Full(stmts, i) <= stmts[h].path
  }

  // Statement j repeats the path of statement i, or would have to walk through its value.
  predicate Clash(stmts: seq<Stmt>, i: nat, j: nat)
    requires i < j < |stmts|
  {
    && Names(stmts[i]) && Names(stmts[j])
    && (|| Full(stmts, i) == Full(stmts, j)
        || (stmts[i].Assign? && stmts[j].TableHeader? && Full(stmts, i) <= stmts[j].path && !Dropped(stmts, i)))
  }

  predicate Acceptable(stmts: seq<Stmt>, n: nat)
    requires n <= |stmts|
  {
    forall i, j :: 0 <= i < j < n ==> !Clash(stmts, i, j)
  }

  function Fold(stmts: seq<Stmt>, n: nat): Doc
    requires n <= |stmts|
  {
    if n == 0 then Doc({}, {}, map[], []) else After(Fold(stmts, n - 1), stmts[n - 1])
  }

  predicate HeaderBefore(stmts: seq<Stmt>, n: nat, p: Key)
    requires n <= |stmts|
  {
    exists h :: 0 <= h < n && stmts[h].TableHeader? && stmts[h].path == p
  }

  predicate NamedBefore(stmts: seq<Stmt>, n: nat, p: Key)
    requires n <= |stmts|
  {
    exists i :: 0 <= i < n && Names(stmts[i]) && Full(stmts, i) == p
  }

  // Statement i puts a value into the tree.
  predicate Stores(stmts: seq<Stmt>, i: nat)
    requires i < |stmts|
  {
    stmts[i].Assign? && !Dropped(stmts, i)
  }

  predicate StoredBefore(stmts: seq<Stmt>, n: nat, p: Key)
    requires n <= |stmts|
  {
    exists i :: 0 <= i < n && Stores(stmts, i) && Full(stmts, i) == p
  }

  lemma DroppedIsTable(stmts: seq<Stmt>, i: nat)
    requires i < |stmts| && stmts[i].Assign?
    requires forall p: Key :: p in Fold(stmts, i).headers <==> HeaderBefore(stmts, i, p)
    ensures Dropped(stmts, i) <==> IsTablePath(Fold(stmts, i).headers, Full(stmts, i))
  {
    var p := Full(stmts, i);
    if Dropped(stmts, i) {
      var h :| 0 <= h < i && stmts[h].TableHeader? && p <= stmts[h].path;
      assert HeaderBefore(stmts, i, stmts[h].path);
      assert stmts[h].path in Fold(stmts, i).headers;
    }
    if IsTablePath(Fold(stmts, i).headers, p) {
      var q :| q in Fold(stmts, i).headers && p <= q;
      assert HeaderBefore(stmts, i, q);
    }
  }

  lemma BeforeNext(stmts: seq<Stmt>, n: nat, p: Key)
    requires 0 < n <= |stmts|
    ensures HeaderBefore(stmts, n, p) <==>
        HeaderBefore(stmts, n - 1, p) || (stmts[n - 1].TableHeader? && stmts[n - 1].path == p)
    ensures NamedBefore(stmts, n, p) <==>
        NamedBefore(stmts, n - 1, p) || (Names(stmts[n - 1]) && Full(stmts, n - 1) == p)
    ensures StoredBefore(stmts, n, p) <==>
        StoredBefore(stmts, n - 1, p) || (Stores(stmts, n - 1) && Full(stmts, n - 1) == p)
  {
  }

  // What the fold has gathered.
  lemma {:induction false} FoldMeans(stmts: seq<Stmt>, n: nat)
    requires PlainDocument(stmts) && n <= |stmts|
    ensures Fold(stmts, n).context == ContextAt(stmts, n)
    ensures forall p: Key :: p in Fold(stmts, n).headers <==> HeaderBefore(stmts, n, p)
    ensures forall p: Key :: p in Fold(stmts, n).seen <==> NamedBefore(stmts, n, p)
    ensures forall p: Key :: p in Fold(stmts, n).leaves <==> StoredBefore(stmts, n, p)
  {
    hide HeaderBefore, NamedBefore, StoredBefore, Dropped;
    if n == 0 {
      FoldNone(stmts);
    } else {
      FoldMeans(stmts, n - 1);
      var d := Fold(stmts, n - 1);
      if stmts[n - 1].Assign? {
        DroppedIsTable(stmts, n - 1);
      }
      forall p: Key
        ensures HeaderBefore(stmts, n, p) <==>
            HeaderBefore(stmts, n - 1, p) || (stmts[n - 1].TableHeader? && stmts[n - 1].path == p)
        ensures NamedBefore(stmts, n, p) <==>
            NamedBefore(stmts, n - 1, p) || (Names(stmts[n - 1]) && Full(stmts, n - 1) == p)
        ensures StoredBefore(stmts, n, p) <==>
            StoredBefore(stmts, n - 1, p) || (Stores(stmts, n - 1) && Full(stmts, n - 1) == p)
      {
        BeforeNext(stmts, n, p);
      }
    }
  }

  lemma FoldNone(stmts: seq<Stmt>)
    ensures Fold(stmts, 0) == Doc({}, {}, map[], [])
    ensures forall p: Key :: !HeaderBefore(stmts, 0, p) && !NamedBefore(stmts, 0, p) && !StoredBefore(stmts, 0, p)
  {
  }

  // The path of statement n has been named, or a stored value is on the way to it.
  ghost predicate Refused(stmts: seq<Stmt>, n: nat)
    requires n < |stmts|
  {
    && Names(stmts[n])
    && (|| NamedBefore(stmts, n, Full(stmts, n))
        || (stmts[n].TableHeader?
            && exists m :: 0 < m < |Full(stmts, n)| && StoredBefore(stmts, n, Full(stmts, n)[..m])))
  }

  ghost predicate ClashesAt(stmts: seq<Stmt>, n: nat)
    requires n < |stmts|
  {
    exists i :: 0 <= i < n && Clash(stmts, i, n)
  }

  lemma AcceptsUnrefused(stmts: seq<Stmt>, n: nat)
    requires PlainDocument(stmts) && n < |stmts|
    ensures Accepts(Fold(stmts, n), stmts[n]) <==> !Refused(stmts, n)
  {
    hide Fold, Dropped, NamedBefore, StoredBefore, HeaderBefore, PlainDocument;
    FoldMeans(stmts, n);
  }

  lemma RefusedClashes(stmts: seq<Stmt>, n: nat)
    requires PlainDocument(stmts) && n < |stmts| && Refused(stmts, n)
    ensures ClashesAt(stmts, n)
  {
    hide Dropped, ContextAt, PlainDocument;
    var p := Full(stmts, n);
    if NamedBefore(stmts, n, p) {
      var i :| 0 <= i < n && Names(stmts[i]) && Full(stmts, i) == p;
      assert Clash(stmts, i, n);
    } else {
      var m :| 0 < m < |p| && StoredBefore(stmts, n, p[..m]);
      var i :| 0 <= i < n && Stores(stmts, i) && Full(stmts, i) == p[..m];
      assert Clash(stmts, i, n);
    }
  }

  // One more statement is accepted exactly if it clashes with none before it.
  lemma AcceptsNext(stmts: seq<Stmt>, n: nat)
    requires PlainDocument(stmts) && n < |stmts|
    ensures Accepts(Fold(stmts, n), stmts[n]) <==> forall i :: 0 <= i < n ==> !Clash(stmts, i, n)
  {
    hide Fold, Clash, Refused, Accepts, PlainDocument;
    AcceptsUnrefused(stmts, n);
    if Refused(stmts, n) {
      RefusedClashes(stmts, n);
    }
    forall i: nat | i < n && Clash(stmts, i, n)
      ensures Refused(stmts, n)
    {
      ClashRefused(stmts, i, n);
    }
  }

  // A clash with an earlier statement: its path has been named, or a stored value is on the way.
  lemma ClashRefused(stmts: seq<Stmt>, i: nat, n: nat)
    requires PlainDocument(stmts) && i < n < |stmts| && Clash(stmts, i, n)
    ensures Refused(stmts, n)
  {
    hide Dropped, ContextAt, PlainDocument;
    var p, q := Full(stmts, n), Full(stmts, i);
    if q != p {
      assert StoredBefore(stmts, n, q);
      assert q == p[..|q|];
    } else {
      assert NamedBefore(stmts, n, p);
    }
  }

  lemma EmptyFold(st: PState)
    requires st == ParserSpec.INIT
    ensures Represents(st, Doc({}, {}, map[], []))
  {
  }

  lemma {:induction false} ExecFold(st: PState, stmts: seq<Stmt>, n: nat)
    requires PlainDocument(stmts) && n <= |stmts| && Acceptable(stmts, n)
    requires Represents(st, Fold(stmts, n))
    ensures Acceptable(stmts, |stmts|) ==>
      ExecAll(st, stmts[n..]).Ok? && Represents(ExecAll(st, stmts[n..]).value, Fold(stmts, |stmts|))
    ensures !Acceptable(stmts, |stmts|) ==> ExecAll(st, stmts[n..]) == Rejected
    decreases |stmts| - n
  {
    if n < |stmts| {
      assert stmts[n..][0] == stmts[n] && stmts[n..][1..] == stmts[n + 1..];
      AcceptsNext(stmts, n);
      hide Represents, Clash, Accepts, After, Exec;
      ExecMatches(st, Fold(stmts, n), stmts[n]);
      if Accepts(Fold(stmts, n), stmts[n]) {
        ExecFold(Exec(st, stmts[n]).value, stmts, n + 1);
      }
    }
  }

  // The tree of a document: its tables are the prefixes of its headers, its leaves the stored
  // values.
  ghost predicate TreeOf(t: Table, stmts: seq<Stmt>) {
    && (forall q: Key {:trigger Lookup(t, q)} :: Lookup(t, q).Inner? <==>
        q == [] || exists h :: 0 <= h < |stmts| && stmts[h].TableHeader? && q <= stmts[h].path)
    && (forall q: Key {:trigger Lookup(t, q)} :: Lookup(t, q).Leaf? <==> StoredBefore(stmts, |stmts|, q))
    && (forall i :: 0 <= i < |stmts| && Stores(stmts, i) ==> Lookup(t, Full(stmts, i)) == Leaf(stmts[i].val))
  }

  // What one more statement adds to the values gathered.
  lemma FoldStep(stmts: seq<Stmt>, n: nat)
    requires PlainDocument(stmts) && n < |stmts|
    ensures Fold(stmts, n + 1).leaves
         == if Stores(stmts, n) then Fold(stmts, n).leaves[Full(stmts, n) := stmts[n].val] else Fold(stmts, n).leaves
  {
    FoldMeans(stmts, n);
    if stmts[n].Assign? {
      DroppedIsTable(stmts, n);
    }
    hide HeaderBefore, NamedBefore, StoredBefore, Dropped, IsTablePath;
  }

  // The values gathered are those that were assigned.
  lemma {:induction false} FoldValues(stmts: seq<Stmt>, n: nat, i: nat)
    requires PlainDocument(stmts) && i < n <= |stmts| && Acceptable(stmts, n) && Stores(stmts, i)
    ensures Full(stmts, i) in Fold(stmts, n).leaves && Fold(stmts, n).leaves[Full(stmts, i)] == stmts[i].val
  {
    FoldStep(stmts, n - 1);
    if i < n - 1 {
      FoldValues(stmts, n - 1, i);
      assert !Clash(stmts, i, n - 1);
    }
    hide Fold, Dropped, PlainDocument;
  }

  lemma FoldTree(t: Table, stmts: seq<Stmt>)
    requires PlainDocument(stmts) && Acceptable(stmts, |stmts|)
    requires TreeIs(t, Fold(stmts, |stmts|)) && Tidy(Fold(stmts, |stmts|))
    ensures TreeOf(t, stmts)
  {
    var n := |stmts|;
    var d := Fold(stmts, n);
    FoldMeans(stmts, n);
    forall q: Key
      ensures Lookup(t, q).Inner? <==> q == [] || exists h :: 0 <= h < n && stmts[h].TableHeader? && q <= stmts[h].path
      ensures Lookup(t, q).Leaf? <==> StoredBefore(stmts, n, q)
    {
      assert Lookup(t, q) == NodeAt(d, q);
      assert q in d.leaves <==> StoredBefore(stmts, n, q);
      if h: nat :| h < n && stmts[h].TableHeader? && q <= stmts[h].path {
        assert HeaderBefore(stmts, n, stmts[h].path);
      }
      if q != [] && IsTablePath(d.headers, q) {
        var p :| p in d.headers && q <= p;
        assert HeaderBefore(stmts, n, p);
      }
    }
    forall i | 0 <= i < n && Stores(stmts, i)
      ensures Lookup(t, Full(stmts, i)) == Leaf(stmts[i].val)
    {
      FoldValues(stmts, n, i);
      assert Lookup(t, Full(stmts, i)) == NodeAt(d, Full(stmts, i));
    }
  }

  /** A document of headers and plain assignments is accepted exactly if no two of its
      statements clash, and its tree is then given in closed form. */
  lemma DocumentAccepted(toks: seq<Token>, stmts: seq<Stmt>)
    requires Statements([], toks) == Ok(stmts) && PlainDocument(stmts)
    ensures Parse(toks) == Rejected || Parse(toks).Ok?
    ensures Parse(toks).Ok? <==> Acceptable(stmts, |stmts|)
    ensures Parse(toks).Ok? ==> TreeOf(Parse(toks).value.mapping, stmts)
  {
    ParseFactors(ParserSpec.INIT, toks);
    EmptyFold(ParserSpec.INIT);
    assert stmts[0..] == stmts;
    ExecFold(ParserSpec.INIT, stmts, 0);
    if Acceptable(stmts, |stmts|) {
      FoldTree(Parse(toks).value.mapping, stmts);
    }
  }

  // ---- documents whose values stand in no header's way ----

  predicate NoValueAboveHeader(stmts: seq<Stmt>)
    requires PlainDocument(stmts)
  {
    forall i, j :: 0 <= i < |stmts| && 0 <= j < |stmts| && stmts[i].Assign? && stmts[j].TableHeader? ==>
      !(Full(stmts, i) < stmts[j].path)
  }

  predicate PairwiseDistinct(stmts: seq<Stmt>) {
    forall i, j :: 0 <= i < j < |stmts| && Names(stmts[i]) && Names(stmts[j]) ==> Full(stmts, i) != Full(stmts, j)
  }

  lemma AllStored(stmts: seq<Stmt>)
    requires PlainDocument(stmts) && NoValueAboveHeader(stmts) && PairwiseDistinct(stmts)
    ensures forall i :: 0 <= i < |stmts| && stmts[i].Assign? ==> Stores(stmts, i)
  {
    forall i | 0 <= i < |stmts| && stmts[i].Assign?
      ensures !Dropped(stmts, i)
    {
      forall h | 0 <= h < i && stmts[h].TableHeader?
        ensures !(Full(stmts, i) <= stmts[h].path)
      {
        assert Full(stmts, h) != Full(stmts, i);
        assert !(Full(stmts, i) < stmts[h].path);
      }
    }
  }

  /** Such a document is accepted exactly if its paths are pairwise distinct. */
  lemma DistinctAccepted(toks: seq<Token>, stmts: seq<Stmt>)
    requires Statements([], toks) == Ok(stmts) && PlainDocument(stmts) && NoValueAboveHeader(stmts)
    ensures Parse(toks).Ok? <==> PairwiseDistinct(stmts)
    ensures Parse(toks).Ok? ==> forall i :: 0 <= i < |stmts| && stmts[i].Assign? ==> Stores(stmts, i)
  {
    DocumentAccepted(toks, stmts);
    if Acceptable(stmts, |stmts|) {
      forall i, j | 0 <= i < j < |stmts| && Names(stmts[i]) && Names(stmts[j])
        ensures Full(stmts, i) != Full(stmts, j)
      {
        assert !Clash(stmts, i, j);
      }
    }
    if PairwiseDistinct(stmts) {
      AllStored(stmts);
      forall i, j | 0 <= i < j < |stmts|
        ensures !Clash(stmts, i, j)
      {
        if stmts[i].Assign? && stmts[j].TableHeader? {
          assert !(Full(stmts, i) < stmts[j].path);
        }
      }
    }
  }

  // ---- order ----

  lemma LookupChild(t: Table, k: string, q: Key)
    requires k in t.entries && t.entries[k].Hash?
    ensures Lookup(t, [k] + q) == Lookup(t.entries[k].table, q)
  {
    assert ([k] + q)[0] == k && ([k] + q)[1..] == q;
  }

  /** A tree is determined by its nodes. */
  lemma {:induction false} SameNodes(t: Table, u: Table)
    requires forall q: Key {:trigger Lookup(t, q)} :: Lookup(t, q) == Lookup(u, q)
    ensures t == u
  {
    forall k: string
      ensures k in t.entries <==> k in u.entries
      ensures k in t.entries && k in u.entries ==> t.entries[k] == u.entries[k]
    {
      assert Lookup(t, [k]) == Lookup(u, [k]);
      assert [k][1..] == [];
      if k in t.entries && k in u.entries && t.entries[k].Hash? && u.entries[k].Hash? {
        forall q: Key
          ensures Lookup(t.entries[k].table, q) == Lookup(u.entries[k].table, q)
        {
          LookupChild(t, k, q);
          LookupChild(u, k, q);
          assert Lookup(t, [k] + q) == Lookup(u, [k] + q);
        }
        SameNodes(t.entries[k].table, u.entries[k].table);
      }
    }
    assert t.entries == u.entries;
  }

  // Every header and every assignment of s is one of u, in whatever place.
  predicate Covers(u: seq<Stmt>, s: seq<Stmt>) {
    && (forall i :: 0 <= i < |s| && s[i].TableHeader? ==> HeaderBefore(u, |u|, s[i].path))
    && (forall i :: 0 <= i < |s| && s[i].Assign? ==>
          exists j :: 0 <= j < |u| && u[j].Assign? && Full(u, j) == Full(s, i) && u[j].val == s[i].val)
  }

  lemma CoveredNodes(s: seq<Stmt>, u: seq<Stmt>, t: Table, v: Table, q: Key)
    requires TreeOf(t, s) && TreeOf(v, u) && Covers(u, s)
    requires forall i :: 0 <= i < |u| && u[i].Assign? ==> Stores(u, i)
    ensures Lookup(t, q) != Absent ==> Lookup(v, q) == Lookup(t, q)
  {
    if Lookup(t, q).Inner? && q != [] {
      var h :| 0 <= h < |s| && s[h].TableHeader? && q <= s[h].path;
      assert HeaderBefore(u, |u|, s[h].path);
    }
    if Lookup(t, q).Leaf? {
      assert StoredBefore(s, |s|, q);
      var i :| 0 <= i < |s| && Stores(s, i) && Full(s, i) == q;
      var j :| 0 <= j < |u| && u[j].Assign? && Full(u, j) == Full(s, i) && u[j].val == s[i].val;
      assert Lookup(v, Full(u, j)) == Leaf(u[j].val);
    }
  }

  // An accepted document of headers and plain assignments with no value above a header.
  predicate SimpleDocument(toks: seq<Token>, stmts: seq<Stmt>) {
    && Statements([], toks) == Ok(stmts)
    && PlainDocument(stmts) && NoValueAboveHeader(stmts)
    && Parse(toks).Ok?
  }

  /** Two accepted documents with the same headers and the same assigned values have the same
      tree: the order of the table blocks does not matter. */
  lemma OrderIrrelevant(toks: seq<Token>, stmts: seq<Stmt>, others: seq<Token>, moved: seq<Stmt>)
    ensures SimpleDocument(toks, stmts) && SimpleDocument(others, moved)
            && Covers(stmts, moved) && Covers(moved, stmts) ==>
      Parse(toks).value.mapping == Parse(others).value.mapping
  {
    if SimpleDocument(toks, stmts) && SimpleDocument(others, moved) && Covers(stmts, moved) && Covers(moved, stmts) {
      var t, u := Parse(toks).value.mapping, Parse(others).value.mapping;
      DocumentAccepted(toks, stmts);
      DocumentAccepted(others, moved);
      DistinctAccepted(toks, stmts);
      DistinctAccepted(others, moved);
      forall q: Key
        ensures Lookup(t, q) == Lookup(u, q)
      {
        CoveredNodes(stmts, moved, t, u, q);
        CoveredNodes(moved, stmts, u, t, q);
      }
      SameNodes(t, u);
    }
  }
}
