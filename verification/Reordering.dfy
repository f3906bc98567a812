/** Reordered documents.

If no assigned path is a proper prefix of a header, the order of the table blocks does not
matter: a document with the same headers and assignments is accepted as well or as little, and
gives the same tree. */
module Reordering {
  import opened Tokens
  import opened Outcomes
  import opened Trees
  import opened ParserSpec
  import opened Documents

  // What a header or an assignment contributes.
  datatype Entry = TableEntry(path: Key) | ValueEntry(path: Key, val: Value)

  function EntryAt(stmts: seq<Stmt>, i: nat): Entry
    requires i < |stmts| && Names(stmts[i])
  {
    if stmts[i].TableHeader? then TableEntry(stmts[i].path) else ValueEntry(Full(stmts, i), stmts[i].val)
  }

  // The entries of the first n statements, in order.
  function Entries(stmts: seq<Stmt>, n: nat): seq<Entry>
    requires n <= |stmts|
  {
    if n == 0 then []
    else Entries(stmts, n - 1) + if Names(stmts[n - 1]) then [EntryAt(stmts, n - 1)] else []
  }

  predicate IsEntry(stmts: seq<Stmt>, n: nat, i: int, e: Entry)
    requires n <= |stmts|
  {
    0 <= i < n && Names(stmts[i]) && EntryAt(stmts, i) == e
  }

  ghost predicate HasEntry(stmts: seq<Stmt>, n: nat, e: Entry)
    requires n <= |stmts|
  {
    exists i :: IsEntry(stmts, n, i, e)
  }

  lemma {:induction false} EntriesMeans(stmts: seq<Stmt>, n: nat, e: Entry)
    requires n <= |stmts|
    ensures e in Entries(stmts, n) <==> HasEntry(stmts, n, e)
  {
    if n > 0 {
      EntriesMeans(stmts, n - 1, e);
      EntryNext(stmts, n - 1, e);
    }
  }

  lemma EntryNext(stmts: seq<Stmt>, m: nat, e: Entry)
    requires m < |stmts|
    ensures HasEntry(stmts, m + 1, e) <==> HasEntry(stmts, m, e) || (Names(stmts[m]) && EntryAt(stmts, m) == e)
  {
    var n := m + 1;
    if HasEntry(stmts, n, e) {
      var i :| IsEntry(stmts, n, i, e);
      assert i < m ==> IsEntry(stmts, m, i, e);
    }
    if HasEntry(stmts, m, e) {
      var i :| IsEntry(stmts, m, i, e);
      assert IsEntry(stmts, n, i, e);
    }
    if Names(stmts[m]) {
      assert IsEntry(stmts, n, m, EntryAt(stmts, m));
    }
  }

  predicate DistinctPaths(es: seq<Entry>) {
    forall i, j :: 0 <= i < j < |es| ==> es[i].path != es[j].path
  }

  predicate DistinctUpTo(stmts: seq<Stmt>, n: nat)
    requires n <= |stmts|
  {
    forall i, j :: 0 <= i < j < n && Names(stmts[i]) && Names(stmts[j]) ==> Full(stmts, i) != Full(stmts, j)
  }

  lemma {:induction false} DistinctEntries(stmts: seq<Stmt>, n: nat)
    requires n <= |stmts|
    ensures DistinctPaths(Entries(stmts, n)) <==> DistinctUpTo(stmts, n)
    decreases n
  {
    if n > 0 {
      var m := n - 1;
      DistinctEntries(stmts, m);
      if Names(stmts[m]) {
        LastDistinct(Entries(stmts, m), EntryAt(stmts, m));
        LastFull(stmts, m);
      } else {
        assert Entries(stmts, m) + [] == Entries(stmts, m);
      }
    }
  }

  // No entry before has the path of statement m.
  lemma LastFull(stmts: seq<Stmt>, m: nat)
    requires m < |stmts| && Names(stmts[m])
    ensures (forall d :: d in Entries(stmts, m) ==> d.path != EntryAt(stmts, m).path) <==>
              forall i :: 0 <= i < m && Names(stmts[i]) ==> Full(stmts, i) != Full(stmts, m)
  {
    forall i | 0 <= i < m && Names(stmts[i])
      ensures EntryAt(stmts, i) in Entries(stmts, m) && EntryAt(stmts, i).path == Full(stmts, i)
    {
      assert IsEntry(stmts, m, i, EntryAt(stmts, i));
      EntriesMeans(stmts, m, EntryAt(stmts, i));
    }
    forall d | d in Entries(stmts, m)
      ensures HasEntry(stmts, m, d)
    {
      EntriesMeans(stmts, m, d);
    }
  }

  lemma LastDistinct(es: seq<Entry>, e: Entry)
    ensures DistinctPaths(es + [e]) <==> DistinctPaths(es) && forall d :: d in es ==> d.path != e.path
  {
    if DistinctPaths(es + [e]) {
      forall i | 0 <= i < |es|
        ensures es[i].path != e.path
      {
        assert (es + [e])[i] == es[i] && (es + [e])[|es|] == e;
      }
      assert forall i :: 0 <= i < |es| ==> (es + [e])[i] == es[i];
    }
  }

  // ---- lists with the same entries ----

  lemma SameDistinct(es: seq<Entry>, fs: seq<Entry>)
    requires multiset(es) == multiset(fs) && DistinctPaths(es)
    ensures DistinctPaths(fs)
  {
    forall i, j | 0 <= i < j < |fs|
      ensures fs[i].path != fs[j].path
    {
      assert fs[i] in multiset(fs) && fs[j] in multiset(fs);
      assert fs[i] in multiset(es) && fs[j] in multiset(es);
      var a :| 0 <= a < |es| && es[a] == fs[i];
      var b :| 0 <= b < |es| && es[b] == fs[j];
      if fs[i] == fs[j] {
        Twice(fs, i, j);
        Once(es, a);
        assert false;
      }
    }
  }

  lemma Twice(es: seq<Entry>, i: nat, j: nat)
    requires i < j < |es| && es[i] == es[j]
    ensures multiset(es)[es[i]] >= 2
  {
    assert es == es[..j] + es[j..];
    assert es[..j][i] == es[i] && es[j..][0] == es[j];
    assert es[i] in multiset(es[..j]) && es[i] in multiset(es[j..]);
  }

  lemma Once(es: seq<Entry>, a: nat)
    requires a < |es| && DistinctPaths(es)
    ensures multiset(es)[es[a]] == 1
  {
    assert es == es[..a] + [es[a]] + es[a + 1..];
    assert es[a] !in es[..a] && es[a] !in es[a + 1..];
    assert es[a] !in multiset(es[..a]) && es[a] !in multiset(es[a + 1..]);
  }

  lemma SameMembers(es: seq<Entry>, fs: seq<Entry>)
    requires multiset(es) == multiset(fs)
    ensures forall e :: e in es <==> e in fs
  {
    forall e
      ensures e in es <==> e in fs
    {
      assert e in es <==> e in multiset(es);
      assert e in fs <==> e in multiset(fs);
    }
  }

  // The same headers, and the same assignments of the same values to the same full paths.
  predicate Permuted(stmts: seq<Stmt>, moved: seq<Stmt>) {
    multiset(Entries(stmts, |stmts|)) == multiset(Entries(moved, |moved|))
  }

  // An entry of the one document is one of the other.
  lemma Moved(stmts: seq<Stmt>, moved: seq<Stmt>, i: nat) returns (j: nat)
    requires Permuted(stmts, moved) && i < |stmts| && Names(stmts[i])
    ensures IsEntry(moved, |moved|, j, EntryAt(stmts, i))
  {
    var e := EntryAt(stmts, i);
    assert IsEntry(stmts, |stmts|, i, e);
    EntriesMeans(stmts, |stmts|, e);
    SameMembers(Entries(stmts, |stmts|), Entries(moved, |moved|));
    EntriesMeans(moved, |moved|, e);
    j :| IsEntry(moved, |moved|, j, e);
  }

  lemma PermutedCovers(stmts: seq<Stmt>, moved: seq<Stmt>)
    requires Permuted(stmts, moved)
    ensures Covers(moved, stmts)
  {
    forall i | 0 <= i < |stmts| && stmts[i].TableHeader?
      ensures HeaderBefore(moved, |moved|, stmts[i].path)
    {
      var j := Moved(stmts, moved, i);
      assert moved[j].TableHeader? && moved[j].path == stmts[i].path;
    }
    forall i | 0 <= i < |stmts| && stmts[i].Assign?
      ensures exists j :: 0 <= j < |moved| && moved[j].Assign?
                          && Full(moved, j) == Full(stmts, i) && moved[j].val == stmts[i].val
    {
      var j := Moved(stmts, moved, i);
      assert moved[j].Assign? && Full(moved, j) == Full(stmts, i);
    }
  }

  lemma PermutedNoValue(stmts: seq<Stmt>, moved: seq<Stmt>)
    requires PlainDocument(stmts) && PlainDocument(moved) && NoValueAboveHeader(moved) && Permuted(stmts, moved)
    ensures NoValueAboveHeader(stmts)
  {
    forall i, j | 0 <= i < |stmts| && 0 <= j < |stmts| && stmts[i].Assign? && stmts[j].TableHeader?
      ensures !(Full(stmts, i) < stmts[j].path)
    {
      var k := Moved(stmts, moved, i);
      var l := Moved(stmts, moved, j);
      assert moved[k].Assign? && moved[l].TableHeader?;
    }
  }

  lemma PermutedDistinct(stmts: seq<Stmt>, moved: seq<Stmt>)
    requires Permuted(stmts, moved) && PairwiseDistinct(stmts)
    ensures PairwiseDistinct(moved)
  {
    DistinctEntries(stmts, |stmts|);
    DistinctEntries(moved, |moved|);
    SameDistinct(Entries(stmts, |stmts|), Entries(moved, |moved|));
  }

  // A document of headers and plain assignments.
  predicate IsPlain(toks: seq<Token>, stmts: seq<Stmt>) {
    Statements([], toks) == Ok(stmts) && PlainDocument(stmts)
  }

  /** Reordering: the same entries in another order are accepted or refused alike, and give the
      same tree. */
  lemma Reordered(toks: seq<Token>, stmts: seq<Stmt>, others: seq<Token>, moved: seq<Stmt>)
    ensures IsPlain(toks, stmts) && IsPlain(others, moved) && NoValueAboveHeader(stmts) && Permuted(stmts, moved) ==>
              && (Parse(toks).Ok? <==> Parse(others).Ok?)
              && (Parse(toks).Ok? ==> Parse(toks).value.mapping == Parse(others).value.mapping)
  {
    hide Statements, Parse, PlainDocument, NoValueAboveHeader, PairwiseDistinct, Covers, Permuted;
    if IsPlain(toks, stmts) && IsPlain(others, moved) && NoValueAboveHeader(stmts) && Permuted(stmts, moved) {
      Symmetric(stmts, moved);
      PermutedNoValue(moved, stmts);
      PermutedCovers(stmts, moved);
      PermutedCovers(moved, stmts);
      DistinctAccepted(toks, stmts);
      DistinctAccepted(others, moved);
      if PairwiseDistinct(stmts) {
        PermutedDistinct(stmts, moved);
      }
      if PairwiseDistinct(moved) {
        PermutedDistinct(moved, stmts);
      }
      OrderIrrelevant(toks, stmts, others, moved);
    }
  }

  lemma Symmetric(stmts: seq<Stmt>, moved: seq<Stmt>)
    requires Permuted(stmts, moved)
    ensures Permuted(moved, stmts)
  {
  }
}
