/** Inline tables: every pair is kept exactly if no name is repeated. */
module InlineTables {
  import opened Tokens
  import opened Outcomes
  import opened Trees
  import opened ParserSpec

  type Pair = (string, Value)

  // The pairs of an inline table, in order, and the tokens behind it.
  function ReadPairList(context: Key, toks: seq<Token>): (r: Outcome<Read<seq<Pair>>>)
    decreases |toks|
  {
    var t :- Next(toks);
    if t.typ.ItemInlineTableEnd? then Ok(Read([], [], toks[1..]))
    else if !t.typ.ItemKeyStart? then Bug(NoKeyStart)
    else
      var first :- ReadPair(context, toks[1..]);
      var more :- ReadPairList(context, first.rest);
      Ok(Read([first.val] + more.val, [], more.rest))
  }

  // The table in which every pair replaces the earlier ones of its name.
  function LastWins(pairs: seq<Pair>): map<string, Value> {
    if pairs == [] then map[] else
      var last := pairs[|pairs| - 1];
      LastWins(pairs[..|pairs| - 1])[last.0 := last.1]
  }

  predicate DistinctNames(pairs: seq<Pair>) {
    forall i, j :: 0 <= i < j < |pairs| ==> pairs[i].0 != pairs[j].0
  }

  // The name of pair i does not come again.
  predicate IsLast(pairs: seq<Pair>, i: nat)
    requires i < |pairs|
  {
    forall j :: i < j < |pairs| ==> pairs[j].0 != pairs[i].0
  }

  // What the loop over the pairs gathers.
  lemma {:induction false} PairsGathered(context: Key, done: seq<Pair>, keys: seq<Key>, toks: seq<Token>)
    ensures var r, list := ReadPairs(context, LastWins(done), keys, toks), ReadPairList(context, toks);
            if list.Ok? then r.Ok? && r.value.val == LastWins(done + list.value.val) && r.value.rest == list.value.rest
            else r == list.PropagateFailure()
    decreases |toks|
  {
    var t := Next(toks);
    if t.Ok? {
      if t.value.typ.ItemInlineTableEnd? {
        assert done + [] == done;
      } else if t.value.typ.ItemKeyStart? {
        var first := ReadPair(context, toks[1..]);
        if first.Ok? {
          var pair := first.value.val;
          assert (done + [pair])[..|done|] == done;
          PairsGathered(context, done + [pair], keys + first.value.keys + [context + [pair.0]], first.value.rest);
          var more := ReadPairList(context, first.value.rest);
          if more.Ok? {
            assert done + [pair] + more.value.val == done + ([pair] + more.value.val);
          }
        }
      }
    }
  }

  predicate HasName(pairs: seq<Pair>, k: string) {
    exists i :: 0 <= i < |pairs| && pairs[i].0 == k
  }

  lemma HasNameLast(pairs: seq<Pair>, k: string)
    requires pairs != []
    ensures HasName(pairs, k) <==> HasName(pairs[..|pairs| - 1], k) || pairs[|pairs| - 1].0 == k
  {
    var init := pairs[..|pairs| - 1];
    assert forall i :: 0 <= i < |init| ==> init[i] == pairs[i];
  }

  lemma {:induction false} LastWinsNames(pairs: seq<Pair>, k: string)
    ensures k in LastWins(pairs) <==> HasName(pairs, k)
  {
    if pairs != [] {
      LastWinsNames(pairs[..|pairs| - 1], k);
      HasNameLast(pairs, k);
    }
  }

  lemma {:induction false} LastWinsValue(pairs: seq<Pair>, i: nat)
    requires i < |pairs| && IsLast(pairs, i)
    ensures pairs[i].0 in LastWins(pairs) && LastWins(pairs)[pairs[i].0] == pairs[i].1
  {
    var n := |pairs| - 1;
    if i < n {
      var init := pairs[..n];
      assert forall j :: 0 <= j < n ==> init[j] == pairs[j];
      LastWinsValue(init, i);
      assert pairs[n].0 != pairs[i].0;
    }
  }

  lemma DistinctMore(pairs: seq<Pair>)
    requires pairs != []
    ensures var init := pairs[..|pairs| - 1];
            DistinctNames(pairs) <==> DistinctNames(init) && !HasName(init, pairs[|pairs| - 1].0)
  {
    var n := |pairs| - 1;
    var init := pairs[..n];
    assert forall i :: 0 <= i < n ==> init[i] == pairs[i];
  }

  lemma {:induction false} LastWinsSize(pairs: seq<Pair>)
    ensures |LastWins(pairs)| <= |pairs| && (|LastWins(pairs)| == |pairs| <==> DistinctNames(pairs))
  {
    if pairs != [] {
      var init, last := pairs[..|pairs| - 1], pairs[|pairs| - 1];
      LastWinsSize(init);
      LastWinsNames(init, last.0);
      DistinctMore(pairs);
      hide DistinctNames, HasName;
      assert LastWins(pairs).Keys == LastWins(init).Keys + {last.0};
    }
  }

  /** The table that is read from an inline table has exactly the names of its pairs, each with
      the value of its last pair; it keeps every pair exactly if the names are pairwise distinct,
      and a repeated name is never reported. */
  lemma InlineTableKeeps(context: Key, toks: seq<Token>)
    ensures var r, list := ReadPairs(context, map[], [], toks), ReadPairList(context, toks);
            && (r.Ok? <==> list.Ok?)
            && (r.Ok? ==>
                  var hash, pairs := r.value.val, list.value.val;
                  && (forall k :: k in hash <==> HasName(pairs, k))
                  && (forall i :: 0 <= i < |pairs| && IsLast(pairs, i) ==> hash[pairs[i].0] == pairs[i].1)
                  && (|hash| == |pairs| <==> DistinctNames(pairs)))
  {
    var none: seq<Pair> := [];
    PairsGathered(context, none, [], toks);
    var list := ReadPairList(context, toks);
    if list.Ok? {
      assert none + list.value.val == list.value.val;
      var pairs := list.value.val;
      forall k
        ensures k in LastWins(pairs) <==> HasName(pairs, k)
      {
        LastWinsNames(pairs, k);
      }
      forall i | 0 <= i < |pairs| && IsLast(pairs, i)
        ensures pairs[i].0 in LastWins(pairs) && LastWins(pairs)[pairs[i].0] == pairs[i].1
      {
        LastWinsValue(pairs, i);
      }
      LastWinsSize(pairs);
    }
  }
}
