/** Which types the search scans, on which path, and how often each field is collected.

The search scans every type that it can reach exactly once, on a nearest path, and remembers in
how many places the types of the level before embed it.  This decides how often the fields of
the type are collected, and so which of them can survive. */
module FieldScans {
  import opened Sequences
  import opened Options
  import opened FieldSearch

  // The scan of a type on a path, and the count that decides whether its fields are doubled.
  datatype Scan = Scan(typ: TypeId, index: Index, embeddings: nat)

  // The scans of a round.
  function ScansOf(g: Graph, visited: set<TypeId>, es: seq<Entry>, count: map<TypeId, nat>): seq<Scan>
    decreases |es|
  {
    if es == [] then []
    else if es[0].typ in visited || es[0].typ !in g then ScansOf(g, visited, es[1..], count)
    else
      [Scan(es[0].typ, es[0].index, CountOf(count, es[0].typ))]
      + ScansOf(g, visited + {es[0].typ}, es[1..], count)
  }

  // The scans of all rounds.
  function ScansFrom(g: Graph, visited: set<TypeId>, queue: seq<Entry>, count: map<TypeId, nat>): seq<Scan>
    requires visited <= g.Keys
    decreases |g.Keys - visited|, |queue|
  {
    if queue == [] then [] else
      var w := Round(g, visited, queue, count, []);
      RoundProgress(g, visited, queue, count, []);
      ScansOf(g, visited, queue, count) + ScansFrom(g, w.visited, w.next, w.nextCount)
  }

  function Scans(g: Graph, t: TypeId): seq<Scan> {
    ScansFrom(g, {}, [Entry(t, [])], map[])
  }

  // The fields of a type that are collected, from field i on.
  function OwnFrom(sfs: seq<StructField>, i: nat, index: Index, twice: bool): seq<Field>
    decreases |sfs| - i
  {
    if i >= |sfs| then []
    else
      var rest := OwnFrom(sfs, i + 1, index, twice);
      if !Records(sfs[i]) then rest
      else
        var f := Recorded(sfs[i], index + [i]);
        (if twice then [f, f] else [f]) + rest
  }

  function Own(g: Graph, sc: Scan): seq<Field> {
    if sc.typ in g then OwnFrom(g[sc.typ], 0, sc.index, sc.embeddings > 1) else []
  }

  function OwnOfAll(g: Graph, scans: seq<Scan>): seq<Field> {
    if scans == [] then [] else Own(g, scans[0]) + OwnOfAll(g, scans[1..])
  }

  lemma {:induction false} OwnAppend(g: Graph, a: seq<Scan>, b: seq<Scan>)
    ensures OwnOfAll(g, a + b) == OwnOfAll(g, a) + OwnOfAll(g, b)
  {
    if a == [] {
      assert a + b == b;
    } else {
      assert (a + b)[1..] == a[1..] + b;
      OwnAppend(g, a[1..], b);
    }
  }

  // ---- the collected fields are those of the scans ----

  // The fields do not influence the search.
  lemma {:induction false} ScanFromSplits(w: Work, sfs: seq<StructField>, i: nat, index: Index, twice: bool,
      fields: seq<Field>)
    requires w.fields == fields
    ensures ScanFrom(w, sfs, i, index, twice)
         == ScanFrom(w.(fields := []), sfs, i, index, twice).(fields := fields + OwnFrom(sfs, i, index, twice))
    decreases |sfs| - i
  {
    hide Recorded;
    if i < |sfs| {
      var w1 := ScanField(w, sfs[i], index + [i], twice);
      var w2 := ScanField(w.(fields := []), sfs[i], index + [i], twice);
      assert w1.(fields := []) == w2.(fields := []);
      ScanFromSplits(w1, sfs, i + 1, index, twice, w1.fields);
      ScanFromSplits(w2, sfs, i + 1, index, twice, w2.fields);
      assert w1.fields == fields + w2.fields;
      assert (fields + w2.fields) + OwnFrom(sfs, i + 1, index, twice)
          == fields + (w2.fields + OwnFrom(sfs, i + 1, index, twice));
    }
  }

  lemma {:induction false} ScanEntriesSplit(g: Graph, w: Work, es: seq<Entry>, count: map<TypeId, nat>,
      fields: seq<Field>)
    requires w.fields == fields
    ensures ScanEntries(g, w, es, count)
         == ScanEntries(g, w.(fields := []), es, count).
              (fields := fields + OwnOfAll(g, ScansOf(g, w.visited, es, count)))
    decreases |es|
  {
    if es != [] {
      var e := es[0];
      var w1 := ScanEntry(g, w, e, count);
      var w2 := ScanEntry(g, w.(fields := []), e, count);
      EntrySplits(g, w, e, count);
      ScanEntriesSplit(g, w1, es[1..], count, w1.fields);
      ScanEntriesSplit(g, w2, es[1..], count, w2.fields);
    } else {
      assert fields + [] == fields;
    }
  }

  lemma EntrySplits(g: Graph, w: Work, e: Entry, count: map<TypeId, nat>)
    ensures var w1 := ScanEntry(g, w, e, count);
            var w2 := ScanEntry(g, w.(fields := []), e, count);
            && w1.(fields := []) == w2.(fields := [])
            && w1.fields == w.fields + w2.fields
            && w1.visited == w.visited + (if e.typ in g then {e.typ} else {})
            && w2.fields == if e.typ in w.visited then [] else Own(g, Scan(e.typ, e.index, CountOf(count, e.typ)))
  {
    if !(e.typ in w.visited || e.typ !in g) {
      var w0 := w.(visited := w.visited + {e.typ});
      var twice := CountOf(count, e.typ) > 1;
      ScanFromSplits(w0, g[e.typ], 0, e.index, twice, w0.fields);
      ScanFromSplits(w0.(fields := []), g[e.typ], 0, e.index, twice, []);
      ScanFromVisits(w0, g[e.typ], 0, e.index, twice);
      assert [] + Own(g, Scan(e.typ, e.index, CountOf(count, e.typ)))
          == Own(g, Scan(e.typ, e.index, CountOf(count, e.typ)));
    }
  }

  // A round, with and without the fields collected before.
  lemma RoundSplits(g: Graph, visited: set<TypeId>, queue: seq<Entry>, count: map<TypeId, nat>, fields: seq<Field>)
    ensures Round(g, visited, queue, count, fields)
         == Round(g, visited, queue, count, []).(fields := fields + OwnOfAll(g, ScansOf(g, visited, queue, count)))
  {
    ScanEntriesSplit(g, Work(visited, [], map[], fields), queue, count, fields);
  }

  lemma {:induction false} ExploreSplits(g: Graph, visited: set<TypeId>, queue: seq<Entry>, count: map<TypeId, nat>,
      fields: seq<Field>)
    requires visited <= g.Keys
    ensures Explore(g, visited, queue, count, fields) == fields + OwnOfAll(g, ScansFrom(g, visited, queue, count))
    decreases |g.Keys - visited|, |queue|
  {
    hide Round, ScansOf;
    if queue == [] {
      assert fields + [] == fields;
    } else {
      var w := Round(g, visited, queue, count, fields);
      RoundProgress(g, visited, queue, count, fields);
      RoundProgress(g, visited, queue, count, []);
      RoundSplits(g, visited, queue, count, fields);
      ExploreSplits(g, w.visited, w.next, w.nextCount, w.fields);
      var now, later := ScansOf(g, visited, queue, count), ScansFrom(g, w.visited, w.next, w.nextCount);
      OwnAppend(g, now, later);
      hide OwnOfAll;
      Regroup(fields, OwnOfAll(g, now), OwnOfAll(g, later));
    }
  }

  /** The collected fields are those of the scans, in the order of the scans. */
  lemma CollectedByScan(g: Graph, t: TypeId)
    ensures Collected(g, t) == OwnOfAll(g, Scans(g, t))
  {
    ExploreSplits(g, {}, [Entry(t, [])], map[], []);
    assert [] + OwnOfAll(g, Scans(g, t)) == OwnOfAll(g, Scans(g, t));
  }

  // ---- every type is scanned once, on a nearest path ----

  predicate HasType(scans: seq<Scan>, u: TypeId) {
    exists k :: 0 <= k < |scans| && scans[k].typ == u
  }

  predicate DistinctTypes(scans: seq<Scan>) {
    forall i, j :: 0 <= i < j < |scans| ==> scans[i].typ != scans[j].typ
  }

  lemma HasTypeAppend(a: seq<Scan>, b: seq<Scan>, u: TypeId)
    ensures HasType(a + b, u) <==> HasType(a, u) || HasType(b, u)
  {
    if HasType(a, u) {
      var k :| 0 <= k < |a| && a[k].typ == u;
      assert (a + b)[k].typ == u;
    }
    if HasType(b, u) {
      var k :| 0 <= k < |b| && b[k].typ == u;
      assert (a + b)[|a| + k].typ == u;
    }
    if HasType(a + b, u) {
      var k :| 0 <= k < |a + b| && (a + b)[k].typ == u;
      assert k >= |a| ==> b[k - |a|].typ == u;
    }
  }

  lemma DistinctAppend(a: seq<Scan>, b: seq<Scan>)
    requires DistinctTypes(a) && DistinctTypes(b)
    requires forall u :: HasType(a, u) ==> !HasType(b, u)
    ensures DistinctTypes(a + b)
  {
    forall i, j | 0 <= i < j < |a + b|
      ensures (a + b)[i].typ != (a + b)[j].typ
    {
      if i < |a| <= j {
        assert HasType(a, a[i].typ);
        assert b[j - |a|].typ == (a + b)[j].typ;
        assert HasType(b, b[j - |a|].typ);
      }
    }
  }

  // A scan of the round of a level.
  predicate InRound(g: Graph, t: TypeId, level: nat, count: map<TypeId, nat>, sc: Scan) {
    sc.typ in g && |sc.index| == level && Leads(g, t, sc.index) == Some(sc.typ)
        && sc.embeddings == CountOf(count, sc.typ)
  }

  lemma {:induction false} RoundScans(g: Graph, t: TypeId, w: Work, es: seq<Entry>, count: map<TypeId, nat>, level: nat)
    requires QueueOk(g, t, es, level) && w.visited <= g.Keys
    requires forall i :: 0 <= i < |es| ==> es[i].typ in g
    ensures var scans := ScansOf(g, w.visited, es, count);
            && DistinctTypes(scans)
            && (forall k :: 0 <= k < |scans| ==> InRound(g, t, level, count, scans[k]) && scans[k].typ !in w.visited)
            && (forall u :: u in ScanEntries(g, w, es, count).visited <==> u in w.visited || HasType(scans, u))
    decreases |es|
  {
    if es != [] {
      var w1 := ScanEntry(g, w, es[0], count);
      EntrySplits(g, w, es[0], count);
      RoundScans(g, t, w1, es[1..], count, level);
      if es[0].typ !in w.visited {
        assert w1.visited == w.visited + {es[0].typ};
        var first := [Scan(es[0].typ, es[0].index, CountOf(count, es[0].typ))];
        var rest := ScansOf(g, w1.visited, es[1..], count);
        assert HasType(first, first[0].typ);
        FirstNew(first, rest, w1.visited);
        forall u
          ensures HasType(first + rest, u) <==> u == es[0].typ || HasType(rest, u)
        {
          HasTypeAppend(first, rest, u);
        }
      } else {
        assert w1.visited == w.visited;
      }
    }
  }

  lemma FirstNew(first: seq<Scan>, rest: seq<Scan>, visited: set<TypeId>)
    requires |first| == 1 && first[0].typ in visited && DistinctTypes(rest)
    requires forall k :: 0 <= k < |rest| ==> rest[k].typ !in visited
    ensures DistinctTypes(first + rest)
  {
    DistinctAppend(first, rest);
  }

  // What is known of the scans from a round on: they are of types not visited before, on
  // nearest paths at least as long as level, each type once, and none is missing.
  ghost predicate Orderly(g: Graph, t: TypeId, visited: set<TypeId>, scans: seq<Scan>, level: nat) {
    && DistinctTypes(scans)
    && (forall k :: 0 <= k < |scans| ==> OnNearest(g, t, visited, scans[k], level))
    && (forall s: Index {:trigger Leads(g, t, s)} :: Leads(g, t, s).Some? ==>
          Leads(g, t, s).value in visited || HasType(scans, Leads(g, t, s).value))
  }

  ghost predicate OnNearest(g: Graph, t: TypeId, visited: set<TypeId>, sc: Scan, level: nat) {
    && sc.typ in g && sc.typ !in visited
    && Leads(g, t, sc.index) == Some(sc.typ) && Nearest(g, t, sc.index) && |sc.index| >= level
  }

  lemma NewNearest(g: Graph, t: TypeId, visited: set<TypeId>, queue: seq<Entry>, fields: seq<Field>, level: nat,
      s: Index)
    requires Ready(g, t, visited, queue, fields, level)
    requires |s| == level && Leads(g, t, s).Some? && Leads(g, t, s).value !in visited
    ensures Nearest(g, t, s)
  {
  }

  lemma {:induction false} ScansOrderly(g: Graph, t: TypeId, visited: set<TypeId>, queue: seq<Entry>,
      count: map<TypeId, nat>,
                                        fields: seq<Field>, level: nat)
    requires visited <= g.Keys && Closed(g) && t in g && Ready(g, t, visited, queue, fields, level)
    ensures Orderly(g, t, visited, ScansFrom(g, visited, queue, count), level)
    decreases |g.Keys - visited|, |queue|
  {
    hide Ready, Round, Orderly, ScansOf;
    if queue == [] {
      NothingMissing(g, t, visited, fields, level);
    } else {
      var w := Round(g, visited, queue, count, fields);
      RoundProgress(g, visited, queue, count, fields);
      RoundProgress(g, visited, queue, count, []);
      RoundSplits(g, visited, queue, count, fields);
      RoundReady(g, t, visited, queue, count, fields, level);
      ScansOrderly(g, t, w.visited, w.next, w.nextCount, w.fields, level + 1);
      RoundOrderly(g, t, visited, queue, count, fields, level, ScansFrom(g, w.visited, w.next, w.nextCount));
    }
  }

  lemma NothingMissing(g: Graph, t: TypeId, visited: set<TypeId>, fields: seq<Field>, level: nat)
    requires Ready(g, t, visited, [], fields, level)
    ensures Orderly(g, t, visited, [], level)
  {
    forall s: Index | Leads(g, t, s).Some?
      ensures Leads(g, t, s).value in visited
    {
      AllVisited(g, t, visited, fields, level, s);
    }
  }

  lemma RoundOrderly(g: Graph, t: TypeId, visited: set<TypeId>, queue: seq<Entry>, count: map<TypeId, nat>,
      fields: seq<Field>,
                     level: nat, later: seq<Scan>)
    requires visited <= g.Keys && Closed(g) && t in g && Ready(g, t, visited, queue, fields, level)
    requires Orderly(g, t, Round(g, visited, queue, count, fields).visited, later, level + 1)
    ensures Orderly(g, t, visited, ScansOf(g, visited, queue, count) + later, level)
  {
    var w0 := Work(visited, [], map[], fields);
    var now := ScansOf(g, visited, queue, count);
    var visited' := Round(g, visited, queue, count, fields).visited;
    QueueInGraph(g, t, visited, queue, fields, level);
    RoundScans(g, t, w0, queue, count, level);
    forall k | 0 <= k < |now|
      ensures OnNearest(g, t, visited, now[k], level)
    {
      NewNearest(g, t, visited, queue, fields, level, now[k].index);
    }
    hide Ready, Round, ScansOf, Nearest;
    assert forall u :: u in visited' <==> u in visited || HasType(now, u);
    Joined(g, t, visited, visited', now, later, level);
  }

  lemma Joined(g: Graph, t: TypeId, visited: set<TypeId>, visited': set<TypeId>, now: seq<Scan>, later: seq<Scan>,
      level: nat)
    requires DistinctTypes(now) && forall k :: 0 <= k < |now| ==> OnNearest(g, t, visited, now[k], level)
    requires forall u :: u in visited' <==> u in visited || HasType(now, u)
    requires Orderly(g, t, visited', later, level + 1)
    ensures Orderly(g, t, visited, now + later, level)
  {
    hide Nearest;
    forall u | HasType(now, u)
      ensures !HasType(later, u)
    {
      assert u in visited';
    }
    DistinctAppend(now, later);
    forall k | 0 <= k < |now + later|
      ensures OnNearest(g, t, visited, (now + later)[k], level)
    {
      if k >= |now| {
        assert OnNearest(g, t, visited', later[k - |now|], level + 1);
      }
    }
    forall s: Index | Leads(g, t, s).Some?
      ensures Leads(g, t, s).value in visited || HasType(now + later, Leads(g, t, s).value)
    {
      HasTypeAppend(now, later, Leads(g, t, s).value);
    }
  }

  /** Every type that some path of embedded structs leads to is scanned exactly once, on a path
      than which none is shorter. */
  lemma ScannedOnce(g: Graph, t: TypeId)
    requires Closed(g) && t in g
    ensures Orderly(g, t, {}, Scans(g, t), 0)
  {
    SearchStarts(g, t);
    ScansOrderly(g, t, {}, [Entry(t, [])], map[], [], 0);
  }

  // ---- the counts ----

  // In how many places the types scanned at a level embed u.
  function EdgesAt(g: Graph, scans: seq<Scan>, level: int, u: TypeId): nat {
    if scans == [] then 0 else
      (if |scans[0].index| == level && scans[0].typ in g then EdgesFrom(g[scans[0].typ], 0, u) else 0)
      + EdgesAt(g, scans[1..], level, u)
  }

  lemma {:induction false} EdgesAppend(g: Graph, a: seq<Scan>, b: seq<Scan>, level: int, u: TypeId)
    ensures EdgesAt(g, a + b, level, u) == EdgesAt(g, a, level, u) + EdgesAt(g, b, level, u)
  {
    if a == [] {
      assert a + b == b;
    } else {
      assert (a + b)[1..] == a[1..] + b;
      EdgesAppend(g, a[1..], b, level, u);
    }
  }

  lemma {:induction false} NoEdges(g: Graph, scans: seq<Scan>, level: int, u: TypeId)
    requires forall k :: 0 <= k < |scans| ==> |scans[k].index| != level
    ensures EdgesAt(g, scans, level, u) == 0
  {
    if scans != [] {
      NoEdges(g, scans[1..], level, u);
    }
  }

  // The counter of a round, as a sum over its scans.
  lemma {:induction false} RoundEdges(g: Graph, visited: set<TypeId>, es: seq<Entry>, count: map<TypeId, nat>,
      level: nat, u: TypeId)
    requires forall i :: 0 <= i < |es| ==> |es[i].index| == level
    ensures EdgesAt(g, ScansOf(g, visited, es, count), level, u) == Embeddings(g, visited, es, u)
    ensures forall k :: 0 <= k < |ScansOf(g, visited, es, count)| ==> |ScansOf(g, visited, es, count)[k].index| == level
    decreases |es|
  {
    if es != [] {
      if es[0].typ in visited || es[0].typ !in g {
        RoundEdges(g, visited, es[1..], count, level, u);
      } else {
        RoundEdges(g, visited + {es[0].typ}, es[1..], count, level, u);
        var rest := ScansOf(g, visited + {es[0].typ}, es[1..], count);
        var first := [Scan(es[0].typ, es[0].index, CountOf(count, es[0].typ))];
        assert (first + rest)[1..] == rest;
      }
    }
  }

  // The count of every scan is the number of places in which the scans of the level before
  // embed its type.
  ghost predicate CountedIn(g: Graph, all: seq<Scan>, sc: Scan) {
    sc.embeddings == EdgesAt(g, all, |sc.index| - 1, sc.typ)
  }

  ghost predicate AllCounted(g: Graph, all: seq<Scan>, scans: seq<Scan>) {
    forall k :: 0 <= k < |scans| ==> CountedIn(g, all, scans[k])
  }

  lemma {:induction false} ScansCounted(g: Graph, t: TypeId, visited: set<TypeId>, queue: seq<Entry>,
      count: map<TypeId, nat>,
                                        fields: seq<Field>, level: nat, before: seq<Scan>)
    requires visited <= g.Keys && Closed(g) && t in g && Ready(g, t, visited, queue, fields, level)
    requires forall u :: CountOf(count, u) == EdgesAt(g, before, level - 1, u)
    requires forall k :: 0 <= k < |before| ==> |before[k].index| < level
    ensures AllCounted(g, before + ScansFrom(g, visited, queue, count), ScansFrom(g, visited, queue, count))
    decreases |g.Keys - visited|, |queue|
  {
    hide Ready, Round, ScansOf, CountedIn, EdgesAt, Orderly;
    if queue != [] {
      var w := Round(g, visited, queue, count, fields);
      RoundProgress(g, visited, queue, count, fields);
      RoundProgress(g, visited, queue, count, []);
      RoundSplits(g, visited, queue, count, fields);
      RoundReady(g, t, visited, queue, count, fields, level);
      var now := ScansOf(g, visited, queue, count);
      var later := ScansFrom(g, w.visited, w.next, w.nextCount);
      NextCounts(g, t, visited, queue, count, fields, level, before);
      ScansCounted(g, t, w.visited, w.next, w.nextCount, w.fields, level + 1, before + now);
      ScansOrderly(g, t, w.visited, w.next, w.nextCount, w.fields, level + 1);
      NowCounted(g, t, visited, queue, count, fields, level, before, w.visited, later);
      assert (before + now) + later == before + (now + later);
      forall k | 0 <= k < |now + later|
        ensures CountedIn(g, before + (now + later), (now + later)[k])
      {
        if k >= |now| {
          assert CountedIn(g, (before + now) + later, later[k - |now|]);
        }
      }
    }
  }

  lemma QueueLevels(g: Graph, t: TypeId, visited: set<TypeId>, queue: seq<Entry>, fields: seq<Field>, level: nat)
    requires Ready(g, t, visited, queue, fields, level)
    ensures forall i :: 0 <= i < |queue| ==> |queue[i].index| == level
    ensures QueueOk(g, t, queue, level)
  {
  }

  lemma NextCounts(g: Graph, t: TypeId, visited: set<TypeId>, queue: seq<Entry>, count: map<TypeId, nat>,
      fields: seq<Field>,
                   level: nat, before: seq<Scan>)
    requires visited <= g.Keys && Ready(g, t, visited, queue, fields, level)
    requires forall k :: 0 <= k < |before| ==> |before[k].index| < level
    ensures var now := ScansOf(g, visited, queue, count);
            && (forall u ::
                  CountOf(Round(g, visited, queue, count, fields).nextCount, u) == EdgesAt(g, before + now, level, u))
            && (forall k :: 0 <= k < |before + now| ==> |(before + now)[k].index| < level + 1)
  {
    QueueLevels(g, t, visited, queue, fields, level);
    hide Ready, Round, ScansOf, EdgesAt;
    var now := ScansOf(g, visited, queue, count);
    RoundEdges(g, visited, queue, count, level, 0);
    forall u
      ensures CountOf(Round(g, visited, queue, count, fields).nextCount, u) == EdgesAt(g, before + now, level, u)
    {
      RoundCounts(g, visited, queue, count, fields, u);
      RoundEdges(g, visited, queue, count, level, u);
      EdgesAppend(g, before, now, level, u);
      NoEdges(g, before, level, u);
    }
  }

  lemma NowCounted(g: Graph, t: TypeId, visited: set<TypeId>, queue: seq<Entry>, count: map<TypeId, nat>,
      fields: seq<Field>,
                   level: nat, before: seq<Scan>, visited': set<TypeId>, later: seq<Scan>)
    requires visited <= g.Keys && Closed(g) && t in g && Ready(g, t, visited, queue, fields, level)
    requires forall u :: CountOf(count, u) == EdgesAt(g, before, level - 1, u)
    requires Orderly(g, t, visited', later, level + 1)
    ensures var now := ScansOf(g, visited, queue, count);
            forall k :: 0 <= k < |now| ==> CountedIn(g, before + (now + later), now[k])
  {
    hide Searching, AllDone, ScansOf, EdgesAt;
    QueueLevels(g, t, visited, queue, fields, level);
    QueueInGraph(g, t, visited, queue, fields, level);
    RoundScans(g, t, Work(visited, [], map[], fields), queue, count, level);
    SumOnlyBefore(g, t, count, level, before, ScansOf(g, visited, queue, count), visited', later);
  }

  lemma SumOnlyBefore(g: Graph, t: TypeId, count: map<TypeId, nat>, level: nat, before: seq<Scan>, now: seq<Scan>,
                      visited': set<TypeId>, later: seq<Scan>)
    requires forall k :: 0 <= k < |now| ==> InRound(g, t, level, count, now[k])
    requires forall u :: CountOf(count, u) == EdgesAt(g, before, level - 1, u)
    requires Orderly(g, t, visited', later, level + 1)
    ensures forall k :: 0 <= k < |now| ==> CountedIn(g, before + (now + later), now[k])
  {
    hide EdgesAt, Leads, Nearest;
    forall k | 0 <= k < |later|
      ensures |later[k].index| != level - 1
    {
      assert OnNearest(g, t, visited', later[k], level + 1);
    }
    forall k | 0 <= k < |now|
      ensures CountedIn(g, before + (now + later), now[k])
    {
      var u := now[k].typ;
      assert InRound(g, t, level, count, now[k]);
      EdgesAppend(g, before, now + later, level - 1, u);
      EdgesAppend(g, now, later, level - 1, u);
      NoEdges(g, now, level - 1, u);
      NoEdges(g, later, level - 1, u);
    }
  }

  /** The count of a scan is the number of places in which the types scanned at the level before
      embed its type; for the type the search starts at it is zero. */
  lemma EmbeddingsCounted(g: Graph, t: TypeId)
    requires Closed(g) && t in g
    ensures AllCounted(g, Scans(g, t), Scans(g, t))
  {
    hide CountedIn;
    SearchStarts(g, t);
    var none: seq<Scan> := [];
    var queue, count: map<TypeId, nat> := [Entry(t, [])], map[];
    ScansCounted(g, t, {}, queue, count, [], 0, none);
    assert none + Scans(g, t) == Scans(g, t);
  }

  // ---- how often a field is collected ----

  // f is a recorded field, from field i on, of the type that index leads to.
  predicate OwnAt(sfs: seq<StructField>, i: nat, index: Index, f: Field) {
    && |f.index| == |index| + 1
    && f.index[..|index|] == index
    && i <= f.index[|index|] < |sfs|
    && Records(sfs[f.index[|index|]])
    && f == Recorded(sfs[f.index[|index|]], f.index)
  }

  predicate IsOwn(g: Graph, sc: Scan, f: Field) {
    sc.typ in g && OwnAt(g[sc.typ], 0, sc.index, f)
  }

  function Copies(twice: bool): nat {
    if twice then 2 else 1
  }

  lemma {:induction false} OwnCopies(sfs: seq<StructField>, i: nat, index: Index, twice: bool, f: Field)
    ensures multiset(OwnFrom(sfs, i, index, twice))[f] == if OwnAt(sfs, i, index, f) then Copies(twice) else 0
    decreases |sfs| - i
  {
    if i < |sfs| {
      OwnCopies(sfs, i + 1, index, twice, f);
      var rest := OwnFrom(sfs, i + 1, index, twice);
      AtIndex(sfs, i, index, f);
      if Records(sfs[i]) {
        var h := Recorded(sfs[i], index + [i]);
        CopiesAdd(h, twice, rest, f);
        assert f == h <==> f.index == index + [i] && OwnAt(sfs, i, index, f);
      }
    }
  }

  // Whether f is the field at i is seen at its index.
  lemma AtIndex(sfs: seq<StructField>, i: nat, index: Index, f: Field)
    requires i < |sfs|
    ensures OwnAt(sfs, i, index, f) <==>
        OwnAt(sfs, i + 1, index, f) || (Records(sfs[i]) && f == Recorded(sfs[i], index + [i]))
    ensures OwnAt(sfs, i + 1, index, f) ==> f.index != index + [i]
  {
    if OwnAt(sfs, i, index, f) {
      assert f.index == index + [f.index[|index|]];
    }
  }

  lemma CopiesAdd(h: Field, twice: bool, rest: seq<Field>, f: Field)
    ensures multiset((if twice then [h, h] else [h]) + rest)[f]
         == multiset(rest)[f] + if f == h then Copies(twice) else 0
  {
    if twice {
      assert multiset([h, h] + rest) == multiset([h, h]) + multiset(rest);
    }
  }

  predicate Owner(g: Graph, scans: seq<Scan>, k: int, f: Field) {
    0 <= k < |scans| && IsOwn(g, scans[k], f)
  }

  predicate DistinctIndexes(scans: seq<Scan>) {
    forall i, j :: 0 <= i < j < |scans| ==> scans[i].index != scans[j].index
  }

  // A field has at most one owner, and is collected as often as its owner says.
  lemma {:induction false} AllCopies(g: Graph, scans: seq<Scan>, f: Field)
    requires DistinctIndexes(scans)
    ensures forall k :: Owner(g, scans, k, f) ==> multiset(OwnOfAll(g, scans))[f] == Copies(scans[k].embeddings > 1)
    ensures (forall k :: !Owner(g, scans, k, f)) ==> multiset(OwnOfAll(g, scans))[f] == 0
  {
    if scans != [] {
      AllCopies(g, scans[1..], f);
      if scans[0].typ in g {
        OwnCopies(g[scans[0].typ], 0, scans[0].index, scans[0].embeddings > 1, f);
      }
      assert multiset(OwnOfAll(g, scans)) == multiset(Own(g, scans[0])) + multiset(OwnOfAll(g, scans[1..]));
      assert Owner(g, scans, 0, f) <==> IsOwn(g, scans[0], f);
      forall k | Owner(g, scans[1..], k, f)
        ensures Owner(g, scans, k + 1, f)
      {
      }
      forall k | Owner(g, scans, k, f) && k > 0
        ensures Owner(g, scans[1..], k - 1, f)
      {
      }
      forall i, j | Owner(g, scans, i, f) && Owner(g, scans, j, f)
        ensures i == j
      {
        OneOwner(g, scans, i, j, f);
      }
    }
  }

  lemma OneOwner(g: Graph, scans: seq<Scan>, i: nat, j: nat, f: Field)
    requires DistinctIndexes(scans) && Owner(g, scans, i, f) && Owner(g, scans, j, f)
    ensures i == j
  {
    assert scans[i].index == f.index[..|f.index| - 1] == scans[j].index;
  }

  lemma IndexesDistinct(g: Graph, t: TypeId, scans: seq<Scan>)
    requires Orderly(g, t, {}, scans, 0)
    ensures DistinctIndexes(scans)
  {
    forall i, j | 0 <= i < j < |scans|
      ensures scans[i].index != scans[j].index
    {
      assert OnNearest(g, t, {}, scans[i], 0) && OnNearest(g, t, {}, scans[j], 0);
    }
  }

  /** A recorded field of a scanned type is collected twice if more than one place at the level
      before embeds the type, and once otherwise; and nothing else is collected. */
  lemma CollectedCopies(g: Graph, t: TypeId, f: Field)
    requires Closed(g) && t in g
    ensures var scans := Scans(g, t);
            && (forall k :: Owner(g, scans, k, f) ==>
                  multiset(Collected(g, t))[f]
                  == if EdgesAt(g, scans, |scans[k].index| - 1, scans[k].typ) > 1 then 2 else 1)
            && (f in Collected(g, t) <==> exists k :: Owner(g, scans, k, f))
  {
    hide Orderly, OwnOfAll, EdgesAt;
    var scans := Scans(g, t);
    ScannedOnce(g, t);
    IndexesDistinct(g, t, scans);
    EmbeddingsCounted(g, t);
    CollectedByScan(g, t);
    AllCopies(g, scans, f);
    assert f in Collected(g, t) <==> multiset(Collected(g, t))[f] > 0;
    forall k | Owner(g, scans, k, f)
      ensures multiset(Collected(g, t))[f] == if EdgesAt(g, scans, |scans[k].index| - 1, scans[k].typ) > 1 then 2 else 1
    {
      assert CountedIn(g, scans, scans[k]);
    }
  }
}
