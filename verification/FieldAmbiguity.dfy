/** The search and the rule of the Go language for embedded fields.

Go selects a field if no other path of embedded structs leads to a field of the same name that
is as near.  The search looks at one path to every type and knows of the others only by the
count of one level, so a type that is embedded once, in a type that itself is embedded twice, is
taken for unambiguous. */
module FieldAmbiguity {
  import opened Options
  import opened FieldSearch
  import opened FieldScans
  import opened FieldDominance

  // Another path of the same length leads to the same type.
  ghost predicate HasTwin(g: Graph, t: TypeId, s: Index) {
    exists r: Index {:trigger Leads(g, t, r)} :: r != s && |r| == |s| && Leads(g, t, r) == Leads(g, t, s)
  }

  // A recorded field at the end of any path, as reflection finds it.
  predicate Reachable(g: Graph, t: TypeId, h: Field) {
    && FieldAt(g, t, h.index).Some?
    && Records(FieldAt(g, t, h.index).value)
    && h == Recorded(FieldAt(g, t, h.index).value, h.index)
  }

  // The rule of Go, on all paths, with the promotion of tagged fields.
  ghost predicate Selected(g: Graph, t: TypeId, f: Field) {
    Reachable(g, t, f) && forall h :: Reachable(g, t, h) ==> !Outdoes(h, f)
  }

  // ---- the paths that the counts count ----

  function PathsFrom(sfs: seq<StructField>, i: nat, index: Index, u: TypeId): seq<Index>
    decreases |sfs| - i
  {
    if i >= |sfs| then []
    else (if Embeds(sfs[i]) && sfs[i].typ == u then [index + [i]] else []) + PathsFrom(sfs, i + 1, index, u)
  }

  function PathsAt(g: Graph, scans: seq<Scan>, level: int, u: TypeId): seq<Index> {
    if scans == [] then [] else
      (if |scans[0].index| == level && scans[0].typ in g then PathsFrom(g[scans[0].typ], 0, scans[0].index, u) else [])
      + PathsAt(g, scans[1..], level, u)
  }

  // r is index and one more step, by an embedded field of type u from i on.
  predicate StepTo(sfs: seq<StructField>, i: nat, index: Index, u: TypeId, r: Index) {
    && |r| == |index| + 1 && r[..|index|] == index
    && i <= r[|index|] < |sfs| && Embeds(sfs[r[|index|]]) && sfs[r[|index|]].typ == u
  }

  predicate Distinct(rs: seq<Index>) {
    forall i, j :: 0 <= i < j < |rs| ==> rs[i] != rs[j]
  }

  lemma {:induction false} PathsFromCounted(sfs: seq<StructField>, i: nat, index: Index, u: TypeId)
    ensures |PathsFrom(sfs, i, index, u)| == EdgesFrom(sfs, i, u)
    ensures forall r :: r in PathsFrom(sfs, i, index, u) <==> StepTo(sfs, i, index, u, r)
    ensures Distinct(PathsFrom(sfs, i, index, u))
    decreases |sfs| - i
  {
    if i < |sfs| {
      PathsFromCounted(sfs, i + 1, index, u);
      forall r
        ensures StepTo(sfs, i, index, u, r) <==>
                  StepTo(sfs, i + 1, index, u, r) || (r == index + [i] && Embeds(sfs[i]) && sfs[i].typ == u)
        ensures StepTo(sfs, i + 1, index, u, r) ==> r != index + [i]
      {
        if StepTo(sfs, i, index, u, r) {
          assert r == index + [r[|index|]];
        }
      }
      var first := if Embeds(sfs[i]) && sfs[i].typ == u then [index + [i]] else [];
      DistinctJoin(first, PathsFrom(sfs, i + 1, index, u));
    }
  }

  // r is a step from the type that scan k leads to.
  predicate StepFrom(g: Graph, scans: seq<Scan>, level: int, u: TypeId, r: Index, k: int) {
    && 0 <= k < |scans| && |scans[k].index| == level && scans[k].typ in g
    && StepTo(g[scans[k].typ], 0, scans[k].index, u, r)
  }

  lemma {:induction false} PathsCounted(g: Graph, scans: seq<Scan>, level: int, u: TypeId)
    requires DistinctIndexes(scans)
    ensures |PathsAt(g, scans, level, u)| == EdgesAt(g, scans, level, u)
    ensures forall r :: r in PathsAt(g, scans, level, u) <==> exists k :: StepFrom(g, scans, level, u, r, k)
    ensures Distinct(PathsAt(g, scans, level, u))
  {
    if scans != [] {
      PathsCounted(g, scans[1..], level, u);
      var first :=
        if |scans[0].index| == level && scans[0].typ in g then PathsFrom(g[scans[0].typ], 0, scans[0].index, u) else [];
      if scans[0].typ in g {
        PathsFromCounted(g[scans[0].typ], 0, scans[0].index, u);
      }
      assert forall r :: r in first <==> StepFrom(g, scans, level, u, r, 0);
      FirstScan(g, scans, level, u);
      hide StepTo, StepFrom;
      DistinctJoin(first, PathsAt(g, scans[1..], level, u));
      forall r
        ensures r in PathsAt(g, scans, level, u) <==> exists k :: StepFrom(g, scans, level, u, r, k)
      {
        assert r in PathsAt(g, scans, level, u) <==> r in first || r in PathsAt(g, scans[1..], level, u);
      }
    }
  }

  lemma FirstScan(g: Graph, scans: seq<Scan>, level: int, u: TypeId)
    requires scans != [] && DistinctIndexes(scans)
    ensures forall r :: (exists k :: StepFrom(g, scans, level, u, r, k)) <==>
              StepFrom(g, scans, level, u, r, 0) || exists k :: StepFrom(g, scans[1..], level, u, r, k)
    ensures forall r :: StepFrom(g, scans, level, u, r, 0) ==> !exists k :: StepFrom(g, scans[1..], level, u, r, k)
  {
    forall r, k | StepFrom(g, scans[1..], level, u, r, k)
      ensures StepFrom(g, scans, level, u, r, k + 1)
    {
    }
    forall r, k | StepFrom(g, scans, level, u, r, k) && k > 0
      ensures StepFrom(g, scans[1..], level, u, r, k - 1)
    {
    }
  }

  lemma DistinctJoin(a: seq<Index>, b: seq<Index>)
    requires Distinct(a) && Distinct(b) && forall r :: r in a ==> r !in b
    ensures Distinct(a + b)
  {
    forall i, j | 0 <= i < j < |a + b|
      ensures (a + b)[i] != (a + b)[j]
    {
      if i < |a| <= j {
        assert a[i] in a && b[j - |a|] in b;
      }
    }
  }

  // ---- twins ----

  // The only scan of a type: its path is as short as any.
  lemma ScanOf(g: Graph, t: TypeId, s: Index) returns (k: nat)
    requires Closed(g) && t in g && Leads(g, t, s).Some?
    ensures var scans := Scans(g, t);
            && k < |scans| && scans[k].typ == Leads(g, t, s).value && scans[k].typ in g
            && Leads(g, t, scans[k].index) == Leads(g, t, s) && |scans[k].index| <= |s|
            && Nearest(g, t, scans[k].index)
  {
    ScannedOnce(g, t);
    var scans := Scans(g, t);
    assert HasType(scans, Leads(g, t, s).value);
    k :| 0 <= k < |scans| && scans[k].typ == Leads(g, t, s).value;
    assert OnNearest(g, t, {}, scans[k], 0);
  }

  lemma StepLeads(g: Graph, t: TypeId, s: Index, i: nat)
    requires Leads(g, t, s).Some? && Leads(g, t, s).value in g && i < |g[Leads(g, t, s).value]|
    requires Embeds(g[Leads(g, t, s).value][i])
    ensures Leads(g, t, s + [i]) == Some(g[Leads(g, t, s).value][i].typ)
  {
    assert (s + [i])[..|s|] == s;
  }

  // What the counted paths are: they lead to the type, one step beyond a scan.
  lemma CountedPath(g: Graph, t: TypeId, level: nat, u: TypeId, r: Index, k: nat)
    requires Closed(g) && t in g && StepFrom(g, Scans(g, t), level, u, r, k)
    ensures |r| == level + 1 && Leads(g, t, r) == Some(u)
  {
    var scans := Scans(g, t);
    ScannedOnce(g, t);
    assert OnNearest(g, t, {}, scans[k], 0);
    assert r == scans[k].index + [r[level]];
    StepLeads(g, t, scans[k].index, r[level]);
  }

  // A path to u as short as any continues a path to a type that is scanned at the level before.
  lemma PathCounted(g: Graph, t: TypeId, s: Index) returns (k: nat)
    requires Closed(g) && t in g && s != [] && Leads(g, t, s).Some? && Nearest(g, t, s)
    ensures var scans := Scans(g, t); var up := Leads(g, t, s[..|s| - 1]);
            && up.Some? && k < |scans| && scans[k].typ == up.value
            && StepFrom(g, scans, |s| - 1, Leads(g, t, s).value, scans[k].index + [s[|s| - 1]], k)
  {
    var up, i := s[..|s| - 1], s[|s| - 1];
    k := ScanOf(g, t, up);
    var p := Scans(g, t)[k].index;
    StepLeads(g, t, p, i);
    assert up + [i] == s;
    assert Leads(g, t, p + [i]) == Leads(g, t, s);
    assert (p + [i])[..|p|] == p;
  }

  lemma TwoMembers(rs: seq<Index>, a: Index, b: Index)
    requires a in rs && b in rs && a != b
    ensures |rs| >= 2
  {
  }

  // A type that is embedded twice at the level before has a twin path.
  lemma CountedTwin(g: Graph, t: TypeId, s: Index)
    requires Closed(g) && t in g && s != [] && Leads(g, t, s).Some?
    requires EdgesAt(g, Scans(g, t), |s| - 1, Leads(g, t, s).value) > 1
    ensures HasTwin(g, t, s)
  {
    var scans, u, level := Scans(g, t), Leads(g, t, s).value, |s| - 1;
    ScannedOnce(g, t);
    IndexesDistinct(g, t, scans);
    PathsCounted(g, scans, level, u);
    var rs := PathsAt(g, scans, level, u);
    var r := if rs[0] == s then rs[1] else rs[0];
    assert r in rs && r != s;
    var k :| StepFrom(g, scans, level, u, r, k);
    CountedPath(g, t, level, u, r, k);
  }

  // A twin of the path without its last step gives one of the path.
  lemma InheritedTwin(g: Graph, t: TypeId, s: Index)
    requires Closed(g) && t in g && s != [] && Leads(g, t, s).Some? && HasTwin(g, t, s[..|s| - 1])
    ensures HasTwin(g, t, s)
  {
    var up, i := s[..|s| - 1], s[|s| - 1];
    var r: Index :| r != up && |r| == |up| && Leads(g, t, r) == Leads(g, t, up);
    StepLeads(g, t, r, i);
    assert up + [i] == s && (r + [i])[..|r|] == r;
    assert r + [i] != s;
  }

  lemma TwoCounted(g: Graph, t: TypeId, level: int, u: TypeId, a: Index, b: Index, k: nat, l: nat)
    requires Closed(g) && t in g && a != b
    requires StepFrom(g, Scans(g, t), level, u, a, k) && StepFrom(g, Scans(g, t), level, u, b, l)
    ensures EdgesAt(g, Scans(g, t), level, u) > 1
  {
    hide StepFrom, Orderly;
    ScannedOnce(g, t);
    IndexesDistinct(g, t, Scans(g, t));
    PathsCounted(g, Scans(g, t), level, u);
    TwoMembers(PathsAt(g, Scans(g, t), level, u), a, b);
  }

  // Two paths that continue the path of one scan by the same step differ before it.
  lemma TwinBefore(g: Graph, t: TypeId, s: Index, r: Index, k: nat, l: nat)
    requires s != [] && r != s && |r| == |s|
    requires k < |Scans(g, t)| && l < |Scans(g, t)| && DistinctTypes(Scans(g, t)) && DistinctIndexes(Scans(g, t))
    requires Scans(g, t)[k].index + [s[|s| - 1]] == Scans(g, t)[l].index + [r[|r| - 1]]
    requires Leads(g, t, s[..|s| - 1]) == Some(Scans(g, t)[k].typ)
    requires Leads(g, t, r[..|r| - 1]) == Some(Scans(g, t)[l].typ)
    ensures HasTwin(g, t, s[..|s| - 1])
  {
    hide Scans, Leads;
    var n := |s| - 1;
    SameStep(Scans(g, t)[k].index, s[n], Scans(g, t)[l].index, r[n]);
    assert k == l;
    assert s == s[..n] + [s[n]] && r == r[..n] + [r[n]];
    assert r[..n] != s[..n] && Leads(g, t, r[..n]) == Leads(g, t, s[..n]);
  }

  // A twin comes from one of the two.
  lemma TwinCounted(g: Graph, t: TypeId, s: Index)
    requires Closed(g) && t in g && s != [] && Leads(g, t, s).Some? && Nearest(g, t, s) && HasTwin(g, t, s)
    ensures HasTwin(g, t, s[..|s| - 1]) || EdgesAt(g, Scans(g, t), |s| - 1, Leads(g, t, s).value) > 1
  {
    hide Leads, Scans, EdgesAt, StepFrom, Orderly;
    var r: Index :| r != s && |r| == |s| && Leads(g, t, r) == Leads(g, t, s);
    var k := PathCounted(g, t, s);
    var l := PathCounted(g, t, r);
    var a, b := Scans(g, t)[k].index + [s[|s| - 1]], Scans(g, t)[l].index + [r[|r| - 1]];
    if a != b {
      TwoCounted(g, t, |s| - 1, Leads(g, t, s).value, a, b, k, l);
    } else {
      ScannedDistinct(g, t);
      TwinBefore(g, t, s, r, k, l);
    }
  }

  lemma ScannedDistinct(g: Graph, t: TypeId)
    requires Closed(g) && t in g
    ensures DistinctTypes(Scans(g, t)) && DistinctIndexes(Scans(g, t))
  {
    ScannedOnce(g, t);
    IndexesDistinct(g, t, Scans(g, t));
  }

  lemma SameStep(p: Index, i: nat, q: Index, j: nat)
    requires p + [i] == q + [j]
    ensures p == q && i == j
  {
    assert |p + [i]| == |p| + 1 && |q + [j]| == |q| + 1;
    assert (p + [i])[..|p|] == p && (q + [j])[..|q|] == q;
    assert (p + [i])[|p|] == i && (q + [j])[|q|] == j;
  }

  /** Several nearest paths lead to a type exactly if the count says so or several lead to the
      type in which the path of the scan embeds it; the second is what the count misses. */
  lemma TwinsDecide(g: Graph, t: TypeId, k: nat)
    requires Closed(g) && t in g && k < |Scans(g, t)|
    ensures var s := Scans(g, t)[k].index;
            HasTwin(g, t, s) <==>
              s != [] && (EdgesAt(g, Scans(g, t), |s| - 1, Scans(g, t)[k].typ) > 1 || HasTwin(g, t, s[..|s| - 1]))
  {
    hide HasTwin, EdgesAt, Leads, Nearest, Scans;
    var sc := Scans(g, t)[k];
    ScannedOnce(g, t);
    assert OnNearest(g, t, {}, sc, 0);
    RootAlone(g, t);
    if sc.index != [] {
      if HasTwin(g, t, sc.index) {
        TwinCounted(g, t, sc.index);
      }
      if HasTwin(g, t, sc.index[..|sc.index| - 1]) {
        InheritedTwin(g, t, sc.index);
      }
      if EdgesAt(g, Scans(g, t), |sc.index| - 1, sc.typ) > 1 {
        CountedTwin(g, t, sc.index);
      }
    }
  }

  lemma RootAlone(g: Graph, t: TypeId)
    ensures !HasTwin(g, t, [])
  {
  }

  // ---- what is selected ----

  lemma OwnerReachable(g: Graph, t: TypeId, k: nat, f: Field)
    requires Closed(g) && t in g && Owner(g, Scans(g, t), k, f)
    ensures Reachable(g, t, f) && f.index[..|f.index| - 1] == Scans(g, t)[k].index
    ensures Leads(g, t, f.index[..|f.index| - 1]) == Some(Scans(g, t)[k].typ)
  {
    hide Scans;
    ScannedOnce(g, t);
    assert OnNearest(g, t, {}, Scans(g, t)[k], 0);
  }

  // The copy of a field that the search records.
  lemma ScannedCopy(g: Graph, t: TypeId, h: Field) returns (k: nat, c: Field)
    requires Closed(g) && t in g && Reachable(g, t, h)
    ensures Owner(g, Scans(g, t), k, c) && c.name == h.name && c.tagged == h.tagged && |c.index| <= |h.index|
    ensures c.index[|c.index| - 1] == h.index[|h.index| - 1]
    ensures Leads(g, t, h.index[..|h.index| - 1]) == Some(Scans(g, t)[k].typ)
  {
    hide Scans, Nearest;
    var s, i := h.index[..|h.index| - 1], h.index[|h.index| - 1];
    k := ScanOf(g, t, s);
    var p := Scans(g, t)[k].index;
    c := Recorded(g[Scans(g, t)[k].typ][i], p + [i]);
    assert (p + [i])[..|p|] == p && (p + [i])[|p|] == i;
  }

  // Reachable fields with the same path and the same last step are one field.
  lemma SameReachable(g: Graph, t: TypeId, f: Field, h: Field)
    requires Reachable(g, t, f) && Reachable(g, t, h)
    ensures f.index != [] && h.index != []
    ensures f.index[|f.index| - 1] == h.index[|h.index| - 1] ==>
              f.index[..|f.index| - 1] == h.index[..|h.index| - 1] ==> f == h
  {
    var s, r := f.index[..|f.index| - 1], h.index[..|h.index| - 1];
    assert f.index == s + [f.index[|f.index| - 1]] && h.index == r + [h.index[|h.index| - 1]];
  }

  // A field that outdoes a winner is a copy of it on another path.
  lemma OutdoneByTwin(g: Graph, t: TypeId, f: Field, h: Field)
    requires Closed(g) && t in g && Wins(g, Scans(g, t), f) && Reachable(g, t, h) && Outdoes(h, f)
    ensures HasTwin(g, t, f.index[..|f.index| - 1])
  {
    hide Scans, Leads, EdgesAt;
    var k, c := ScannedCopy(g, t, h);
    assert c == f;
    OwnerReachable(g, t, k, f);
    var s, r := f.index[..|f.index| - 1], h.index[..|h.index| - 1];
    SameReachable(g, t, f, h);
    assert r != s && |r| == |s| && Leads(g, t, r) == Leads(g, t, s);
  }

  // A field of a type with a twin path has a copy that is as near.
  lemma TwinOutdoes(g: Graph, t: TypeId, f: Field)
    requires Reachable(g, t, f) && HasTwin(g, t, f.index[..|f.index| - 1])
    ensures !Selected(g, t, f)
  {
    var s, i := f.index[..|f.index| - 1], f.index[|f.index| - 1];
    var r: Index :| r != s && |r| == |s| && Leads(g, t, r) == Leads(g, t, s);
    var h := Recorded(FieldAt(g, t, f.index).value, r + [i]);
    assert (r + [i])[..|r|] == r && (r + [i])[|r|] == i;
    assert s + [i] == f.index && r + [i] != f.index;
    assert Reachable(g, t, h) && Outdoes(h, f);
  }

  lemma SelectedWins(g: Graph, t: TypeId, f: Field)
    requires Closed(g) && t in g && Selected(g, t, f)
    ensures Wins(g, Scans(g, t), f)
  {
    hide Scans, Leads, EdgesAt, FieldAt;
    var scans := Scans(g, t);
    var k, c := ScannedCopy(g, t, f);
    OwnerReachable(g, t, k, c);
    assert !Outdoes(c, f);
    assert c == f;
    var s := scans[k].index;
    if s == [] {
      NoEdges(g, scans, -1, scans[k].typ);
    } else if EdgesAt(g, scans, |s| - 1, scans[k].typ) > 1 {
      CountedTwin(g, t, s);
      TwinOutdoes(g, t, f);
    }
    forall l, h | Owner(g, scans, l, h)
      ensures !Outdoes(h, f)
    {
      OwnerReachable(g, t, l, h);
    }
  }

  /** typeFields returns exactly the fields that the rule of Go selects, and besides them the
      winners of types that several nearest paths lead to. */
  lemma RuleOfGo(g: Graph, t: TypeId, f: Field)
    requires Closed(g) && t in g
    ensures Selected(g, t, f) <==>
              Wins(g, Scans(g, t), f) && f.index != [] && !HasTwin(g, t, f.index[..|f.index| - 1])
  {
    hide Wins, Scans, Outdoes;
    if Selected(g, t, f) {
      SelectedWins(g, t, f);
      if HasTwin(g, t, f.index[..|f.index| - 1]) {
        TwinOutdoes(g, t, f);
        assert false;
      }
    }
    if Wins(g, Scans(g, t), f) {
      WinnerReachable(g, t, f);
      forall h | Reachable(g, t, h) && Outdoes(h, f)
        ensures HasTwin(g, t, f.index[..|f.index| - 1])
      {
        OutdoneByTwin(g, t, f, h);
      }
    }
  }

  lemma WinnerReachable(g: Graph, t: TypeId, f: Field)
    requires Closed(g) && t in g && Wins(g, Scans(g, t), f)
    ensures Reachable(g, t, f)
  {
    hide Scans, EdgesAt;
    var k :| Owner(g, Scans(g, t), k, f);
    OwnerReachable(g, t, k, f);
  }

  // ---- a diamond ----

  function Embed(u: TypeId): StructField {
    StructField("E", true, true, false, "", u, true)
  }

  const PLAIN := StructField("X", true, false, false, "", 5, false)

  // 0 embeds 1 and 2, which embed 3, which embeds 4, which has the field X.
  const DIAMOND: Graph := map[0 := [Embed(1), Embed(2)], 1 := [Embed(3)], 2 := [Embed(3)], 3 := [Embed(4)],
      4 := [PLAIN]]

  const X := Field("X", false, [0, 0, 0, 0], 5)

  function Queue(w: Work, u: TypeId, index: Index): Work {
    w.(nextCount := w.nextCount[u := CountOf(w.nextCount, u) + 1],
       next := if CountOf(w.nextCount, u) == 0 then w.next + [Entry(u, index)] else w.next)
  }

  // The scan of a type whose fields embed us.
  lemma {:induction false} ScanEmbeds(w: Work, sfs: seq<StructField>, i: nat, index: Index, twice: bool, u: TypeId)
    requires i < |sfs| && sfs[i] == Embed(u)
    ensures ScanFrom(w, sfs, i, index, twice) == ScanFrom(Queue(w, u, index + [i]), sfs, i + 1, index, twice)
  {
  }

  lemma RoundOfOne(g: Graph, visited: set<TypeId>, u: TypeId, index: Index, count: map<TypeId, nat>)
    requires u in g && u !in visited
    ensures Round(g, visited, [Entry(u, index)], count, [])
         == ScanFrom(Work(visited + {u}, [], map[], []), g[u], 0, index, CountOf(count, u) > 1)
    ensures ScansOf(g, visited, [Entry(u, index)], count) == [Scan(u, index, CountOf(count, u))]
  {
    var es := [Entry(u, index)];
    assert es[1..] == [];
    var w := ScanEntry(g, Work(visited, [], map[], []), es[0], count);
    assert ScanEntries(g, w, es[1..], count) == w;
  }

  lemma FirstRound()
    ensures Round(DIAMOND, {}, [Entry(0, [])], map[], [])
        == Work({0}, [Entry(1, [0]), Entry(2, [1])], map[1 := 1, 2 := 1], [])
    ensures ScansOf(DIAMOND, {}, [Entry(0, [])], map[]) == [Scan(0, [], 0)]
  {
    var w := Work({0}, [], map[], []);
    RoundOfOne(DIAMOND, {}, 0, [], map[]);
    assert {} + {0} == {0};
    ScanEmbeds(w, DIAMOND[0], 0, [], false, 1);
    assert [] + [0] == [0] && [] + [1] == [1] && [] + [Entry(1, [0])] == [Entry(1, [0])];
    var w1 := Queue(w, 1, [0]);
    assert w1 == Work({0}, [Entry(1, [0])], map[1 := 1], []);
    ScanEmbeds(w1, DIAMOND[0], 1, [], false, 2);
    assert Queue(w1, 2, [1]) == Work({0}, [Entry(1, [0]), Entry(2, [1])], map[1 := 1, 2 := 1], []);
  }

  lemma SecondRound()
    ensures var es := [Entry(1, [0]), Entry(2, [1])]; var count: map<TypeId, nat> := map[1 := 1, 2 := 1];
            && Round(DIAMOND, {0}, es, count, []) == Work({0, 1, 2}, [Entry(3, [0, 0])], map[3 := 2], [])
            && ScansOf(DIAMOND, {0}, es, count) == [Scan(1, [0], 1), Scan(2, [1], 1)]
  {
    var es := [Entry(1, [0]), Entry(2, [1])];
    var count: map<TypeId, nat> := map[1 := 1, 2 := 1];
    assert es[1..] == [Entry(2, [1])] && es[1..][1..] == [];
    var w0 := Work({0, 1}, [], map[], []);
    ScanEmbeds(w0, DIAMOND[1], 0, [0], false, 3);
    assert [0] + [0] == [0, 0] && {0} + {1} == {0, 1} && {0, 1} + {2} == {0, 1, 2};
    var w1 := Queue(w0, 3, [0, 0]);
    assert w1 == Work({0, 1}, [Entry(3, [0, 0])], map[3 := 1], []);
    assert ScanEntry(DIAMOND, Work({0}, [], map[], []), es[0], count) == w1;
    var w2 := w1.(visited := {0, 1, 2});
    ScanEmbeds(w2, DIAMOND[2], 0, [1], false, 3);
    assert Queue(w2, 3, [1] + [0]) == Work({0, 1, 2}, [Entry(3, [0, 0])], map[3 := 2], []);
    assert ScanEntry(DIAMOND, w1, es[1], count) == Queue(w2, 3, [1] + [0]);
  }

  lemma ThirdRound()
    ensures var es := [Entry(3, [0, 0])]; var count: map<TypeId, nat> := map[3 := 2];
            && Round(DIAMOND, {0, 1, 2}, es, count, []) == Work({0, 1, 2, 3}, [Entry(4, [0, 0, 0])], map[4 := 1], [])
            && ScansOf(DIAMOND, {0, 1, 2}, es, count) == [Scan(3, [0, 0], 2)]
  {
    var w := Work({0, 1, 2, 3}, [], map[], []);
    RoundOfOne(DIAMOND, {0, 1, 2}, 3, [0, 0], map[3 := 2]);
    assert {0, 1, 2} + {3} == {0, 1, 2, 3};
    ScanEmbeds(w, DIAMOND[3], 0, [0, 0], true, 4);
    assert [0, 0] + [0] == [0, 0, 0];
    assert Queue(w, 4, [0, 0, 0]) == Work({0, 1, 2, 3}, [Entry(4, [0, 0, 0])], map[4 := 1], []);
  }

  lemma FourthRound()
    ensures var es := [Entry(4, [0, 0, 0])]; var count: map<TypeId, nat> := map[4 := 1];
            && Round(DIAMOND, {0, 1, 2, 3}, es, count, []).next == []
            && ScansOf(DIAMOND, {0, 1, 2, 3}, es, count) == [Scan(4, [0, 0, 0], 1)]
  {
    RoundOfOne(DIAMOND, {0, 1, 2, 3}, 4, [0, 0, 0], map[4 := 1]);
    var w := Work({0, 1, 2, 3} + {4}, [], map[], []);
    assert !Embeds(PLAIN);
    assert ScanField(w, PLAIN, [0, 0, 0] + [0], false).next == [];
  }

  const DIAMOND_SCANS := [Scan(0, [], 0), Scan(1, [0], 1), Scan(2, [1], 1), Scan(3, [0, 0], 2), Scan(4, [0, 0, 0], 1)]

  lemma OneRound(visited: set<TypeId>, queue: seq<Entry>, count: map<TypeId, nat>, w: Work, now: seq<Scan>,
      later: seq<Scan>)
    requires visited <= DIAMOND.Keys && queue != [] && w == Round(DIAMOND, visited, queue, count, [])
    requires w.visited <= DIAMOND.Keys && now == ScansOf(DIAMOND, visited, queue, count)
    requires later == ScansFrom(DIAMOND, w.visited, w.next, w.nextCount)
    ensures ScansFrom(DIAMOND, visited, queue, count) == now + later
  {
  }

  lemma DiamondScans()
    ensures Scans(DIAMOND, 0) == DIAMOND_SCANS
  {
    FirstRound();
    SecondRound();
    ThirdRound();
    FourthRound();
    hide Round, ScansOf;
    var w4 := Round(DIAMOND, {0, 1, 2, 3}, [Entry(4, [0, 0, 0])], map[4 := 1], []);
    RoundProgress(DIAMOND, {0, 1, 2, 3}, [Entry(4, [0, 0, 0])], map[4 := 1], []);
    OneRound({0, 1, 2, 3}, [Entry(4, [0, 0, 0])], map[4 := 1], w4, [Scan(4, [0, 0, 0], 1)], []);
    var last := [Scan(4, [0, 0, 0], 1)];
    assert last + [] == last;
    OneRound({0, 1, 2}, [Entry(3, [0, 0])], map[3 := 2],
             Work({0, 1, 2, 3}, [Entry(4, [0, 0, 0])], map[4 := 1], []), [Scan(3, [0, 0], 2)], last);
    var two := [Scan(3, [0, 0], 2)] + last;
    OneRound({0}, [Entry(1, [0]), Entry(2, [1])], map[1 := 1, 2 := 1],
             Work({0, 1, 2}, [Entry(3, [0, 0])], map[3 := 2], []), [Scan(1, [0], 1), Scan(2, [1], 1)], two);
    var four := [Scan(1, [0], 1), Scan(2, [1], 1)] + two;
    OneRound({}, [Entry(0, [])], map[],
             Work({0}, [Entry(1, [0]), Entry(2, [1])], map[1 := 1, 2 := 1], []), [Scan(0, [], 0)], four);
    assert [Scan(0, [], 0)] + four == DIAMOND_SCANS;
  }

  lemma DiamondOwners(k: nat, h: Field)
    requires Owner(DIAMOND, DIAMOND_SCANS, k, h)
    ensures h == X && k == 4
  {
    var sc := DIAMOND_SCANS[k];
    assert !Records(Embed(1)) && !Records(Embed(2)) && !Records(Embed(3)) && !Records(Embed(4));
    assert k == 4;
    assert h.index == h.index[..3] + [h.index[3]];
    assert [0, 0, 0] + [0] == X.index;
  }

  // One step on a path through the diamond.
  lemma DiamondStep(s: Index, u: TypeId, i: nat, v: TypeId)
    requires Leads(DIAMOND, 0, s) == Some(u) && u in DIAMOND && i < |DIAMOND[u]| && DIAMOND[u][i] == Embed(v)
    ensures Leads(DIAMOND, 0, s + [i]) == Some(v)
  {
    hide Leads;
    StepLeads(DIAMOND, 0, s, i);
  }

  lemma DiamondPath(i: nat)
    requires i < 2
    ensures Leads(DIAMOND, 0, [i, 0, 0]) == Some(4)
  {
    var none: Index := [];
    assert Leads(DIAMOND, 0, none) == Some(0);
    hide Leads;
    DiamondStep(none, 0, i, i + 1);
    DiamondStep(none + [i], i + 1, 0, 3);
    DiamondStep(none + [i] + [0], 3, 0, 4);
    assert none + [i] + [0] + [0] == [i, 0, 0];
  }

  lemma DiamondTwin()
    ensures HasTwin(DIAMOND, 0, X.index[..3])
  {
    hide Leads;
    DiamondPath(0);
    DiamondPath(1);
    var r: Index := [1, 0, 0];
    assert X.index[..3] == [0, 0, 0] && r[0] != X.index[..3][0];
    assert Leads(DIAMOND, 0, r) == Leads(DIAMOND, 0, X.index[..3]);
  }

  /** The field X below the diamond is returned, although two paths of the same length lead to it
      and the rule of Go does not select it. */
  lemma DiamondKept()
    ensures Closed(DIAMOND) && Survives(multiset(Collected(DIAMOND, 0)), X) && !Selected(DIAMOND, 0, X)
  {
    DiamondScans();
    DiamondWins();
    hide Wins, Survives, Selected, Scans;
    SurvivorsByScan(DIAMOND, 0, X);
    DiamondTwin();
    RuleOfGo(DIAMOND, 0, X);
  }

  lemma DiamondWins()
    ensures Closed(DIAMOND) && Wins(DIAMOND, DIAMOND_SCANS, X)
  {
    DiamondScans();
    EmbeddingsCounted(DIAMOND, 0);
    assert CountedIn(DIAMOND, DIAMOND_SCANS, DIAMOND_SCANS[4]);
    assert X.index[..3] == [0, 0, 0];
    assert Owner(DIAMOND, DIAMOND_SCANS, 4, X);
    forall k, h | Owner(DIAMOND, DIAMOND_SCANS, k, h)
      ensures !Outdoes(h, X)
    {
      DiamondOwners(k, h);
    }
  }
}
