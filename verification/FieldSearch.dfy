/** The search for the fields of a struct type through its embedded structs.

Reflection is abstracted to a finite graph: every struct type has a list of fields, and the
type of an embedded struct is again in the graph.  Embedding may be cyclic, through pointers. */
module FieldSearch {
  import opened Options

  type TypeId = nat

  type Index = seq<nat>

  // A field as reflection shows it, after following one pointer; tag is the name in the tag.
  datatype StructField = StructField(name: string, exported: bool, anonymous: bool, skip: bool, tag: string,
                                     typ: TypeId, isStruct: bool)

  type Graph = map<TypeId, seq<StructField>>

  predicate Visible(sf: StructField) {
    (sf.exported || sf.anonymous) && !sf.skip
  }

  // An untagged embedded struct is explored, every other visible field is recorded.
  predicate Embeds(sf: StructField) {
    Visible(sf) && sf.tag == "" && sf.anonymous && sf.isStruct
  }

  predicate Records(sf: StructField) {
    Visible(sf) && !Embeds(sf)
  }

  predicate Closed(g: Graph) {
    forall u :: u in g ==> forall i :: 0 <= i < |g[u]| && Embeds(g[u][i]) ==> g[u][i].typ in g
  }

  // The same in terms of what reflection shows: a field without a tag that embeds a struct is
  // explored; every other field counts if it is exported or embedded; a skipped one never.
  lemma VisibilityRules(sf: StructField)
    ensures Embeds(sf) <==> sf.anonymous && sf.isStruct && sf.tag == "" && !sf.skip
    ensures Records(sf) <==> !sf.skip && if sf.anonymous then sf.tag != "" || !sf.isStruct else sf.exported
  {
  }

  datatype Field = Field(name: string, tagged: bool, index: Index, typ: TypeId)

  // A struct type in the queue, and the path to it.
  datatype Entry = Entry(typ: TypeId, index: Index)

  // f stands for what reflection shows: its name is that in the tag, if there is one, and else
  // that of the field.
  predicate Describes(f: Field, sf: StructField) {
    && !sf.skip && (sf.exported || sf.anonymous)
    && (f.tagged <==> sf.tag != "")
    && (f.tagged ==> f.name == sf.tag)
    && (!f.tagged ==> f.name == sf.name && !(sf.anonymous && sf.isStruct))
    && f.typ == sf.typ
  }

  function Recorded(sf: StructField, index: Index): Field {
    Field(if sf.tag != "" then sf.tag else sf.name, sf.tag != "", index, sf.typ)
  }

  // ---- the search as functions ----

  datatype Work = Work(visited: set<TypeId>, next: seq<Entry>, nextCount: map<TypeId, nat>, fields: seq<Field>)

  function CountOf(count: map<TypeId, nat>, u: TypeId): nat {
    if u in count then count[u] else 0
  }

  // The loop body of the scan of a type.
  function ScanField(w: Work, sf: StructField, index: Index, twice: bool): Work {
    if !Visible(sf) then w
    else if !Embeds(sf) then
      var f := Recorded(sf, index);
      w.(fields := w.fields + if twice then [f, f] else [f])
    else
      w.(nextCount := w.nextCount[sf.typ := CountOf(w.nextCount, sf.typ) + 1],
         next := if CountOf(w.nextCount, sf.typ) == 0 then w.next + [Entry(sf.typ, index)] else w.next)
  }

  // The scan from field i on.
  function ScanFrom(w: Work, sfs: seq<StructField>, i: nat, index: Index, twice: bool): Work
    decreases |sfs| - i
  {
    if i >= |sfs| then w else ScanFrom(ScanField(w, sfs[i], index + [i], twice), sfs, i + 1, index, twice)
  }

  function ScanEntry(g: Graph, w: Work, e: Entry, count: map<TypeId, nat>): Work {
    if e.typ in w.visited || e.typ !in g then w
    else ScanFrom(w.(visited := w.visited + {e.typ}), g[e.typ], 0, e.index, CountOf(count, e.typ) > 1)
  }

  function ScanEntries(g: Graph, w: Work, es: seq<Entry>, count: map<TypeId, nat>): Work
    decreases |es|
  {
    if es == [] then w else ScanEntries(g, ScanEntry(g, w, es[0], count), es[1..], count)
  }

  // ---- one round visits something new or comes to an end ----

  lemma {:induction false} ScanFromVisits(w: Work, sfs: seq<StructField>, i: nat, index: Index, twice: bool)
    ensures ScanFrom(w, sfs, i, index, twice).visited == w.visited
    decreases |sfs| - i
  {
    if i < |sfs| {
      ScanFromVisits(ScanField(w, sfs[i], index + [i], twice), sfs, i + 1, index, twice);
    }
  }

  lemma {:induction false} ScanEntriesVisits(g: Graph, w: Work, es: seq<Entry>, count: map<TypeId, nat>)
    requires w.visited <= g.Keys
    ensures w.visited <= ScanEntries(g, w, es, count).visited <= g.Keys
    ensures ScanEntries(g, w, es, count).visited == w.visited ==> ScanEntries(g, w, es, count) == w
    decreases |es|
  {
    if es != [] {
      var w1 := ScanEntry(g, w, es[0], count);
      if !(es[0].typ in w.visited || es[0].typ !in g) {
        ScanFromVisits(w.(visited := w.visited + {es[0].typ}), g[es[0].typ], 0, es[0].index,
            CountOf(count, es[0].typ) > 1);
        assert es[0].typ in w1.visited;
      }
      ScanEntriesVisits(g, w1, es[1..], count);
    }
  }

  // A round of the search.
  function Round(g: Graph, visited: set<TypeId>, queue: seq<Entry>, count: map<TypeId, nat>, fields: seq<Field>): Work {
    ScanEntries(g, Work(visited, [], map[], fields), queue, count)
  }

  lemma RoundProgress(g: Graph, visited: set<TypeId>, queue: seq<Entry>, count: map<TypeId, nat>, fields: seq<Field>)
    requires visited <= g.Keys
    ensures var w := Round(g, visited, queue, count, fields);
            && visited <= w.visited <= g.Keys
            && (|g.Keys - w.visited| < |g.Keys - visited| || (w.visited == visited && w.next == []))
  {
    ScanEntriesVisits(g, Work(visited, [], map[], fields), queue, count);
    var w := Round(g, visited, queue, count, fields);
    if w.visited != visited {
      Shrinks(g.Keys - w.visited, g.Keys - visited);
    }
  }

  lemma Shrinks(a: set<TypeId>, b: set<TypeId>)
    requires a < b
    ensures |a| < |b|
  {
    assert !(b <= a);
    var x :| x in b && x !in a;
    assert a <= b - {x};
    SubsetSize(a, b - {x});
  }

  lemma {:induction false} SubsetSize(a: set<TypeId>, b: set<TypeId>)
    requires a <= b
    ensures |a| <= |b|
    decreases |b|
  {
    if a != {} {
      var x :| x in a;
      SubsetSize(a - {x}, b - {x});
    }
  }

  // The loop of typeFields: every field that the search collects, in the order found.  It ends
  // on every graph, cyclic or not.
  function Explore(g: Graph, visited: set<TypeId>, queue: seq<Entry>, count: map<TypeId, nat>,
      fields: seq<Field>): seq<Field>
    requires visited <= g.Keys
    decreases |g.Keys - visited|, |queue|
  {
    if queue == [] then fields else
      var w := Round(g, visited, queue, count, fields);
      RoundProgress(g, visited, queue, count, fields);
      Explore(g, w.visited, w.next, w.nextCount, w.fields)
  }

  function Collected(g: Graph, t: TypeId): seq<Field> {
    Explore(g, {}, [Entry(t, [])], map[], [])
  }

  // ---- paths through embedded structs ----

  // The type that a path of embedded structs leads to.
  function Leads(g: Graph, t: TypeId, s: Index): Option<TypeId> {
    if s == [] then Some(t) else
      var up, i := Leads(g, t, s[..|s| - 1]), s[|s| - 1];
      if up.Some? && up.value in g && i < |g[up.value]| && Embeds(g[up.value][i])
      then Some(g[up.value][i].typ) else None
  }

  // The field at an index, as FieldByIndex finds it.
  function FieldAt(g: Graph, t: TypeId, s: Index): Option<StructField> {
    if s == [] then None else
      var up, i := Leads(g, t, s[..|s| - 1]), s[|s| - 1];
      if up.Some? && up.value in g && i < |g[up.value]| then Some(g[up.value][i]) else None
  }

  // f is what reflection finds at its index, and no shorter path leads to the struct it is in.
  ghost predicate Genuine(g: Graph, t: TypeId, f: Field) {
    && FieldAt(g, t, f.index).Some?
    && Records(FieldAt(g, t, f.index).value)
    && f == Recorded(FieldAt(g, t, f.index).value, f.index)
    && Nearest(g, t, f.index[..|f.index| - 1])
  }

  predicate AsReflected(g: Graph, t: TypeId, f: Field) {
    FieldAt(g, t, f.index).Some? && Describes(f, FieldAt(g, t, f.index).value)
  }

  lemma GenuineReflected(g: Graph, t: TypeId, f: Field)
    requires Genuine(g, t, f)
    ensures AsReflected(g, t, f)
  {
    VisibilityRules(FieldAt(g, t, f.index).value);
  }

  ghost predicate Nearest(g: Graph, t: TypeId, s: Index) {
    forall r: Index {:trigger Leads(g, t, r)} :: Leads(g, t, r) == Leads(g, t, s) ==> |s| <= |r|
  }

  // Every recorded field of the type u is among the fields.
  ghost predicate Covered(g: Graph, t: TypeId, u: TypeId, fields: seq<Field>) {
    u in g ==> (exists s: Index :: Leads(g, t, s) == Some(u) && CoveredAt(g, u, s, |g[u]|, fields))
  }

  // The first n fields of the type u, which the path s leads to.
  predicate CoveredAt(g: Graph, u: TypeId, s: Index, n: nat, fields: seq<Field>)
    requires u in g && n <= |g[u]|
  {
    forall i :: 0 <= i < n && Records(g[u][i]) ==> Recorded(g[u][i], s + [i]) in fields
  }

  // ---- what the search keeps ----

  // Queue entries are paths of one length to different types.
  ghost predicate QueueOk(g: Graph, t: TypeId, queue: seq<Entry>, level: nat) {
    forall i :: 0 <= i < |queue| ==> |queue[i].index| == level && Leads(g, t, queue[i].index) == Some(queue[i].typ)
  }

  predicate Queued(queue: seq<Entry>, u: TypeId) {
    exists i :: 0 <= i < |queue| && queue[i].typ == u
  }

  // The embedded structs among the first n fields of u have been visited or queued.
  predicate Forward(g: Graph, u: TypeId, n: nat, visited: set<TypeId>, now: seq<Entry>, next: seq<Entry>)
    requires u in g && n <= |g[u]|
  {
    forall i :: 0 <= i < n && Embeds(g[u][i]) ==>
      g[u][i].typ in visited || Queued(now, g[u][i].typ) || Queued(next, g[u][i].typ)
  }

  // A type whose scan is complete.
  ghost predicate Done(g: Graph, t: TypeId, u: TypeId, w: Work, todo: seq<Entry>) {
    u in g && Forward(g, u, |g[u]|, w.visited, todo, w.next) && Covered(g, t, u, w.fields)
  }

  // In the round of a level, with the entries todo still to be scanned.
  ghost predicate Searching(g: Graph, t: TypeId, w: Work, todo: seq<Entry>, level: nat) {
    && QueueOk(g, t, todo, level) && QueueOk(g, t, w.next, level + 1)
    && (forall u :: CountOf(w.nextCount, u) > 0 <==> Queued(w.next, u))
    && (forall s: Index {:trigger Leads(g, t, s)} :: |s| < level && Leads(g, t, s).Some? ==>
        Leads(g, t, s).value in w.visited)
    && (forall s: Index {:trigger Leads(g, t, s)} :: |s| == level && Leads(g, t, s).Some? ==>
          Leads(g, t, s).value in w.visited || Queued(todo, Leads(g, t, s).value))
    && (forall i :: 0 <= i < |w.fields| ==> Genuine(g, t, w.fields[i]))
  }

  ghost predicate AllDone(g: Graph, t: TypeId, w: Work, todo: seq<Entry>) {
    forall u :: u in w.visited ==> Done(g, t, u, w, todo)
  }

  // w1 continues w: nothing is lost.
  predicate Continues(w: Work, w1: Work) {
    && w.visited == w1.visited && w.fields <= w1.fields && w.next <= w1.next
  }

  lemma QueuedMore(a: seq<Entry>, b: seq<Entry>, u: TypeId)
    requires a <= b && Queued(a, u)
    ensures Queued(b, u)
  {
    var i :| 0 <= i < |a| && a[i].typ == u;
    assert b[i].typ == u;
  }

  lemma DoneStays(g: Graph, t: TypeId, u: TypeId, w: Work, w1: Work, todo: seq<Entry>)
    requires Done(g, t, u, w, todo) && Continues(w, w1)
    ensures Done(g, t, u, w1, todo)
  {
    forall i | 0 <= i < |g[u]| && Embeds(g[u][i])
      ensures g[u][i].typ in w1.visited || Queued(todo, g[u][i].typ) || Queued(w1.next, g[u][i].typ)
    {
      if Queued(w.next, g[u][i].typ) {
        QueuedMore(w.next, w1.next, g[u][i].typ);
      }
    }
    var s :| Leads(g, t, s) == Some(u) && CoveredAt(g, u, s, |g[u]|, w.fields);
    assert CoveredAt(g, u, s, |g[u]|, w1.fields);
  }

  // One field of the type that e leads to.
  lemma ScanFieldKeeps(g: Graph, t: TypeId, w: Work, todo: seq<Entry>, level: nat, e: Entry, i: nat, twice: bool)
    requires Searching(g, t, w, todo, level)
    requires e.typ in g && i < |g[e.typ]| && |e.index| == level && Leads(g, t, e.index) == Some(e.typ)
    requires Nearest(g, t, e.index)
    requires Forward(g, e.typ, i, w.visited, todo, w.next) && CoveredAt(g, e.typ, e.index, i, w.fields)
    ensures var w1 := ScanField(w, g[e.typ][i], e.index + [i], twice);
            && Searching(g, t, w1, todo, level) && Continues(w, w1)
            && Forward(g, e.typ, i + 1, w.visited, todo, w1.next) && CoveredAt(g, e.typ, e.index, i + 1, w1.fields)
  {
    var sf, s := g[e.typ][i], e.index + [i];
    var w1 := ScanField(w, sf, s, twice);
    assert s[..|s| - 1] == e.index;
    assert Embeds(sf) ==> Leads(g, t, s) == Some(sf.typ);
    forall u | Queued(w.next, u)
      ensures Queued(w1.next, u)
    {
      QueuedMore(w.next, w1.next, u);
    }
    if Embeds(sf) && CountOf(w.nextCount, sf.typ) == 0 {
      assert w1.next[|w.next|].typ == sf.typ;
    }
    forall u
      ensures CountOf(w1.nextCount, u) > 0 <==> Queued(w1.next, u)
    {
      if Queued(w1.next, u) {
        var j :| 0 <= j < |w1.next| && w1.next[j].typ == u;
        assert j < |w.next| ==> Queued(w.next, u);
      }
    }
    forall j | 0 <= j < |w1.fields|
      ensures Genuine(g, t, w1.fields[j])
    {
      if j >= |w.fields| {
        assert w1.fields[j] == Recorded(sf, s);
      }
    }
    if Records(sf) {
      assert w1.fields[|w.fields|] == Recorded(sf, s);
    }
  }

  lemma {:induction false} ScanFromKeeps(g: Graph, t: TypeId, w: Work, todo: seq<Entry>, level: nat, e: Entry, i: nat,
      twice: bool)
    requires Searching(g, t, w, todo, level)
    requires e.typ in g && i <= |g[e.typ]| && |e.index| == level && Leads(g, t, e.index) == Some(e.typ)
    requires Nearest(g, t, e.index)
    requires Forward(g, e.typ, i, w.visited, todo, w.next) && CoveredAt(g, e.typ, e.index, i, w.fields)
    ensures var w1 := ScanFrom(w, g[e.typ], i, e.index, twice);
            Searching(g, t, w1, todo, level) && Continues(w, w1) && Done(g, t, e.typ, w1, todo)
    decreases |g[e.typ]| - i
  {
    if i < |g[e.typ]| {
      ScanFieldKeeps(g, t, w, todo, level, e, i, twice);
      hide Searching, ScanField, Nearest;
      var w1 := ScanField(w, g[e.typ][i], e.index + [i], twice);
      ScanFromKeeps(g, t, w1, todo, level, e, i + 1, twice);
    }
  }

  // No shorter path leads to a type that is not visited yet.
  lemma NewIsNearest(g: Graph, t: TypeId, w: Work, todo: seq<Entry>, level: nat, e: Entry)
    requires Searching(g, t, w, todo, level) && e.typ !in w.visited
    requires |e.index| == level && Leads(g, t, e.index) == Some(e.typ)
    ensures Nearest(g, t, e.index)
  {
  }

  // Taking the first entry of the queue, whose type is marked as visited.
  lemma TakeEntry(g: Graph, t: TypeId, w: Work, todo: seq<Entry>, level: nat)
    requires Searching(g, t, w, todo, level) && AllDone(g, t, w, todo) && todo != []
    ensures var w1 := w.(visited := w.visited + {todo[0].typ});
            && Searching(g, t, w1, todo[1..], level)
            && (forall u :: u in w.visited ==> Done(g, t, u, w1, todo[1..]))
  {
    var w1 := w.(visited := w.visited + {todo[0].typ});
    forall u | Queued(todo, u)
      ensures u in w1.visited || Queued(todo[1..], u)
    {
      var i :| 0 <= i < |todo| && todo[i].typ == u;
      if i > 0 {
        assert todo[1..][i - 1].typ == u;
      }
    }
    forall u | u in w.visited
      ensures Done(g, t, u, w1, todo[1..])
    {
      assert Done(g, t, u, w, todo);
    }
  }

  lemma ScanEntryKeeps(g: Graph, t: TypeId, w: Work, todo: seq<Entry>, level: nat, count: map<TypeId, nat>)
    requires Searching(g, t, w, todo, level) && AllDone(g, t, w, todo) && todo != [] && todo[0].typ in g
    ensures var w1 := ScanEntry(g, w, todo[0], count);
            && Searching(g, t, w1, todo[1..], level) && AllDone(g, t, w1, todo[1..])
            && w1.visited == w.visited + {todo[0].typ}
  {
    var e := todo[0];
    var w0 := w.(visited := w.visited + {e.typ});
    TakeEntry(g, t, w, todo, level);
    if e.typ in w.visited {
      assert w0 == w;
    } else {
      NewIsNearest(g, t, w, todo, level, e);
      ScanFromKeeps(g, t, w0, todo[1..], level, e, 0, CountOf(count, e.typ) > 1);
      var w1 := ScanEntry(g, w, e, count);
      forall u | u in w.visited
        ensures Done(g, t, u, w1, todo[1..])
      {
        DoneStays(g, t, u, w0, w1, todo[1..]);
      }
    }
  }

  lemma {:induction false} ScanEntriesKeeps(g: Graph, t: TypeId, w: Work, todo: seq<Entry>, level: nat,
      count: map<TypeId, nat>)
    requires Searching(g, t, w, todo, level) && AllDone(g, t, w, todo)
    requires forall i :: 0 <= i < |todo| ==> todo[i].typ in g
    ensures var w1 := ScanEntries(g, w, todo, count);
            Searching(g, t, w1, [], level) && AllDone(g, t, w1, []) && w.visited <= w1.visited
            && forall i :: 0 <= i < |todo| ==> todo[i].typ in w1.visited
    decreases |todo|
  {
    if todo != [] {
      ScanEntryKeeps(g, t, w, todo, level, count);
      ScanEntriesKeeps(g, t, ScanEntry(g, w, todo[0], count), todo[1..], level, count);
    }
  }

  // Before the round of a level.
  ghost predicate Ready(g: Graph, t: TypeId, visited: set<TypeId>, queue: seq<Entry>, fields: seq<Field>, level: nat) {
    && Searching(g, t, Work(visited, [], map[], fields), queue, level)
    && AllDone(g, t, Work(visited, [], map[], fields), queue)
    && (level == 0 || t in visited)
  }

  lemma {:induction false} LeadsInto(g: Graph, t: TypeId, s: Index)
    requires Closed(g) && t in g
    ensures Leads(g, t, s).Some? ==> Leads(g, t, s).value in g
  {
    if s != [] {
      LeadsInto(g, t, s[..|s| - 1]);
    }
  }

  // The next round is ready.
  lemma RoundReady(g: Graph, t: TypeId, visited: set<TypeId>, queue: seq<Entry>, count: map<TypeId, nat>,
      fields: seq<Field>, level: nat)
    requires Closed(g) && t in g && Ready(g, t, visited, queue, fields, level)
    ensures var w := Round(g, visited, queue, count, fields);
            Ready(g, t, w.visited, w.next, w.fields, level + 1)
  {
    QueueInGraph(g, t, visited, queue, fields, level);
    ScanEntriesKeeps(g, t, Work(visited, [], map[], fields), queue, level, count);
    var w := Round(g, visited, queue, count, fields);
    var w1 := Work(w.visited, [], map[], w.fields);
    forall s: Index | |s| == level + 1 && Leads(g, t, s).Some?
      ensures Leads(g, t, s).value in w.visited || Queued(w.next, Leads(g, t, s).value)
    {
      var up := Leads(g, t, s[..level]).value;
      assert up in w.visited;
      assert Done(g, t, up, w, []);
    }
    forall u | u in w.visited
      ensures Done(g, t, u, w1, w.next)
    {
      assert Done(g, t, u, w, []);
    }
    if level == 0 {
      assert Leads(g, t, []) == Some(t);
    }
  }

  // When nothing is queued, every path leads to a visited type.
  lemma {:induction false} AllVisited(g: Graph, t: TypeId, visited: set<TypeId>, fields: seq<Field>, level: nat,
      s: Index)
    requires Ready(g, t, visited, [], fields, level) && Leads(g, t, s).Some?
    ensures Leads(g, t, s).value in visited
    decreases |s|
  {
    if |s| > level {
      AllVisited(g, t, visited, fields, level, s[..|s| - 1]);
      var up := Leads(g, t, s[..|s| - 1]).value;
      assert Done(g, t, up, Work(visited, [], map[], fields), []);
    }
  }

  // What the search finds.
  ghost predicate Complete(g: Graph, t: TypeId, fields: seq<Field>) {
    && (forall i :: 0 <= i < |fields| ==> Genuine(g, t, fields[i]))
    && (forall s: Index {:trigger Leads(g, t, s)} :: Leads(g, t, s).Some? ==>
        Covered(g, t, Leads(g, t, s).value, fields))
  }

  lemma {:induction false} ExploreComplete(g: Graph, t: TypeId, visited: set<TypeId>, queue: seq<Entry>,
      count: map<TypeId, nat>,
                                           fields: seq<Field>, level: nat)
    requires visited <= g.Keys && Closed(g) && t in g && Ready(g, t, visited, queue, fields, level)
    ensures Complete(g, t, Explore(g, visited, queue, count, fields))
    decreases |g.Keys - visited|, |queue|
  {
    if queue == [] {
      forall s: Index | Leads(g, t, s).Some?
        ensures Covered(g, t, Leads(g, t, s).value, fields)
      {
        AllVisited(g, t, visited, fields, level, s);
        assert Done(g, t, Leads(g, t, s).value, Work(visited, [], map[], fields), []);
      }
    } else {
      var w := Round(g, visited, queue, count, fields);
      RoundProgress(g, visited, queue, count, fields);
      RoundReady(g, t, visited, queue, count, fields, level);
      ExploreComplete(g, t, w.visited, w.next, w.nextCount, w.fields, level + 1);
    }
  }

  /** The search collects fields that reflection finds at their indexes, on nearest paths, and
      misses no field of any struct that is embedded at any depth. */
  lemma SearchComplete(g: Graph, t: TypeId)
    requires Closed(g) && t in g
    ensures Complete(g, t, Collected(g, t))
  {
    SearchStarts(g, t);
    ExploreComplete(g, t, {}, [Entry(t, [])], map[], [], 0);
  }

  // ---- counting ----

  // How many of the fields from i on embed the type u.
  function EdgesFrom(sfs: seq<StructField>, i: nat, u: TypeId): nat
    decreases |sfs| - i
  {
    if i >= |sfs| then 0 else (if Embeds(sfs[i]) && sfs[i].typ == u then 1 else 0) + EdgesFrom(sfs, i + 1, u)
  }

  // How often u is embedded in the types of es that are scanned, each of them once.
  function Embeddings(g: Graph, visited: set<TypeId>, es: seq<Entry>, u: TypeId): nat
    decreases |es|
  {
    if es == [] then 0
    else if es[0].typ in visited || es[0].typ !in g then Embeddings(g, visited, es[1..], u)
    else EdgesFrom(g[es[0].typ], 0, u) + Embeddings(g, visited + {es[0].typ}, es[1..], u)
  }

  lemma {:induction false} ScanCounts(w: Work, sfs: seq<StructField>, i: nat, index: Index, twice: bool, u: TypeId)
    ensures CountOf(ScanFrom(w, sfs, i, index, twice).nextCount, u) == CountOf(w.nextCount, u) + EdgesFrom(sfs, i, u)
    decreases |sfs| - i
  {
    if i < |sfs| {
      ScanCounts(ScanField(w, sfs[i], index + [i], twice), sfs, i + 1, index, twice, u);
    }
  }

  lemma {:induction false} ScanEntriesCounts(g: Graph, w: Work, es: seq<Entry>, count: map<TypeId, nat>, u: TypeId)
    ensures CountOf(ScanEntries(g, w, es, count).nextCount, u)
        == CountOf(w.nextCount, u) + Embeddings(g, w.visited, es, u)
    decreases |es|
  {
    if es != [] {
      var e := es[0];
      if !(e.typ in w.visited || e.typ !in g) {
        var w0 := w.(visited := w.visited + {e.typ});
        ScanCounts(w0, g[e.typ], 0, e.index, CountOf(count, e.typ) > 1, u);
        ScanFromVisits(w0, g[e.typ], 0, e.index, CountOf(count, e.typ) > 1);
      }
      ScanEntriesCounts(g, ScanEntry(g, w, e, count), es[1..], count, u);
    }
  }

  /** The count that decides whether the fields of a type are doubled is the number of its
      embeddings in the types that the round before has scanned. */
  lemma RoundCounts(g: Graph, visited: set<TypeId>, queue: seq<Entry>, count: map<TypeId, nat>, fields: seq<Field>,
      u: TypeId)
    ensures CountOf(Round(g, visited, queue, count, fields).nextCount, u) == Embeddings(g, visited, queue, u)
  {
    ScanEntriesCounts(g, Work(visited, [], map[], fields), queue, count, u);
  }

  // ---- the search as loops ----

  // f stands for one of the fields of the struct that the path leads to.
  predicate OneOf(sfs: seq<StructField>, index: Index, f: Field) {
    && |f.index| == |index| + 1 && f.index[..|index|] == index
    && f.index[|index|] < |sfs| && Describes(f, sfs[f.index[|index|]])
  }

  method ScanType(g: Graph, w: Work, e: Entry, count: map<TypeId, nat>) returns (w': Work)
    requires e.typ in g && e.typ !in w.visited
    ensures w' == ScanEntry(g, w, e, count)
    ensures w.fields <= w'.fields
    ensures forall n :: |w.fields| <= n < |w'.fields| ==> OneOf(g[e.typ], e.index, w'.fields[n])
  {
    w' := w.(visited := w.visited + {e.typ});
    for i := 0 to |g[e.typ]|
      invariant w.fields <= w'.fields
      invariant forall n :: |w.fields| <= n < |w'.fields| ==> OneOf(g[e.typ], e.index, w'.fields[n])
      invariant ScanFrom(w', g[e.typ], i, e.index, CountOf(count, e.typ) > 1) == ScanEntry(g, w, e, count)
    {
      var sf := g[e.typ][i];
      if !sf.exported && !sf.anonymous {
        continue;
      }
      if sf.skip {
        continue;
      }
      var index := e.index + [i];
      if sf.tag != "" || !sf.anonymous || !sf.isStruct {
        var f := Recorded(sf, index);
        assert index[..|e.index|] == e.index;
        var fields := w'.fields + [f];
        if CountOf(count, e.typ) > 1 {
          assert w'.fields + [f, f] == fields + [f];
          fields := fields + [fields[|fields| - 1]];
        }
        w' := w'.(fields := fields);
        continue;
      }
      var n := CountOf(w'.nextCount, sf.typ) + 1;
      w' := w'.(nextCount := w'.nextCount[sf.typ := n]);
      if n == 1 {
        w' := w'.(next := w'.next + [Entry(sf.typ, index)]);
      }
    }
  }

  // The loop over the types of a round.
  method ScanRound(g: Graph, visited: set<TypeId>, current: seq<Entry>, count: map<TypeId, nat>, fields: seq<Field>)
    returns (w: Work)
    requires forall i :: 0 <= i < |current| ==> current[i].typ in g
    ensures w == Round(g, visited, current, count, fields)
  {
    w := Work(visited, [], map[], fields);
    assert current[0..] == current;
    for i := 0 to |current|
      invariant ScanEntries(g, w, current[i..], count) == Round(g, visited, current, count, fields)
    {
      assert current[i..][0] == current[i] && current[i..][1..] == current[i + 1..];
      if current[i].typ !in w.visited {
        w := ScanType(g, w, current[i], count);
      }
    }
  }

  /** Every collected field describes the field that reflection finds at its index. */
  lemma CollectedReflected(g: Graph, t: TypeId)
    requires Closed(g) && t in g
    ensures forall i :: 0 <= i < |Collected(g, t)| ==> AsReflected(g, t, Collected(g, t)[i])
  {
    SearchComplete(g, t);
    forall i | 0 <= i < |Collected(g, t)|
      ensures AsReflected(g, t, Collected(g, t)[i])
    {
      GenuineReflected(g, t, Collected(g, t)[i]);
    }
  }

  /** Every field of any struct that a path of embedded structs leads to is collected, at an index
      that is no longer, unless it is skipped, unexported or explored. */
  lemma EveryFieldSeen(g: Graph, t: TypeId, s: Index) returns (f: Field)
    requires Closed(g) && t in g && FieldAt(g, t, s).Some?
    requires var sf := FieldAt(g, t, s).value;
             !sf.skip && if sf.anonymous then sf.tag != "" || !sf.isStruct else sf.exported
    ensures f in Collected(g, t) && AsReflected(g, t, f)
    ensures FieldAt(g, t, f.index) == FieldAt(g, t, s) && |f.index| <= |s|
  {
    SearchComplete(g, t);
    VisibilityRules(FieldAt(g, t, s).value);
    var up, i := s[..|s| - 1], s[|s| - 1];
    var u := Leads(g, t, up).value;
    assert Covered(g, t, u, Collected(g, t));
    var p :| Leads(g, t, p) == Some(u) && CoveredAt(g, u, p, |g[u]|, Collected(g, t));
    f := Recorded(g[u][i], p + [i]);
    var k :| 0 <= k < |Collected(g, t)| && Collected(g, t)[k] == f;
    assert Genuine(g, t, Collected(g, t)[k]);
    GenuineReflected(g, t, f);
    assert (p + [i])[..|p|] == p;
  }

  // The first half of typeFields, up to the sorting by name.
  method CollectFields(g: Graph, t: TypeId) returns (fields: seq<Field>)
    requires Closed(g) && t in g
    ensures fields == Collected(g, t)
    ensures forall i :: 0 <= i < |fields| ==> AsReflected(g, t, fields[i])
  {
    var next := [Entry(t, [])];
    var nextCount: map<TypeId, nat> := map[];
    var visited: set<TypeId> := {};
    fields := [];
    ghost var level := 0;
    hide Ready, Round, Closed;
    SearchStarts(g, t);
    while |next| > 0
      invariant visited <= g.Keys && Ready(g, t, visited, next, fields, level)
      invariant Explore(g, visited, next, nextCount, fields) == Collected(g, t)
      decreases |g.Keys - visited|, |next|
    {
      var current, count := next, nextCount;
      QueueInGraph(g, t, visited, current, fields, level);
      var w := ScanRound(g, visited, current, count, fields);
      RoundProgress(g, visited, current, count, fields);
      RoundReady(g, t, visited, current, count, fields, level);
      visited, next, nextCount, fields := w.visited, w.next, w.nextCount, w.fields;
      level := level + 1;
    }
    CollectedReflected(g, t);
  }

  lemma SearchStarts(g: Graph, t: TypeId)
    requires t in g
    ensures Ready(g, t, {}, [Entry(t, [])], [], 0)
  {
    var queue := [Entry(t, [])];
    assert queue[0].typ == t;
    assert Queued(queue, t);
  }

  lemma QueueInGraph(g: Graph, t: TypeId, visited: set<TypeId>, queue: seq<Entry>, fields: seq<Field>, level: nat)
    requires Closed(g) && t in g && Ready(g, t, visited, queue, fields, level)
    ensures forall i :: 0 <= i < |queue| ==> queue[i].typ in g
  {
    forall i | 0 <= i < |queue|
      ensures queue[i].typ in g
    {
      LeadsInto(g, t, queue[i].index);
    }
  }
}
