/** Which documents of table headers and plain assignments the parser accepts, and the tree
that it builds. */
module Acceptance {
  import opened Outcomes
  import opened Trees
  import opened ParserSpec

  // ---- nodes of a tree without arrays of tables ----

  datatype Node = Absent | Inner | Leaf(val: Value)

  predicate IsLeafValue(v: Value) {
    !v.Hash? && !v.Tables?
  }

  function NodeOf(v: Value): Node {
    if v.Hash? then Inner else Leaf(v)
  }

  function Lookup(t: Table, q: Key): Node {
    if q == [] then Inner
    else if q[0] !in t.entries then Absent
    else if t.entries[q[0]].Hash? then Lookup(t.entries[q[0]].table, q[1..])
    else if |q| == 1 then Leaf(t.entries[q[0]])
    else Absent
  }

  lemma {:induction false} LookupAppend(t: Table, p: Key, q: Key)
    requires Lookup(t, p).Inner?
    ensures Get(t, p).At? && Lookup(t, p + q) == Lookup(Get(t, p).table, q)
  {
    if p == [] {
      assert p + q == q;
    } else {
      LookupAppend(t.entries[p[0]].table, p[1..], q);
      assert (p + q)[0] == p[0] && (p + q)[1..] == p[1..] + q;
    }
  }

  // A new binding in the table at p changes one node.
  lemma {:induction false} LookupPut(t: Table, p: Key, k: string, v: Value, q: Key)
    requires Lookup(t, p).Inner? && Get(t, p).At? && k !in Get(t, p).table.entries
    requires v == Hash(EMPTY) || IsLeafValue(v)
    ensures Lookup(Put(t, p, With(Get(t, p).table, k, v)), q) == if q == p + [k] then NodeOf(v) else Lookup(t, q)
  {
    if p == [] {
      assert p + [k] == [k];
      if q != [] && q[0] == k && |q| == 1 {
        assert q == [k];
      }
    } else {
      assert (p + [k])[0] == p[0] && (p + [k])[1..] == p[1..] + [k];
      if q != [] && q[0] == p[0] {
        LookupPut(t.entries[p[0]].table, p[1..], k, v, q[1..]);
        assert q == [q[0]] + q[1..] && p + [k] == [p[0]] + (p[1..] + [k]);
      }
    }
  }

  // ---- joined names ----

  predicate DotFree(k: Key) {
    forall i :: 0 <= i < |k| ==> '.' !in k[i]
  }

  lemma LastDot(x: string, u: string, y: string, w: string)
    requires x + "." + u == y + "." + w && '.' !in u && '.' !in w
    ensures x == y && u == w
  {
    var s := x + "." + u;
    assert s[|x|] == '.' && s[|y|] == '.';
    assert forall i :: |x| < i < |s| ==> s[i] == u[i - |x| - 1];
    assert forall i :: |y| < i < |s| ==> s[i] == w[i - |y| - 1];
    assert s[..|x|] == x && s[..|y|] == y && s[|x| + 1..] == u && s[|y| + 1..] == w;
  }

  lemma JoinHasDot(k: Key)
    requires |k| > 1
    ensures '.' in Join(k)
  {
    var x := Join(k[..|k| - 1]);
    assert Join(k)[|x|] == '.';
  }

  /** Distinct dot-free keys have distinct joined names. */
  lemma {:induction false} JoinInjective(a: Key, b: Key)
    requires a != [] && b != [] && DotFree(a) && DotFree(b) && Join(a) == Join(b)
    ensures a == b
  {
    if |a| == 1 || |b| == 1 {
      if |a| > 1 {
        JoinHasDot(a);
      }
      if |b| > 1 {
        JoinHasDot(b);
      }
    } else {
      var n, m := |a| - 1, |b| - 1;
      LastDot(Join(a[..n]), a[n], Join(b[..m]), b[m]);
      JoinInjective(a[..n], b[..m]);
      assert a == a[..n] + [a[n]] && b == b[..m] + [b[m]];
    }
  }

  // ---- what a document has said so far ----

  // Its headers, the full paths of all its statements, the assigned values that are in the
  // tree, and the current table.
  datatype Doc = Doc(headers: set<Key>, seen: set<Key>, leaves: map<Key, Value>, context: Key)

  // The tables: the root and all that headers name or imply.
  predicate IsTablePath(headers: set<Key>, q: Key) {
    q == [] || exists h :: h in headers && q <= h
  }

  function NodeAt(d: Doc, q: Key): Node {
    if IsTablePath(d.headers, q) then Inner
    else if q in d.leaves then Leaf(d.leaves[q])
    else Absent
  }

  ghost predicate TreeIs(t: Table, d: Doc) {
    forall q: Key {:trigger Lookup(t, q)} :: Lookup(t, q) == NodeAt(d, q)
  }

  // A table is marked as implicit while no statement has named it.
  ghost predicate FlagsAre(st: PState, d: Doc) {
    forall q: Key {:trigger IsImplicit(st, q)} :: q != [] && DotFree(q) ==>
      (IsImplicit(st, q) <==> IsTablePath(d.headers, q) && q !in d.seen)
  }

  ghost predicate Tidy(d: Doc) {
    && DotFree(d.context) && IsTablePath(d.headers, d.context)
    && (forall q :: q in d.leaves ==> q in d.seen && !IsTablePath(d.headers, q) && IsLeafValue(d.leaves[q]))
    && (forall q :: q in d.seen ==> IsTablePath(d.headers, q) || q in d.leaves)
  }

  ghost predicate Represents(st: PState, d: Doc) {
    st.context == d.context && TreeIs(st.mapping, d) && FlagsAre(st, d) && Tidy(d)
  }

  // ---- one binding ----

  // What naming the path p with the value v, an empty table or a leaf, adds.
  function Claim(d: Doc, p: Key, v: Value): Doc {
    Doc(if v.Hash? then d.headers + {p} else d.headers,
        d.seen + {p},
        if v.Hash? || IsTablePath(d.headers, p) then d.leaves else d.leaves[p := v],
        d.context)
  }

  lemma DotFreeAppend(p: Key, k: string)
    requires DotFree(p) && '.' !in k
    ensures DotFree(p + [k])
  {
  }

  // The child of the current table.
  lemma ChildNode(st: PState, d: Doc, k: string)
    requires Represents(st, d)
    ensures Get(st.mapping, d.context).At?
    ensures var hash := Get(st.mapping, d.context).table;
            && (k in hash.entries <==> NodeAt(d, d.context + [k]) != Absent)
            && (k in hash.entries ==> NodeOf(hash.entries[k]) == NodeAt(d, d.context + [k]))
  {
    assert Lookup(st.mapping, d.context) == NodeAt(d, d.context);
    LookupAppend(st.mapping, d.context, [k]);
    assert Lookup(st.mapping, d.context + [k]) == NodeAt(d, d.context + [k]);
    assert [k][1..] == [];
  }

  lemma TablePathMore(headers: set<Key>, p: Key, k: string, q: Key)
    requires IsTablePath(headers, p)
    ensures IsTablePath(headers + {p + [k]}, q) <==> IsTablePath(headers, q) || q == p + [k]
  {
    if q != [] && IsTablePath(headers, q) {
      var h :| h in headers && q <= h;
      assert h in headers + {p + [k]};
    }
    if q != [] && q <= p + [k] && q != p + [k] {
      assert q <= p;
      if p != [] {
        var h :| h in headers && p <= h;
        assert q <= h;
      }
    }
    assert p + [k] in headers + {p + [k]};
  }

  lemma ClaimTree(st: PState, d: Doc, k: string, v: Value)
    requires Represents(st, d) && (v == Hash(EMPTY) || IsLeafValue(v))
    requires NodeAt(d, d.context + [k]) == Absent
    ensures Get(st.mapping, d.context).At?
    ensures TreeIs(Put(st.mapping, d.context, With(Get(st.mapping, d.context).table, k, v)),
        Claim(d, d.context + [k], v))
  {
    ChildNode(st, d, k);
    var p := d.context + [k];
    var t := Put(st.mapping, d.context, With(Get(st.mapping, d.context).table, k, v));
    forall q: Key
      ensures Lookup(t, q) == NodeAt(Claim(d, p, v), q)
    {
      LookupPut(st.mapping, d.context, k, v, q);
      TablePathMore(d.headers, d.context, k, q);
      assert Lookup(st.mapping, q) == NodeAt(d, q);
    }
  }

  lemma ClaimTidy(d: Doc, k: string, v: Value)
    requires Tidy(d) && '.' !in k && (v == Hash(EMPTY) || IsLeafValue(v))
    requires d.context + [k] !in d.seen
    ensures Tidy(Claim(d, d.context + [k], v))
  {
    var p := d.context + [k];
    forall q: Key
      ensures IsTablePath(d.headers + {p}, q) <==> IsTablePath(d.headers, q) || q == p
    {
      TablePathMore(d.headers, d.context, k, q);
    }
  }

  // The flags after the path is marked as named.
  lemma ClaimFlags(st: PState, st': PState, d: Doc, k: string, v: Value)
    requires Represents(st, d) && '.' !in k
    requires var p := d.context + [k];
             st'.implicits == if NodeAt(d, p).Inner? then st.implicits[Join(p) := false] else st.implicits
    ensures FlagsAre(st', Claim(d, d.context + [k], v))
  {
    var p := d.context + [k];
    DotFreeAppend(d.context, k);
    forall q: Key | q != [] && DotFree(q)
      ensures IsImplicit(st', q) <==> IsTablePath(Claim(d, p, v).headers, q) && q !in Claim(d, p, v).seen
    {
      TablePathMore(d.headers, d.context, k, q);
      assert IsImplicit(st, q) <==> IsTablePath(d.headers, q) && q !in d.seen;
      if Join(q) == Join(p) {
        JoinInjective(q, p);
      }
    }
  }

  /** setValue: a path may be named once. */
  lemma SetValueMatches(st: PState, d: Doc, k: string, v: Value)
    requires Represents(st, d) && '.' !in k && (v == Hash(EMPTY) || IsLeafValue(v))
    ensures d.context + [k] in d.seen ==> SetValue(st, k, v) == Rejected
    ensures d.context + [k] !in d.seen ==>
      SetValue(st, k, v).Ok? && Represents(SetValue(st, k, v).value, Claim(d, d.context + [k], v))
  {
    var p := d.context + [k];
    ChildNode(st, d, k);
    DotFreeAppend(d.context, k);
    assert IsImplicit(st, p) <==> IsTablePath(d.headers, p) && p !in d.seen;
    if p !in d.seen {
      var st' := SetValue(st, k, v).value;
      ClaimTidy(d, k, v);
      ClaimFlags(st, st', d, k, v);
      if NodeAt(d, p) == Absent {
        ClaimTree(st, d, k, v);
      } else {
        NamedTree(st, d, k, v);
      }
    }
  }

  // Naming a table that exists changes no node.
  lemma NamedTree(st: PState, d: Doc, k: string, v: Value)
    requires Represents(st, d) && NodeAt(d, d.context + [k]).Inner?
    ensures TreeIs(st.mapping, Claim(d, d.context + [k], v))
  {
    var p := d.context + [k];
    forall q: Key
      ensures Lookup(st.mapping, q) == NodeAt(Claim(d, p, v), q)
    {
      TablePathMore(d.headers, d.context, k, q);
      assert Lookup(st.mapping, q) == NodeAt(d, q);
    }
  }

  // ---- the walk of a header ----

  // The tables down to p exist.
  function Walk(d: Doc, p: Key): Doc {
    Doc(d.headers + {p}, d.seen, d.leaves, p)
  }

  // Only the tables that the headers imply matter.
  lemma SameTables(st: PState, d: Doc, e: Doc)
    requires Represents(st, d) && e == d.(headers := e.headers)
    requires forall q: Key :: IsTablePath(d.headers, q) <==> IsTablePath(e.headers, q)
    ensures Represents(st, e)
  {
    forall q: Key
      ensures Lookup(st.mapping, q) == NodeAt(e, q)
    {
      assert Lookup(st.mapping, q) == NodeAt(d, q);
    }
  }

  lemma TablePathPrefix(headers: set<Key>, p: Key, q: Key)
    requires IsTablePath(headers, p) && q <= p
    ensures IsTablePath(headers, q)
  {
    if q != [] {
      var h :| h in headers && p <= h;
      assert q <= h;
    }
  }

  lemma TablePathUnion(headers: set<Key>, p: Key, q: Key)
    ensures IsTablePath(headers + {p}, q) <==> IsTablePath(headers, q) || q <= p
  {
    assert p in headers + {p};
    if q != [] && IsTablePath(headers, q) {
      var h :| h in headers && q <= h;
      assert h in headers + {p};
    }
  }

  // Walking into a table that exists.
  lemma WalkInto(st: PState, d: Doc, p: Key)
    requires Represents(st, d) && IsTablePath(d.headers, p) && DotFree(p)
    ensures Represents(st.(context := p), Walk(d, p))
  {
    forall q: Key
      ensures IsTablePath(d.headers + {p}, q) <==> IsTablePath(d.headers, q)
    {
      TablePathUnion(d.headers, p, q);
      if q <= p {
        TablePathPrefix(d.headers, p, q);
      }
    }
    assert FlagsAre(st.(context := p), d.(context := p)) by {
      forall q: Key | q != [] && DotFree(q)
        ensures IsImplicit(st.(context := p), q) <==> IsTablePath(d.headers, q) && q !in d.seen
      {
        assert IsImplicit(st, q) <==> IsTablePath(d.headers, q) && q !in d.seen;
      }
    }
    SameTables(st.(context := p), d.(context := p), Walk(d, p));
  }

  // Making a table on the way.
  lemma WalkMakes(st: PState, d: Doc, k: string)
    requires Represents(st, d) && '.' !in k && NodeAt(d, d.context + [k]) == Absent
    ensures Get(st.mapping, d.context).At?
    ensures var p := d.context + [k];
            Represents(st.(mapping := Put(st.mapping, d.context,
                With(Get(st.mapping, d.context).table, k, Hash(EMPTY))),
                           implicits := st.implicits[Join(p) := true], context := p), Walk(d, p))
  {
    var p := d.context + [k];
    ChildNode(st, d, k);
    ClaimTree(st, d, k, Hash(EMPTY));
    DotFreeAppend(d.context, k);
    var st' := st.(mapping := Put(st.mapping, d.context, With(Get(st.mapping, d.context).table, k, Hash(EMPTY))),
                   implicits := st.implicits[Join(p) := true], context := p);
    forall q: Key
      ensures Lookup(st'.mapping, q) == NodeAt(Walk(d, p), q)
    {
      assert Lookup(st'.mapping, q) == NodeAt(Claim(d, p, Hash(EMPTY)), q);
    }
    forall q: Key | q != [] && DotFree(q)
      ensures IsImplicit(st', q) <==> IsTablePath(d.headers + {p}, q) && q !in d.seen
    {
      TablePathMore(d.headers, d.context, k, q);
      assert IsImplicit(st, q) <==> IsTablePath(d.headers, q) && q !in d.seen;
      if Join(q) == Join(p) {
        JoinInjective(q, p);
      }
    }
    forall q: Key
      ensures IsTablePath(d.headers + {p}, q) <==> IsTablePath(d.headers, q) || q == p
    {
      TablePathMore(d.headers, d.context, k, q);
    }
    assert p in d.headers + {p};
  }

  // A value stands in the way from c to c + todo.
  predicate Blocked(d: Doc, c: Key, todo: Key) {
    exists n :: 0 < n <= |todo| && c + todo[..n] in d.leaves
  }

  lemma BlockedNext(d: Doc, c: Key, todo: Key)
    requires todo != []
    ensures Blocked(d, c, todo) <==> c + [todo[0]] in d.leaves || Blocked(d, c + [todo[0]], todo[1..])
  {
    assert todo[..1] == [todo[0]];
    assert c + [todo[0]] in d.leaves ==> c + todo[..1] in d.leaves;
    if Blocked(d, c, todo) && c + [todo[0]] !in d.leaves {
      var n :| 0 < n <= |todo| && c + todo[..n] in d.leaves;
      assert c + todo[..n] == c + [todo[0]] + todo[1..][..n - 1];
    }
    if Blocked(d, c + [todo[0]], todo[1..]) {
      var n :| 0 < n <= |todo[1..]| && c + [todo[0]] + todo[1..][..n] in d.leaves;
      assert c + todo[..n + 1] == c + [todo[0]] + todo[1..][..n];
    }
  }

  // One step of the walk, if no value stands in the way.
  lemma DrillStep(st: PState, d: Doc, todo: Key) returns (st1: PState)
    requires Represents(st, d) && DotFree(todo) && todo != [] && d.context + [todo[0]] !in d.leaves
    ensures Drill(st, todo) == Drill(st1, todo[1..]) && Represents(st1, Walk(d, d.context + [todo[0]]))
  {
    var k := todo[0];
    var p := d.context + [k];
    ChildNode(st, d, k);
    if NodeAt(d, p).Inner? {
      DotFreeAppend(d.context, k);
      WalkInto(st, d, p);
      st1 := st.(context := p);
    } else {
      WalkMakes(st, d, k);
      st1 := st.(mapping := Put(st.mapping, d.context, With(Get(st.mapping, d.context).table, k, Hash(EMPTY))),
                 implicits := st.implicits[Join(p) := true], context := p);
    }
    DrillOn(st, todo, st1);
  }

  lemma DrillEnds(st: PState, d: Doc)
    requires Represents(st, d)
    ensures Drill(st, []) == Ok(st) && Represents(st, Walk(d, d.context)) && !Blocked(d, d.context, [])
  {
    WalkInto(st, d, d.context);
  }

  lemma DrillStops(st: PState, d: Doc, todo: Key)
    requires Represents(st, d) && todo != [] && d.context + [todo[0]] in d.leaves
    ensures Drill(st, todo) == Rejected
  {
    ChildNode(st, d, todo[0]);
  }

  lemma {:induction false} DrillMatches(st: PState, d: Doc, todo: Key)
    requires Represents(st, d) && DotFree(todo)
    ensures Blocked(d, d.context, todo) ==> Drill(st, todo) == Rejected
    ensures !Blocked(d, d.context, todo) ==>
      Drill(st, todo).Ok? && Represents(Drill(st, todo).value, Walk(d, d.context + todo))
    decreases |todo|
  {
    hide Represents, Drill, Blocked;
    if todo == [] {
      assert d.context + todo == d.context;
      DrillEnds(st, d);
    } else {
      var p := d.context + [todo[0]];
      BlockedNext(d, d.context, todo);
      if p in d.leaves {
        DrillStops(st, d, todo);
      } else {
        var st1 := DrillStep(st, d, todo);
        DrillMatches(st1, Walk(d, p), todo[1..]);
        BlockedSame(d, p, todo[1..]);
        assert p + todo[1..] == d.context + todo;
        if !Blocked(d, p, todo[1..]) {
          WalkTwice(Drill(st, todo).value, d, p, d.context + todo);
        }
      }
    }
  }

  lemma BlockedSame(d: Doc, p: Key, todo: Key)
    ensures Blocked(Walk(d, p), p, todo) <==> Blocked(d, p, todo)
  {
  }

  // One round of the loop of establishContext that finds or makes a table.
  lemma DrillOn(st: PState, todo: Key, st1: PState)
    requires todo != [] && Get(st.mapping, st.context).At?
    requires var hash := Get(st.mapping, st.context).table;
             if todo[0] in hash.entries then hash.entries[todo[0]].Hash? && st1
                 == st.(context := st.context + [todo[0]])
             else st1 == st.(mapping := Put(st.mapping, st.context, With(hash, todo[0], Hash(EMPTY))),
                             implicits := st.implicits[Join(st.context + [todo[0]]) := true],
                             context := st.context + [todo[0]])
    ensures Drill(st, todo) == Drill(st1, todo[1..])
  {
  }

  lemma WalkTwice(st: PState, d: Doc, p: Key, q: Key)
    requires Represents(st, Walk(Walk(d, p), q)) && p <= q
    ensures Represents(st, Walk(d, q))
  {
    forall r: Key
      ensures IsTablePath(d.headers + {p} + {q}, r) <==> IsTablePath(d.headers + {q}, r)
    {
      TablePathUnion(d.headers + {p}, q, r);
      TablePathUnion(d.headers, p, r);
      TablePathUnion(d.headers, q, r);
    }
    SameTables(st, Walk(Walk(d, p), q), Walk(d, q));
  }

  // ---- statements ----

  // Headers and assignments of scalars and arrays, with dot-free keys.
  predicate PlainStmt(s: Stmt) {
    match s
    case Comment => true
    case TableHeader(path) => path != [] && DotFree(path)
    case ArrayHeader(_) => false
    case Assign(k, v, _) => '.' !in k && IsLeafValue(v)
  }

  predicate Accepts(d: Doc, s: Stmt) {
    match s
    case TableHeader(path) => path !in d.seen && forall n :: 0 < n < |path| ==> path[..n] !in d.leaves
    case Assign(k, v, _) => d.context + [k] !in d.seen
    case _ => true
  }

  function After(d: Doc, s: Stmt): Doc {
    match s
    case TableHeader(path) => Doc(d.headers + {path}, d.seen + {path}, d.leaves, path)
    case Assign(k, v, _) => Claim(d, d.context + [k], v)
    case _ => d
  }

  lemma FromRoot(st: PState, d: Doc)
    requires Represents(st, d)
    ensures Represents(st.(context := []), d.(context := []))
  {
    forall q: Key | q != [] && DotFree(q)
      ensures IsImplicit(st.(context := []), q) <==> IsTablePath(d.headers, q) && q !in d.seen
    {
      assert IsImplicit(st, q) <==> IsTablePath(d.headers, q) && q !in d.seen;
    }
  }

  lemma HeaderMatches(st: PState, d: Doc, path: Key)
    requires Represents(st, d) && path != [] && DotFree(path)
    ensures !Accepts(d, TableHeader(path)) ==> EstablishContext(st, path, false) == Rejected
    ensures Accepts(d, TableHeader(path)) ==>
      && EstablishContext(st, path, false).Ok?
      && Represents(EstablishContext(st, path, false).value, After(d, TableHeader(path)))
  {
    var n := |path| - 1;
    var init, last := path[..n], path[n];
    var d0 := d.(context := []);
    HeaderBlocked(d, path);
    assert [] + init == init && init + [last] == path;
    FromRoot(st, d);
    hide TreeIs, FlagsAre, Tidy, Blocked, Drill, SetValue;
    DrillMatches(st.(context := []), d0, init);
    if !Blocked(d0, [], init) {
      var st1 := Drill(st.(context := []), init).value;
      SetValueMatches(st1, Walk(d0, init), last, Hash(EMPTY));
      if path !in d.seen {
        var st2 := SetValue(st1, last, Hash(EMPTY)).value;
        HeaderDone(st2, d, path);
      }
    }
  }

  lemma HeaderBlocked(d: Doc, path: Key)
    requires path != []
    ensures Blocked(d.(context := []), [], path[..|path| - 1]) <==> exists n :: 0 < n < |path| && path[..n] in d.leaves
  {
    var init := path[..|path| - 1];
    forall n | 0 < n < |path|
      ensures [] + init[..n] == path[..n]
    {
    }
  }

  lemma HeaderDone(st: PState, d: Doc, path: Key)
    requires path != [] && DotFree(path)
    requires Represents(st, Claim(Walk(d.(context := []), path[..|path| - 1]), path, Hash(EMPTY)))
    ensures Represents(st.(context := path), After(d, TableHeader(path)))
  {
    var init := path[..|path| - 1];
    var e := Claim(Walk(d.(context := []), init), path, Hash(EMPTY));
    assert IsTablePath(e.headers, path) by { assert path in e.headers; }
    WalkInto(st, e, path);
    forall r: Key
      ensures IsTablePath(e.headers + {path}, r) <==> IsTablePath(d.headers + {path}, r)
    {
      TablePathUnion(e.headers, path, r);
      TablePathUnion(d.headers + {init}, path, r);
      TablePathUnion(d.headers, init, r);
      TablePathUnion(d.headers, path, r);
    }
    SameTables(st.(context := path), Walk(e, path), After(d, TableHeader(path)));
  }

  /** One statement: it is accepted exactly if its path has not been named before and, for a
      header, no value stands in its way; nothing else can happen. */
  lemma ExecMatches(st: PState, d: Doc, s: Stmt)
    requires Represents(st, d) && PlainStmt(s)
    ensures !Accepts(d, s) ==> Exec(st, s) == Rejected
    ensures Accepts(d, s) ==> Exec(st, s).Ok? && Represents(Exec(st, s).value, After(d, s))
  {
    match s
    case Comment =>
    case TableHeader(path) =>
      HeaderMatches(st, d, path);
      if Accepts(d, s) {
        Recorded(EstablishContext(st, path, false).value, Exec(st, s).value, After(d, s));
      }
    case Assign(k, v, inner) =>
      SetValueMatches(st, d, k, v);
      if Accepts(d, s) {
        Recorded(SetValue(st, k, v).value, Exec(st, s).value, After(d, s));
      }
  }

  // The key record does not matter.
  lemma Recorded(st: PState, st': PState, d: Doc)
    requires Represents(st, d) && st' == st.(ordered := st'.ordered)
    ensures Represents(st', d)
  {
    forall q: Key | q != [] && DotFree(q)
      ensures IsImplicit(st', q) <==> IsTablePath(d.headers, q) && q !in d.seen
    {
      assert IsImplicit(st, q) <==> IsTablePath(d.headers, q) && q !in d.seen;
    }
  }
}
