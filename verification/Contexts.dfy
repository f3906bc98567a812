/** The current context always leads to a table, unless an implicit mark has gone stale. */
module Contexts {
  import opened Tokens
  import opened Outcomes
  import opened Trees
  import opened ParserSpec
  import opened Acceptance
  import opened Documents
  import opened Monotone

  // Every array of tables has an element.
  ghost predicate Solid(t: Table) {
    forall k :: k in t.entries ==> SolidValue(t.entries[k])
  }

  ghost predicate SolidValue(v: Value) {
    match v
    case Hash(s) => Solid(s)
    case Tables(ts) => ts != [] && forall i :: 0 <= i < |ts| ==> Solid(ts[i])
    case _ => true
  }

  // A table that is marked as implicit is there, and no array of tables is above it.
  ghost predicate MarksHold(st: PState) {
    forall p: Key {:trigger IsImplicit(st, p)} :: p != [] && DotFree(p) && IsImplicit(st, p) ==>
        Lookup(st.mapping, p).Inner?
  }

  ghost predicate Safe(st: PState) {
    Solid(st.mapping) && Get(st.mapping, st.context).At? && MarksHold(st)
  }

  // ---- trees ----

  lemma {:induction false} SolidGet(t: Table, p: Key)
    requires Solid(t)
    ensures !Get(t, p).NoElements?
    ensures Get(t, p).At? ==> Solid(Get(t, p).table)
  {
    if p != [] && p[0] in t.entries {
      assert SolidValue(t.entries[p[0]]);
      if Child(t, p[0]).At? {
        SolidGet(Child(t, p[0]).table, p[1..]);
      }
    }
  }

  lemma SolidWith(t: Table, k: string, v: Value)
    requires Solid(t) && SolidValue(v)
    ensures Solid(With(t, k, v))
  {
  }

  lemma {:induction false} SolidPut(t: Table, p: Key, s: Table)
    requires Solid(t) && Solid(s) && Get(t, p).At?
    ensures Solid(Put(t, p, s))
  {
    if p != [] {
      var c := Child(t, p[0]).table;
      assert SolidValue(t.entries[p[0]]);
      SolidPut(c, p[1..], s);
    }
  }

  // A table that is reached without an array of tables stays so.
  lemma {:induction false} InnerStays(s: Table, t: Table, p: Key)
    requires Grows(s, t) && Lookup(s, p).Inner?
    ensures Lookup(t, p).Inner?
  {
    if p != [] {
      assert GrowsValue(s.entries[p[0]], t.entries[p[0]]);
      InnerStays(s.entries[p[0]].table, t.entries[p[0]].table, p[1..]);
    }
  }

  lemma MarksStay(st: PState, st': PState)
    requires MarksHold(st) && Grows(st.mapping, st'.mapping)
    requires forall p: Key :: IsImplicit(st', p) ==> IsImplicit(st, p)
    ensures MarksHold(st')
  {
    forall p: Key | p != [] && DotFree(p) && IsImplicit(st', p)
      ensures Lookup(st'.mapping, p).Inner?
    {
      assert IsImplicit(st, p);
      InnerStays(st.mapping, st'.mapping, p);
    }
  }

  // ---- binding a value ----

  lemma SetValueSafe(st: PState, k: string, v: Value)
    requires Safe(st) && SolidValue(v)
    ensures SetValue(st, k, v) == Rejected || (SetValue(st, k, v).Ok? && Safe(SetValue(st, k, v).value))
  {
    if SetValue(st, k, v).Ok? {
      var st' := SetValue(st, k, v).value;
      var hash := Get(st.mapping, st.context).table;
      SetValueGrows(st, k, v);
      MarksStay(st, st');
      if k !in hash.entries {
        SolidGet(st.mapping, st.context);
        SolidWith(hash, k, v);
        SolidPut(st.mapping, st.context, With(hash, k, v));
        GetPut(st.mapping, st.context, With(hash, k, v));
      }
    }
  }

  lemma AddElementSafe(st: PState, k: string)
    requires Safe(st)
    ensures AddElement(st, k) == Rejected || (AddElement(st, k).Ok? && Safe(AddElement(st, k).value))
    ensures AddElement(st, k).Ok? ==> Get(AddElement(st, k).value.mapping, st.context + [k]).At?
  {
    if AddElement(st, k).Ok? {
      var st' := AddElement(st, k).value;
      var hash := Get(st.mapping, st.context).table;
      var ts := if k in hash.entries then hash.entries[k].ts else [];
      var next := With(hash, k, Tables(ts + [EMPTY]));
      AddElementGrows(st, k);
      MarksStay(st, st');
      SolidGet(st.mapping, st.context);
      assert k in hash.entries ==> SolidValue(hash.entries[k]);
      SolidWith(hash, k, Tables(ts + [EMPTY]));
      SolidPut(st.mapping, st.context, next);
      GetPut(st.mapping, st.context, next);
      GetAppend(st'.mapping, st.context, k);
    }
  }

  // ---- headers ----

  // On the way down todo, a table has to be made below an element of an array of tables.
  predicate MakesBelowArray(t: Table, todo: Key) {
    && todo != [] && todo[0] in t.entries
    && match t.entries[todo[0]]
       case Hash(s) => MakesBelowArray(s, todo[1..])
       case Tables(ts) => ts != [] && Get(ts[|ts| - 1], todo[1..]).Missing?
       case _ => false
  }

  // The rest of the way is harmless: nothing is made below an array of tables.
  predicate Harmless(st: PState, todo: Key)
    requires Get(st.mapping, st.context).At?
  {
    var t := Get(st.mapping, st.context).table;
    (Lookup(st.mapping, st.context).Inner? && !MakesBelowArray(t, todo)) || !Get(t, todo).Missing?
  }

  // A table made on the way is marked, and it is there.
  lemma MakeSafe(st: PState, k: string, st1: PState)
    requires Safe(st) && DotFree(st.context) && '.' !in k && Lookup(st.mapping, st.context).Inner?
    requires var hash := Get(st.mapping, st.context).table;
             && k !in hash.entries
             && st1 == st.(mapping := Put(st.mapping, st.context, With(hash, k, Hash(EMPTY))),
                           implicits := st.implicits[Join(st.context + [k]) := true], context := st.context + [k])
    ensures Safe(st1) && Get(st1.mapping, st1.context) == At(EMPTY) && Lookup(st1.mapping, st1.context).Inner?
  {
    var hash := Get(st.mapping, st.context).table;
    var next := With(hash, k, Hash(EMPTY));
    WithGrows(hash, k, Hash(EMPTY));
    PutGrows(st.mapping, st.context, next);
    SolidGet(st.mapping, st.context);
    SolidWith(hash, k, Hash(EMPTY));
    SolidPut(st.mapping, st.context, next);
    GetPut(st.mapping, st.context, next);
    GetAppend(st1.mapping, st.context, k);
    InnerStays(st.mapping, st1.mapping, st.context);
    LookupAppend(st1.mapping, st.context, [k]);
    DotFreeAppend(st.context, k);
    forall p: Key | p != [] && DotFree(p) && IsImplicit(st1, p)
      ensures Lookup(st1.mapping, p).Inner?
    {
      if Join(p) == Join(st1.context) {
        JoinInjective(p, st1.context);
      } else {
        assert IsImplicit(st, p);
        InnerStays(st.mapping, st1.mapping, p);
      }
    }
  }

  // Walking into an existing table.
  lemma WalkSafe(st: PState, todo: Key)
    requires Safe(st) && todo != [] && Harmless(st, todo)
    requires Child(Get(st.mapping, st.context).table, todo[0]).At?
    ensures Safe(st.(context := st.context + [todo[0]])) && Harmless(st.(context := st.context + [todo[0]]), todo[1..])
  {
    var st1 := st.(context := st.context + [todo[0]]);
    GetAppend(st.mapping, st.context, todo[0]);
    assert MarksHold(st1) by {
      MarksStay2(st, st1);
    }
    if Lookup(st.mapping, st.context).Inner? {
      LookupAppend(st.mapping, st.context, [todo[0]]);
      assert [todo[0]][1..] == [];
    }
  }

  // Marks do not depend on the context.
  lemma MarksStay2(st: PState, st1: PState)
    requires MarksHold(st) && st1 == st.(context := st1.context)
    ensures MarksHold(st1)
  {
    GrowsReflexive(st.mapping);
    MarksStay(st, st1);
  }

  // One step of the walk: it goes on in st1, or is rejected.
  lemma DrillSafeStep(st: PState, todo: Key) returns (st1: PState)
    requires Safe(st) && DotFree(st.context) && DotFree(todo) && Harmless(st, todo) && todo != []
    ensures Drill(st, todo) == Rejected ||
      (Drill(st, todo) == Drill(st1, todo[1..]) && Safe(st1) && st1.context == st.context + [todo[0]]
          && Harmless(st1, todo[1..]))
  {
    assert '.' !in todo[0];
    hide Solid, MarksHold, DotFree;
    var hash := Get(st.mapping, st.context).table;
    var path := st.context + [todo[0]];
    st1 := st.(context := path);
    if todo[0] !in hash.entries {
      st1 := st.(mapping := Put(st.mapping, st.context, With(hash, todo[0], Hash(EMPTY))),
                 implicits := st.implicits[Join(path) := true], context := path);
      MakeSafe(st, todo[0], st1);
    } else if Child(hash, todo[0]).At? {
      WalkSafe(st, todo);
    } else {
      DrillStopped(st, todo);
    }
  }

  // A value in the way.
  lemma DrillStopped(st: PState, todo: Key)
    requires Safe(st) && todo != []
    requires var t := Get(st.mapping, st.context).table; todo[0] in t.entries && !Child(t, todo[0]).At?
    ensures Drill(st, todo) == Rejected
  {
    SolidGet(st.mapping, st.context + [todo[0]]);
    GetAppend(st.mapping, st.context, todo[0]);
  }

  lemma {:induction false} DrillSafe(st: PState, todo: Key)
    requires Safe(st) && DotFree(st.context) && DotFree(todo) && Harmless(st, todo)
    ensures Drill(st, todo) == Rejected || Drill(st, todo).Ok?
    ensures Drill(st, todo).Ok? ==> Safe(Drill(st, todo).value) && Drill(st, todo).value.context == st.context + todo
    decreases |todo|
  {
    ContextIsTable(st);
    if todo == [] {
      assert st.context + todo == st.context;
    } else {
      hide Safe, Harmless, Drill, Get;
      var st1 := DrillSafeStep(st, todo);
      ContextIsTable(st1);
      if Drill(st, todo) != Rejected {
        DotFreeAppend(st.context, todo[0]);
        DrillSafe(st1, todo[1..]);
        assert st.context + [todo[0]] + todo[1..] == st.context + todo;
      }
    }
  }

  lemma ContextIsTable(st: PState)
    ensures Safe(st) ==> Get(st.mapping, st.context).At?
  {
  }

  // What the theorem asks of a statement.
  predicate DotFreeStmt(s: Stmt) {
    match s
    case TableHeader(path) => path != [] && DotFree(path)
    case ArrayHeader(path) => path != [] && DotFree(path)
    case _ => true
  }

  predicate Quiet(st: PState, s: Stmt) {
    (s.TableHeader? || s.ArrayHeader?) && s.path != [] ==> !MakesBelowArray(st.mapping, s.path[..|s.path| - 1])
  }

  lemma EstablishSafe(st: PState, path: Key, ofArray: bool)
    requires Safe(st) && path != [] && DotFree(path) && !MakesBelowArray(st.mapping, path[..|path| - 1])
    ensures var r := EstablishContext(st, path, ofArray); r == Rejected || (r.Ok? && Safe(r.value))
  {
    var init, last := path[..|path| - 1], path[|path| - 1];
    var st0 := st.(context := []);
    MarksStay2(st, st0);
    DrillSafe(st0, init);
    if Drill(st0, init).Ok? {
      var st1 := Drill(st0, init).value;
      assert [] + init == init && init + [last] == path;
      if ofArray {
        AddElementSafe(st1, last);
        if AddElement(st1, last).Ok? {
          MarksStay2(AddElement(st1, last).value, AddElement(st1, last).value.(context := path));
        }
      } else {
        SetValueSafe(st1, last, Hash(EMPTY));
        if SetValue(st1, last, Hash(EMPTY)).Ok? {
          NewContext(st1, last);
          MarksStay2(SetValue(st1, last, Hash(EMPTY)).value, SetValue(st1, last, Hash(EMPTY)).value.(context := path));
        }
      }
    }
  }

  // After a header the context leads to a table: a new one, or one that was marked.
  lemma NewContext(st: PState, k: string)
    requires Safe(st) && DotFree(st.context + [k]) && SetValue(st, k, Hash(EMPTY)).Ok?
    ensures Get(SetValue(st, k, Hash(EMPTY)).value.mapping, st.context + [k]).At?
  {
    var hash := Get(st.mapping, st.context).table;
    var m := SetValue(st, k, Hash(EMPTY)).value.mapping;
    if k in hash.entries {
      assert IsImplicit(st, st.context + [k]);
      LookupAppend(st.mapping, st.context + [k], []);
    } else {
      GetPut(st.mapping, st.context, With(hash, k, Hash(EMPTY)));
      GetAppend(m, st.context, k);
    }
  }

  /** One statement: if its header makes no table below an array of tables, it is performed or
      rejected, and the context leads to a table again. */
  lemma ExecSafe(st: PState, s: Stmt)
    requires Safe(st) && DotFreeStmt(s) && Quiet(st, s) && (s.Assign? ==> SolidValue(s.val))
    ensures Exec(st, s) == Rejected || (Exec(st, s).Ok? && Safe(Exec(st, s).value))
  {
    match s
    case Comment =>
    case TableHeader(path) =>
      EstablishSafe(st, path, false);
      if Exec(st, s).Ok? {
        SameButRecord(EstablishContext(st, path, false).value, Exec(st, s).value);
      }
    case ArrayHeader(path) =>
      EstablishSafe(st, path, true);
      if Exec(st, s).Ok? {
        SameButRecord(EstablishContext(st, path, true).value, Exec(st, s).value);
      }
    case Assign(k, v, inner) =>
      SetValueSafe(st, k, v);
      if Exec(st, s).Ok? {
        SameButRecord(SetValue(st, k, v).value, Exec(st, s).value);
      }
  }

  lemma SameButRecord(st: PState, st1: PState)
    requires Safe(st) && st1 == st.(ordered := st1.ordered)
    ensures Safe(st1)
  {
    GrowsReflexive(st.mapping);
    MarksStay(st, st1);
  }

  // ---- runs ----

  // Every header of the run is quiet when its turn comes.
  predicate QuietRun(st: PState, stmts: seq<Stmt>)
    decreases |stmts|
  {
    stmts == [] ||
    (&& DotFreeStmt(stmts[0]) && Quiet(st, stmts[0])
     && (Exec(st, stmts[0]).Ok? ==> QuietRun(Exec(st, stmts[0]).value, stmts[1..])))
  }

  lemma {:induction false} RunSafe(st: PState, stmts: seq<Stmt>)
    requires Safe(st) && QuietRun(st, stmts)
    requires SolidStmts(stmts)
    ensures ExecAll(st, stmts) == Rejected || (ExecAll(st, stmts).Ok? && Safe(ExecAll(st, stmts).value))
    decreases |stmts|
  {
    if stmts != [] {
      ExecSafe(st, stmts[0]);
      if Exec(st, stmts[0]).Ok? {
        RunSafe(Exec(st, stmts[0]).value, stmts[1..]);
      }
    }
  }

  // ---- the values that the parser reads ----

  lemma {:induction false} ReadSolid(context: Key, key: string, t: Token, toks: seq<Token>)
    ensures ReadValue(context, key, t, toks).Ok? ==> SolidValue(ReadValue(context, key, t, toks).value.val)
    decreases |toks|, 1
  {
    if ReadValue(context, key, t, toks).Ok? && t.typ.ItemInlineTableStart? {
      ReadPairsSolid(context + [key], map[], [], toks);
    }
  }

  lemma {:induction false} ReadPairsSolid(context: Key, hash: map<string, Value>, keys: seq<Key>, toks: seq<Token>)
    requires forall k :: k in hash ==> SolidValue(hash[k])
    ensures var r := ReadPairs(context, hash, keys, toks); r.Ok? ==> Solid(Table(r.value.val))
    decreases |toks|, 0
  {
    var r := ReadPairs(context, hash, keys, toks);
    if r.Ok? && !toks[0].typ.ItemInlineTableEnd? {
      var pair := ReadPair(context, toks[1..]).value;
      ReadSolid(context, pair.val.0, toks[2], toks[3..]);
      assert toks[1..][1] == toks[2] && toks[1..][2..] == toks[3..];
      assert toks[1..][1..][0] == toks[2];
      ReadPairsSolid(context, hash[pair.val.0 := pair.val.1], keys + pair.keys + [context + [pair.val.0]], pair.rest);
    }
  }

  lemma StmtSolid(context: Key, toks: seq<Token>)
    ensures var r := ParseStmt(context, toks); r.Ok? && r.value.val.Assign? ==> SolidValue(r.value.val.val)
  {
    var r := ParseStmt(context, toks);
    if r.Ok? && r.value.val.Assign? {
      var pair := ReadPair(context, toks[1..]).value;
      ReadSolid(context, pair.val.0, toks[2], toks[3..]);
      assert toks[1..][1] == toks[2] && toks[1..][2..] == toks[3..];
      assert toks[1..][1..][0] == toks[2];
    }
  }

  ghost predicate SolidStmts(stmts: seq<Stmt>) {
    forall i :: 0 <= i < |stmts| ==> stmts[i].Assign? ==> SolidValue(stmts[i].val)
  }

  lemma SolidFirst(s: Stmt, rest: seq<Stmt>)
    requires SolidStmts(rest) && (s.Assign? ==> SolidValue(s.val))
    ensures SolidStmts([s] + rest)
  {
  }

  lemma {:induction false} StatementsSolid(context: Key, toks: seq<Token>)
    ensures SolidStmts(ReadAll(context, toks).0)
    decreases |toks|
  {
    var r := ParseStmt(context, toks);
    if toks != [] && !toks[0].typ.ItemEOF? && r.Ok? {
      StmtSolid(context, toks);
      StatementsSolid(Moved(context, r.value.val), r.value.rest);
      SolidFirst(r.value.val, ReadAll(Moved(context, r.value.val), r.value.rest).0);
    }
  }

  /** The assertions about the context never fail in a document with dot-free headers none of
      which makes a table below an array of tables. */
  lemma ContextsHold(toks: seq<Token>, stmts: seq<Stmt>)
    requires Statements([], toks) == Ok(stmts) && QuietRun(ParserSpec.INIT, stmts)
    ensures Parse(toks) == Rejected || (Parse(toks).Ok?
        && Get(Parse(toks).value.mapping, Parse(toks).value.context).At?)
  {
    ParseFactors(ParserSpec.INIT, toks);
    StatementsSolid([], toks);
    RunSafe(ParserSpec.INIT, stmts);
  }
}
