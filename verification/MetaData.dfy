/** The record of keys, and IsDefined. */
module MetaData {
  import opened Sequences
  import opened Tokens
  import opened Outcomes
  import opened Trees
  import opened ParserSpec
  import opened Acceptance
  import opened Documents

  // MetaData.IsDefined
  method IsDefined(mapping: Table, key: Key) returns (defined: bool)
    ensures defined <==> key != [] && Lookup(mapping, key) != Absent
  {
    if |key| == 0 {
      return false;
    }
    var hashOrVal := Hash(mapping);
    for i := 0 to |key|
      invariant hashOrVal.Hash? ==> Lookup(mapping, key) == Lookup(hashOrVal.table, key[i..])
      invariant !hashOrVal.Hash? ==> (Lookup(mapping, key) != Absent <==> i == |key|)
    {
      if !hashOrVal.Hash? {
        return false;
      }
      assert key[i..][0] == key[i] && key[i..][1..] == key[i + 1..];
      if key[i] !in hashOrVal.table.entries {
        return false;
      }
      hashOrVal := hashOrVal.table.entries[key[i]];
    }
    return true;
  }

  // The keys that a statement adds to the record.
  function Added(context: Key, s: Stmt): seq<Key> {
    match s
    case Comment => []
    case TableHeader(path) => [path]
    case ArrayHeader(path) => [path]
    case Assign(k, _, inner) => inner + [context + [k]]
  }

  // Headers of tables, and assignments of values without inline tables.
  predicate Recordable(s: Stmt) {
    && !s.ArrayHeader?
    && (s.Assign? ==> IsLeafValue(s.val) && s.inner == [])
  }

  // There is no array of tables in the tree.
  ghost predicate NoArrays(t: Table) {
    forall q: Key {:trigger Lookup(t, q)} :: Lookup(t, q).Leaf? ==> !Lookup(t, q).val.Tables?
  }

  predicate Prefixed(keys: seq<Key>, q: Key) {
    exists r :: r in keys && q <= r
  }

  // The nodes of the tree are the prefixes of the keys, and of the path walked so far.
  ghost predicate Records(t: Table, keys: seq<Key>, walked: Key) {
    forall q: Key {:trigger Lookup(t, q)} :: q != [] ==> (Lookup(t, q) != Absent <==> q <= walked || Prefixed(keys, q))
  }

  // ---- paths ----

  lemma {:induction false} PrefixIsNode(t: Table, p: Key, q: Key)
    requires Lookup(t, p) != Absent && q <= p
    ensures Lookup(t, q) != Absent
  {
    if q != [] && |p| > 1 {
      PrefixIsNode(t.entries[p[0]].table, p[1..], q[1..]);
    }
  }

  lemma {:induction false} TableIsInner(t: Table, p: Key)
    requires NoArrays(t) && Get(t, p).At?
    ensures Lookup(t, p).Inner?
  {
    if p != [] {
      assert Lookup(t, [p[0]]) == NodeOf(t.entries[p[0]]) by {
        assert [p[0]][1..] == [];
      }
      var c := Child(t, p[0]).table;
      forall q: Key
        ensures Lookup(c, q).Leaf? ==> !Lookup(c, q).val.Tables?
      {
        LookupChild(t, p[0], q);
        assert Lookup(t, [p[0]] + q) == Lookup(c, q);
      }
      TableIsInner(c, p[1..]);
    }
  }

  // A path to a node may be taken as walked.
  lemma Widen(t: Table, keys: seq<Key>, walked: Key, p: Key)
    requires Records(t, keys, walked) && walked <= p && Lookup(t, p) != Absent
    ensures Records(t, keys, p)
  {
    forall q: Key | q != []
      ensures Lookup(t, q) != Absent <==> q <= p || Prefixed(keys, q)
    {
      if q <= p {
        PrefixIsNode(t, p, q);
      }
      assert Lookup(t, q) != Absent <==> q <= walked || Prefixed(keys, q);
    }
  }

  // The walked path is recorded.
  lemma Record(t: Table, keys: seq<Key>, p: Key)
    requires Records(t, keys, p)
    ensures Records(t, keys + [p], [])
  {
    forall q: Key | q != []
      ensures Lookup(t, q) != Absent <==> q <= [] || Prefixed(keys + [p], q)
    {
      assert Lookup(t, q) != Absent <==> q <= p || Prefixed(keys, q);
      if q <= p {
        assert p in keys + [p];
      }
      if Prefixed(keys, q) {
        var r :| r in keys && q <= r;
        assert r in keys + [p];
      }
    }
  }

  // A new binding in the table at p.
  lemma BindRecords(t: Table, keys: seq<Key>, p: Key, k: string, v: Value)
    requires NoArrays(t) && Records(t, keys, p) && Get(t, p).At? && k !in Get(t, p).table.entries
    requires v == Hash(EMPTY) || IsLeafValue(v)
    ensures var t' := Put(t, p, With(Get(t, p).table, k, v));
            NoArrays(t') && Records(t', keys, p + [k]) && Lookup(t', p + [k]) == NodeOf(v)
  {
    TableIsInner(t, p);
    var t' := Put(t, p, With(Get(t, p).table, k, v));
    forall q: Key
      ensures Lookup(t', q) == if q == p + [k] then NodeOf(v) else Lookup(t, q)
    {
      LookupPut(t, p, k, v, q);
    }
    forall q: Key | q != []
      ensures Lookup(t', q) != Absent <==> q <= p + [k] || Prefixed(keys, q)
    {
      assert Lookup(t, q) != Absent <==> q <= p || Prefixed(keys, q);
      if q <= p + [k] && q != p + [k] {
        assert q <= p;
      }
    }
  }

  lemma {:induction false} DrillRecords(st: PState, todo: Key)
    requires NoArrays(st.mapping) && Records(st.mapping, st.ordered, st.context)
    requires Get(st.mapping, st.context).At? && Drill(st, todo).Ok?
    ensures var st' := Drill(st, todo).value;
            && NoArrays(st'.mapping) && Records(st'.mapping, st.ordered, st.context + todo)
            && st'.context == st.context + todo && st'.ordered == st.ordered && Get(st'.mapping, st'.context).At?
    decreases |todo|
  {
    if todo == [] {
      assert st.context + todo == st.context;
    } else {
      var hash := Get(st.mapping, st.context).table;
      var path := st.context + [todo[0]];
      assert path + todo[1..] == st.context + todo;
      GetAppend(st.mapping, st.context, todo[0]);
      if todo[0] in hash.entries {
        TableIsInner(st.mapping, path);
        Widen(st.mapping, st.ordered, st.context, path);
        DrillRecords(st.(context := path), todo[1..]);
      } else {
        var t := Put(st.mapping, st.context, With(hash, todo[0], Hash(EMPTY)));
        BindRecords(st.mapping, st.ordered, st.context, todo[0], Hash(EMPTY));
        GetPut(st.mapping, st.context, With(hash, todo[0], Hash(EMPTY)));
        GetAppend(t, st.context, todo[0]);
        DrillRecords(st.(mapping := t, implicits := st.implicits[Join(path) := true], context := path), todo[1..]);
      }
    }
  }

  lemma SetValueRecords(st: PState, k: string, v: Value)
    requires NoArrays(st.mapping) && Records(st.mapping, st.ordered, st.context)
    requires SetValue(st, k, v).Ok? && (v == Hash(EMPTY) || IsLeafValue(v))
    ensures var st' := SetValue(st, k, v).value;
            && NoArrays(st'.mapping) && Records(st'.mapping, st.ordered, st.context + [k])
            && st'.context == st.context && st'.ordered == st.ordered
            && Lookup(st'.mapping, st.context + [k]) != Absent && Lookup(st'.mapping, st.context) != Absent
  {
    var hash := Get(st.mapping, st.context).table;
    var p := st.context + [k];
    TableIsInner(st.mapping, st.context);
    if k in hash.entries {
      LookupAppend(st.mapping, st.context, [k]);
      assert [k][1..] == [];
      Widen(st.mapping, st.ordered, st.context, p);
    } else {
      BindRecords(st.mapping, st.ordered, st.context, k, v);
      PrefixIsNode(SetValue(st, k, v).value.mapping, p, st.context);
    }
  }

  // ---- statements ----

  // What every statement keeps.
  ghost predicate Recorded(st: PState) {
    NoArrays(st.mapping) && Records(st.mapping, st.ordered, []) && Lookup(st.mapping, st.context) != Absent
  }

  lemma ExecRecords(st: PState, s: Stmt)
    requires Recorded(st) && Recordable(s) && Exec(st, s).Ok?
    ensures Recorded(Exec(st, s).value)
    ensures Exec(st, s).value.ordered == st.ordered + Added(st.context, s)
  {
    match s
    case Comment =>
      assert st.ordered + [] == st.ordered;
    case TableHeader(path) =>
      var init, last := path[..|path| - 1], path[|path| - 1];
      var st0 := st.(context := []);
      var none: Key := [];
      assert none + init == init && init + [last] == path;
      DrillRecords(st0, init);
      var st1 := Drill(st0, init).value;
      SetValueRecords(st1, last, Hash(EMPTY));
      Record(SetValue(st1, last, Hash(EMPTY)).value.mapping, st.ordered, path);
    case Assign(k, v, inner) =>
      Widen(st.mapping, st.ordered, [], st.context);
      SetValueRecords(st, k, v);
      Record(SetValue(st, k, v).value.mapping, st.ordered, st.context + [k]);
      assert st.ordered + inner + [st.context + [k]] == st.ordered + Added(st.context, s);
      assert st.ordered + inner + [st.context + [k]] == st.ordered + [st.context + [k]];
  }

  lemma {:induction false} RunRecords(st: PState, stmts: seq<Stmt>)
    requires Recorded(st) && (forall i :: 0 <= i < |stmts| ==> Recordable(stmts[i])) && ExecAll(st, stmts).Ok?
    ensures Recorded(ExecAll(st, stmts).value)
    decreases |stmts|
  {
    if stmts != [] {
      ExecRecords(st, stmts[0]);
      RunRecords(Exec(st, stmts[0]).value, stmts[1..]);
    }
  }

  /** In every accepted document without arrays of tables and inline tables, whatever its keys, a
      key is defined exactly if it is a non-empty prefix of a recorded key. */
  lemma DefinedKeys(toks: seq<Token>, stmts: seq<Stmt>, key: Key)
    requires Statements([], toks) == Ok(stmts) && Parse(toks).Ok?
    requires forall i :: 0 <= i < |stmts| ==> Recordable(stmts[i])
    ensures key != [] && Lookup(Parse(toks).value.mapping, key) != Absent
       <==> key != [] && exists r: Key :: r in Parse(toks).value.ordered && key <= r
  {
    ParseFactors(ParserSpec.INIT, toks);
    RunRecords(ParserSpec.INIT, stmts);
    var st := Parse(toks).value;
    if key != [] {
      assert Lookup(st.mapping, key) != Absent <==> key <= [] || Prefixed(st.ordered, key);
    }
  }

  // ---- the key record ----

  // The keys that a statement records: a header its path, an assignment the keys of its inline
  // tables and then its own.
  function KeysOf(context: Key, s: Stmt): seq<Key> {
    match s
    case Comment => []
    case TableHeader(path) => [path]
    case ArrayHeader(path) => [path]
    case Assign(key, _, inner) => inner + [context + [key]]
  }

  function AllKeysOf(context: Key, stmts: seq<Stmt>): seq<Key>
    decreases |stmts|
  {
    if stmts == [] then [] else KeysOf(context, stmts[0]) + AllKeysOf(Moved(context, stmts[0]), stmts[1..])
  }

  /** Whatever the statements, an accepted document records their keys in the order of the text. */
  lemma {:induction false} KeysInOrder(st: PState, stmts: seq<Stmt>)
    requires ExecAll(st, stmts).Ok?
    ensures ExecAll(st, stmts).value.ordered == st.ordered + AllKeysOf(st.context, stmts)
    decreases |stmts|
  {
    if stmts == [] {
      assert st.ordered + [] == st.ordered;
    } else {
      hide Moved, KeysOf;
      ExecMoves(st, stmts[0]);
      ExecKeys(st, stmts[0]);
      var st1 := Exec(st, stmts[0]).value;
      KeysInOrder(st1, stmts[1..]);
      Regroup(st.ordered, KeysOf(st.context, stmts[0]), AllKeysOf(st1.context, stmts[1..]));
    }
  }

  lemma ExecKeys(st: PState, s: Stmt)
    requires Exec(st, s).Ok?
    ensures Exec(st, s).value.ordered == st.ordered + KeysOf(st.context, s)
  {
    match s
    case Comment => assert st.ordered + [] == st.ordered;
    case TableHeader(path) => DrillKeys(st.(context := []), path[..|path| - 1]);
    case ArrayHeader(path) => DrillKeys(st.(context := []), path[..|path| - 1]);
    case Assign(k, v, inner) =>
      assert st.ordered + inner + [st.context + [k]] == st.ordered + (inner + [st.context + [k]]);
  }

  lemma {:induction false} DrillKeys(st: PState, todo: Key)
    requires Drill(st, todo).Ok?
    ensures Drill(st, todo).value.ordered == st.ordered
    decreases |todo|
  {
    if todo != [] {
      var hash := Context(st).value;
      var path := st.context + [todo[0]];
      var st1 := if todo[0] in hash.entries then st
                 else st.(mapping := Put(st.mapping, st.context, With(hash, todo[0], Hash(EMPTY))),
                          implicits := st.implicits[Join(path) := true]);
      assert Drill(st, todo) == Drill(st1.(context := path), todo[1..]);
      DrillKeys(st1.(context := path), todo[1..]);
    }
  }
}
