/** What a header does to the tree, said by recursion on the path from the root.

The parser walks from the root with a context that grows piece by piece, makes missing tables and
marks them, and then sets the last piece.  The result is that of one recursive insertion, in every
state, whatever arrays of tables are on the way. */
module HeaderTrees {
  import opened Outcomes
  import opened Trees
  import opened ParserSpec
  import opened RoundTrip

  // Sets the last piece of a header in its parent; marked says that the table there is implicit.
  function Leaf(t: Table, k: string, ofArray: bool, marked: bool): Outcome<Table> {
    if k !in t.entries then Ok(With(t, k, if ofArray then Tables([EMPTY]) else Hash(EMPTY)))
    else if ofArray then
      if t.entries[k].Tables? then Ok(With(t, k, Tables(t.entries[k].ts + [EMPTY]))) else Rejected
    else
      if marked then Ok(t) else Rejected
  }

  // Inserts a header: missing tables are made, arrays of tables are entered at their last element,
  // and a value on the way is an error.
  function Insert(t: Table, path: Key, ofArray: bool, marked: bool): Outcome<Table>
    requires path != []
    decreases |path|
  {
    if |path| == 1 then Leaf(t, path[0], ofArray, marked) else
      match Child(t, path[0])
      case Missing =>
        var s :- Insert(EMPTY, path[1..], ofArray, marked);
        Ok(With(t, path[0], Hash(s)))
      case At(s) =>
        var s' :- Insert(s, path[1..], ofArray, marked);
        Ok(PutChild(t, path[0], s'))
      case NotATable => Rejected
      case NoElements => Bug(NoElement)
  }

  // ---- the walk ----

  // Makes the tables on the way.
  function Fill(t: Table, path: Key): Outcome<Table>
    decreases |path|
  {
    if path == [] then Ok(t) else
      match Child(t, path[0])
      case Missing =>
        var s :- Fill(EMPTY, path[1..]);
        Ok(With(t, path[0], Hash(s)))
      case At(s) =>
        var s' :- Fill(s, path[1..]);
        Ok(PutChild(t, path[0], s'))
      case NotATable => Rejected
      case NoElements => Bug(NoElement)
  }

  // The outcome of the walk, in terms of the table that the context leads to.
  predicate Walked(st: PState, todo: Key, r: Outcome<PState>)
    requires Get(st.mapping, st.context).At?
  {
    match Fill(Get(st.mapping, st.context).table, todo)
    case Ok(t) =>
      r.Ok? && r.value.context == st.context + todo && r.value.mapping == Put(st.mapping, st.context, t)
    case Rejected => r == Rejected
    case Bug(site) => r == Bug(site)
  }

  lemma WithTwice(t: Table, k: string, v: Value, w: Value)
    ensures With(With(t, k, v), k, w) == With(t, k, w)
  {
  }

  lemma {:induction false} DrillFills(st: PState, todo: Key)
    requires Get(st.mapping, st.context).At?
    ensures Walked(st, todo, Drill(st, todo))
    decreases |todo|
  {
    var cur := Get(st.mapping, st.context).table;
    if todo == [] {
      assert st.context + todo == st.context;
      PutSame(st.mapping, st.context, cur);
    } else {
      var k, path := todo[0], st.context + [todo[0]];
      assert path + todo[1..] == st.context + todo;
      match Child(cur, k) {
        case Missing =>
          var made := With(cur, k, Hash(EMPTY));
          var st1 := st.(mapping := Put(st.mapping, st.context, made), implicits := st.implicits[Join(path) := true],
                         context := path);
          FreshChild(st.mapping, st.context, made, k);
          DrillFills(st1, todo[1..]);
          assert Drill(st, todo) == Drill(st1, todo[1..]);
          if Fill(EMPTY, todo[1..]).Ok? {
            var filled := Fill(EMPTY, todo[1..]).value;
            FilledChild(st.mapping, st.context, made, k, filled);
            WithTwice(cur, k, Hash(EMPTY), Hash(filled));
          }
        case At(s) =>
          var st1 := st.(context := path);
          GetAppend(st.mapping, st.context, k);
          DrillFills(st1, todo[1..]);
          assert Drill(st, todo) == Drill(st1, todo[1..]);
          if Fill(s, todo[1..]).Ok? {
            PutAppend(st.mapping, st.context, k, Fill(s, todo[1..]).value);
          }
        case NotATable =>
        case NoElements =>
      }
    }
  }

  // ---- the last piece ----

  // Filling the way and then setting the last piece in the parent is inserting the header.
  lemma {:induction false} FillThenLeaf(t: Table, path: Key, k: string, ofArray: bool, marked: bool)
    ensures match Fill(t, path)
            case Ok(filled) =>
              && Get(filled, path).At?
              && Insert(t, path + [k], ofArray, marked)
                 == Placed(filled, path, Leaf(Get(filled, path).table, k, ofArray, marked))
            case Rejected => Insert(t, path + [k], ofArray, marked) == Rejected
            case Bug(site) => Insert(t, path + [k], ofArray, marked) == Bug(site)
    decreases |path|
  {
    if path == [] {
      assert [] + [k] == [k];
    } else {
      var full := path + [k];
      assert full[0] == path[0] && full[1..] == path[1..] + [k];
      match Child(t, path[0]) {
        case Missing =>
          FillThenLeaf(EMPTY, path[1..], k, ofArray, marked);
          if Fill(EMPTY, path[1..]).Ok? {
            var filled := Fill(EMPTY, path[1..]).value;
            var r := Placed(filled, path[1..], Leaf(Get(filled, path[1..]).table, k, ofArray, marked));
            if r.Ok? {
              WithTwice(t, path[0], Hash(filled), Hash(r.value));
            }
          }
        case At(s) =>
          FillThenLeaf(s, path[1..], k, ofArray, marked);
          if Fill(s, path[1..]).Ok? {
            ChildOfPut(t, path[0], Fill(s, path[1..]).value);
          }
        case NotATable =>
        case NoElements =>
      }
    }
  }

  // The tree with the outcome in place of the table at the path.
  function Placed(t: Table, path: Key, r: Outcome<Table>): Outcome<Table>
    requires Get(t, path).At?
  {
    var s :- r;
    Ok(Put(t, path, s))
  }

  lemma ChildOfPut(t: Table, k: string, s: Table)
    requires Child(t, k).At?
    ensures Child(PutChild(t, k, s), k) == At(s)
    ensures forall s' :: PutChild(PutChild(t, k, s), k, s') == PutChild(t, k, s')
  {
    forall s'
      ensures PutChild(PutChild(t, k, s), k, s') == PutChild(t, k, s')
    {
      PutChildTwice(t, k, s, s');
    }
  }

  lemma PutChildTwice(t: Table, k: string, s: Table, s': Table)
    requires Child(t, k).At?
    ensures Child(PutChild(t, k, s), k) == At(s) && PutChild(PutChild(t, k, s), k, s') == PutChild(t, k, s')
  {
    if t.entries[k].Tables? {
      var ts := t.entries[k].ts;
      assert (ts[..|ts| - 1] + [s])[..|ts| - 1] == ts[..|ts| - 1];
    }
  }

  // An implicit mark of the path is not made on the way to its parent.
  lemma {:induction false} MarksOnTheWay(st: PState, todo: Key, name: string)
    requires Drill(st, todo).Ok? && |Join(st.context + todo)| < |name|
    requires st.context != [] ==> Join(st.context) <= Join(st.context + todo)
    ensures name in Drill(st, todo).value.implicits <==> name in st.implicits
    ensures name in st.implicits ==> Drill(st, todo).value.implicits[name] == st.implicits[name]
    decreases |todo|
  {
    if todo != [] {
      var path := st.context + [todo[0]];
      assert path + todo[1..] == st.context + todo;
      JoinPrefix(path, todo[1..]);
      var hash := Context(st).value;
      var st1 := if todo[0] in hash.entries then st
                 else st.(mapping := Put(st.mapping, st.context, With(hash, todo[0], Hash(EMPTY))),
                          implicits := st.implicits[Join(path) := true]);
      assert Drill(st, todo) == Drill(st1.(context := path), todo[1..]);
      MarksOnTheWay(st1.(context := path), todo[1..], name);
    }
  }

  lemma {:induction false} JoinPrefix(p: Key, q: Key)
    requires p != []
    ensures Join(p) <= Join(p + q) && (q != [] ==> |Join(p)| < |Join(p + q)|)
    decreases |q|
  {
    if q == [] {
      assert p + q == p;
    } else {
      var init := q[..|q| - 1];
      assert (p + q)[..|p + q| - 1] == p + init;
      JoinPrefix(p, init);
    }
  }

  // ---- the result ----

  // The outcome of a header, in terms of the tree that it gives.
  predicate Gives(r: Outcome<PState>, t: Outcome<Table>, path: Key) {
    match t
    case Ok(tree) => r.Ok? && r.value.mapping == tree && r.value.context == path
    case Rejected => r == Rejected
    case Bug(site) => r == Bug(site)
  }

  lemma LastPiece(st: PState, m: Table, init: Key, k: string, ofArray: bool)
    requires Get(st.mapping, init).At? && st.context == init
    requires st.mapping == m
    ensures var r := if ofArray then AddElement(st, k) else SetValue(st, k, Hash(EMPTY));
            match Placed(m, init, Leaf(Get(m, init).table, k, ofArray, IsImplicit(st, init + [k])))
            case Ok(tree) => r.Ok? && r.value.mapping == tree
            case Rejected => r == Rejected
            case Bug(_) => false
  {
    var cur := Get(m, init).table;
    assert [] + [EMPTY] == [EMPTY];
    PutSame(m, init, cur);
  }

  /** In every state a header of either kind has the outcome of inserting it into the tree, and an
      accepted one becomes the context. */
  lemma HeaderInserts(st: PState, path: Key, ofArray: bool)
    requires path != []
    ensures Gives(Exec(st, if ofArray then ArrayHeader(path) else TableHeader(path)),
                  Insert(st.mapping, path, ofArray, IsImplicit(st, path)), path)
  {
    var init, k := path[..|path| - 1], path[|path| - 1];
    assert init + [k] == path && [] + init == init;
    var st0 := st.(context := []);
    DrillFills(st0, init);
    FillThenLeaf(st.mapping, init, k, ofArray, IsImplicit(st, path));
    var r := Drill(st0, init);
    if r.Ok? {
      assert Put(st.mapping, [], Fill(st.mapping, init).value) == Fill(st.mapping, init).value;
      SameMark(st0, init, k);
      LastPiece(r.value, r.value.mapping, init, k, ofArray);
    }
  }

  lemma SameMark(st: PState, init: Key, k: string)
    requires st.context == [] && Drill(st, init).Ok?
    ensures IsImplicit(Drill(st, init).value, init + [k]) == IsImplicit(st, init + [k])
  {
    assert [] + init == init;
    if init != [] {
      JoinPrefix(init, [k]);
      MarksOnTheWay(st, init, Join(init + [k]));
    }
  }

  // ---- assignments ----

  // Binds the last piece of a path whose other pieces lead to a table.
  function Assigned(t: Table, path: Key, v: Value, marked: bool): Outcome<Table>
    requires path != []
    decreases |path|
  {
    if |path| == 1 then
      if path[0] !in t.entries then Ok(With(t, path[0], v)) else if marked then Ok(t) else Rejected
    else
      match Child(t, path[0])
      case Missing => Bug(NoContext)
      case At(s) =>
        var s' :- Assigned(s, path[1..], v, marked);
        Ok(PutChild(t, path[0], s'))
      case NotATable => Bug(NotAHash)
      case NoElements => Bug(NoElement)
  }

  lemma {:induction false} AssignsAt(t: Table, path: Key, k: string, v: Value, marked: bool)
    ensures Assigned(t, path + [k], v, marked)
         == match Get(t, path)
            case Missing => Bug(NoContext)
            case NotATable => Bug(NotAHash)
            case NoElements => Bug(NoElement)
            case At(cur) => Placed(t, path, Assigned(cur, [k], v, marked))
    decreases |path|
  {
    var full := path + [k];
    if path == [] {
      assert full == [k];
    } else {
      assert full[0] == path[0] && full[1..] == path[1..] + [k];
      if Child(t, path[0]).At? {
        AssignsAt(Child(t, path[0]).table, path[1..], k, v, marked);
      }
    }
  }

  /** In every state an assignment has the outcome of binding the key in the tree below the context,
      which it keeps; a mark that it meets is used up, and no other mark is changed. */
  lemma AssignInserts(st: PState, k: string, v: Value, inner: seq<Key>)
    ensures var full := st.context + [k]; var r := Exec(st, Assign(k, v, inner));
            && Gives(r, Assigned(st.mapping, full, v, IsImplicit(st, full)), st.context)
            && (r.Ok? ==> !IsImplicit(r.value, full) || k !in Get(st.mapping, st.context).table.entries)
            && (r.Ok? ==> forall p: Key :: Join(p) != Join(full) ==> IsImplicit(r.value, p) == IsImplicit(st, p))
  {
    AssignsAt(st.mapping, st.context, k, v, IsImplicit(st, st.context + [k]));
    if Get(st.mapping, st.context).At? {
      PutSame(st.mapping, st.context, Get(st.mapping, st.context).table);
    }
  }
}
