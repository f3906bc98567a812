/** When the assertions about the current context fail: never two of them, and the third
exactly when an assignment follows a header whose implicit mark is stale. */
module ContextLoss {
  import opened Tokens
  import opened LexRun
  import opened Outcomes
  import opened Trees
  import opened ParserSpec
  import opened Documents
  import opened Contexts
  import opened LexerMeetsParser

  // ---- stale marks ----

  // The parent of the path has a value at its last piece that is marked as an implicit table.
  predicate Stale(st: PState, path: Key)
    requires path != []
  {
    var parent := Get(st.mapping, path[..|path| - 1]);
    && parent.At? && path[|path| - 1] in parent.table.entries
    && !Child(parent.table, path[|path| - 1]).At?
    && IsImplicit(st, path)
  }

  // A walk that comes to its end.
  lemma {:induction false} DrillReaches(st: PState, todo: Key)
    requires Get(st.mapping, st.context).At? && Drill(st, todo).Ok?
    ensures var st1 := Drill(st, todo).value; var p := st.context + todo;
            && st1.context == p
            && if Get(st.mapping, p).At? then st1.mapping == st.mapping && st1.implicits == st.implicits
               else Get(st1.mapping, p) == At(EMPTY)
    decreases |todo|
  {
    if todo == [] {
      assert st.context + todo == st.context;
    } else {
      var hash := Get(st.mapping, st.context).table;
      var path := st.context + [todo[0]];
      assert path + todo[1..] == st.context + todo;
      GetAppend(st.mapping, st.context, todo[0]);
      if todo[0] in hash.entries {
        DrillReaches(st.(context := path), todo[1..]);
      } else {
        var next := With(hash, todo[0], Hash(EMPTY));
        var st1 := st.(mapping := Put(st.mapping, st.context, next),
                       implicits := st.implicits[Join(path) := true], context := path);
        GetPut(st.mapping, st.context, next);
        GetAppend(st1.mapping, st.context, todo[0]);
        DrillReaches(st1, todo[1..]);
        StillEmpty(st1.mapping, path, todo[1..]);
        if Get(st.mapping, path + todo[1..]).At? {
          GetPrefix(st.mapping, path, todo[1..]);
        }
      }
    }
  }

  // Below an empty table there is only the table itself.
  lemma {:induction false} StillEmpty(t: Table, p: Key, q: Key)
    requires Get(t, p) == At(EMPTY)
    ensures Get(t, p + q).At? ==> Get(t, p + q) == At(EMPTY)
    decreases |q|
  {
    if q == [] {
      assert p + q == p;
    } else if Get(t, p + q).At? {
      assert p + q == p + [q[0]] + q[1..];
      GetPrefix(t, p + [q[0]], q[1..]);
      GetAppend(t, p, q[0]);
    }
  }

  /** A header that is accepted leads to a table, exactly if its mark is not stale. */
  lemma ContextLost(st: PState, path: Key)
    requires Exec(st, TableHeader(path)).Ok?
    ensures path != []
    ensures Get(Exec(st, TableHeader(path)).value.mapping, path).At? <==> !Stale(st, path)
  {
    var init, last := path[..|path| - 1], path[|path| - 1];
    var st0 := st.(context := []);
    assert [] + init == init && init + [last] == path;
    DrillReaches(st0, init);
    var st1 := Drill(st0, init).value;
    ChildAfter(st1, last);
  }

  // What setValue leaves at a key of the current table.
  lemma ChildAfter(st: PState, k: string)
    requires SetValue(st, k, Hash(EMPTY)).Ok?
    ensures var hash := Get(st.mapping, st.context);
            && hash.At?
            && (Get(SetValue(st, k, Hash(EMPTY)).value.mapping, st.context + [k]).At?
                <==> k !in hash.table.entries || Child(hash.table, k).At?)
  {
    var hash := Get(st.mapping, st.context).table;
    if k !in hash.entries {
      GetPut(st.mapping, st.context, With(hash, k, Hash(EMPTY)));
    }
    GetAppend(SetValue(st, k, Hash(EMPTY)).value.mapping, st.context, k);
  }

  // ---- one statement, in any state that a document reaches ----

  // The context leads to a table or to a value.
  ghost predicate Known(st: PState) {
    Solid(st.mapping) && (Get(st.mapping, st.context).At? || Get(st.mapping, st.context).NotATable?)
  }

  lemma {:induction false} DrillSolid(st: PState, todo: Key)
    requires Solid(st.mapping) && Get(st.mapping, st.context).At?
    ensures !Drill(st, todo).Bug?
    ensures Drill(st, todo).Ok? ==> Solid(Drill(st, todo).value.mapping)
    decreases |todo|
  {
    if todo != [] {
      var hash := Get(st.mapping, st.context).table;
      var path := st.context + [todo[0]];
      GetAppend(st.mapping, st.context, todo[0]);
      SolidGet(st.mapping, path);
      if todo[0] !in hash.entries {
        var next := With(hash, todo[0], Hash(EMPTY));
        SolidGet(st.mapping, st.context);
        SolidWith(hash, todo[0], Hash(EMPTY));
        SolidPut(st.mapping, st.context, next);
        GetPut(st.mapping, st.context, next);
        GetAppend(Put(st.mapping, st.context, next), st.context, todo[0]);
        DrillSolid(st.(mapping := Put(st.mapping, st.context, next), implicits := st.implicits[Join(path) := true],
                       context := path), todo[1..]);
      } else if Child(hash, todo[0]).At? {
        DrillSolid(st.(context := path), todo[1..]);
      }
    }
  }

  // A binding in a table that is there.
  lemma SetValueKnown(st: PState, k: string, v: Value)
    requires Solid(st.mapping) && Get(st.mapping, st.context).At? && SolidValue(v)
    ensures var r := SetValue(st, k, v);
            !r.Bug? && (r.Ok? ==>
                Solid(r.value.mapping) && Get(r.value.mapping, st.context).At? && r.value.context == st.context)
    ensures var r := SetValue(st, k, v);
            r.Ok? && v == Hash(EMPTY) ==> Known(r.value.(context := st.context + [k]))
  {
    var hash := Get(st.mapping, st.context).table;
    var r := SetValue(st, k, v);
    if r.Ok? {
      if k !in hash.entries {
        SolidGet(st.mapping, st.context);
        SolidWith(hash, k, v);
        SolidPut(st.mapping, st.context, With(hash, k, v));
        GetPut(st.mapping, st.context, With(hash, k, v));
      }
      GetAppend(r.value.mapping, st.context, k);
      SolidGet(r.value.mapping, st.context + [k]);
    }
  }

  lemma AddElementKnown(st: PState, k: string)
    requires Solid(st.mapping) && Get(st.mapping, st.context).At?
    ensures var r := AddElement(st, k);
            !r.Bug? && (r.Ok? ==> Solid(r.value.mapping) && Get(r.value.mapping, st.context + [k]).At?)
  {
    var r := AddElement(st, k);
    if r.Ok? {
      var hash := Get(st.mapping, st.context).table;
      var ts := if k in hash.entries then hash.entries[k].ts else [];
      var next := With(hash, k, Tables(ts + [EMPTY]));
      SolidGet(st.mapping, st.context);
      assert k in hash.entries ==> SolidValue(hash.entries[k]);
      SolidWith(hash, k, Tables(ts + [EMPTY]));
      SolidPut(st.mapping, st.context, next);
      GetPut(st.mapping, st.context, next);
      GetAppend(r.value.mapping, st.context, k);
    }
  }

  lemma EstablishKnown(st: PState, path: Key, ofArray: bool)
    requires Solid(st.mapping) && path != []
    ensures var r := EstablishContext(st, path, ofArray);
            !r.Bug? && (r.Ok? ==> Known(r.value) && (ofArray ==> Get(r.value.mapping, path).At?))
  {
    var init, last := path[..|path| - 1], path[|path| - 1];
    var st0 := st.(context := []);
    DrillSolid(st0, init);
    if Drill(st0, init).Ok? {
      var none: Key := [];
      assert none + init == init && init + [last] == path;
      DrillReaches(st0, init);
      var st1 := Drill(st0, init).value;
      if ofArray {
        AddElementKnown(st1, last);
      } else {
        SetValueKnown(st1, last, Hash(EMPTY));
      }
    }
  }

  // Headers have a piece, and values no empty array of tables.
  ghost predicate Sound(s: Stmt) {
    && (s.TableHeader? || s.ArrayHeader? ==> s.path != [])
    && (s.Assign? ==> SolidValue(s.val))
  }

  /** One statement fails an assertion exactly if it is an assignment and the context is a value;
      it is then the assertion that the context is a table. */
  lemma ExecFails(st: PState, s: Stmt)
    requires Known(st) && Sound(s)
    ensures Exec(st, s).Ok? ==> Known(Exec(st, s).value)
    ensures Exec(st, s).Bug? <==> s.Assign? && Get(st.mapping, st.context).NotATable?
    ensures Exec(st, s).Bug? ==> Exec(st, s) == Bug(NotAHash)
    ensures s.ArrayHeader? && Exec(st, s).Ok? ==> Get(Exec(st, s).value.mapping, s.path).At?
    ensures s.Assign? && Exec(st, s).Ok? ==> Get(Exec(st, s).value.mapping, st.context).At?
  {
    match s
    case Comment =>
    case TableHeader(path) => EstablishKnown(st, path, false);
    case ArrayHeader(path) => EstablishKnown(st, path, true);
    case Assign(k, v, inner) =>
      if Get(st.mapping, st.context).At? {
        SetValueKnown(st, k, v);
      }
  }

  // ---- documents ----

  lemma {:induction false} ExecAllLast(st: PState, stmts: seq<Stmt>, s: Stmt)
    ensures ExecAll(st, stmts + [s]) == if ExecAll(st, stmts).Ok? then Exec(ExecAll(st, stmts).value, s)
        else ExecAll(st, stmts)
    decreases |stmts|
  {
    if stmts == [] {
      assert [s][1..] == [];
      assert [] + [s] == [s];
    } else {
      assert (stmts + [s])[0] == stmts[0] && (stmts + [s])[1..] == stmts[1..] + [s];
      if Exec(st, stmts[0]).Ok? {
        ExecAllLast(Exec(st, stmts[0]).value, stmts[1..], s);
      }
    }
  }

  // The outcome of the first n statements.
  function Upto(stmts: seq<Stmt>, n: nat): Outcome<PState>
    requires n <= |stmts|
  {
    ExecAll(ParserSpec.INIT, stmts[..n])
  }

  lemma UptoNext(stmts: seq<Stmt>, n: nat)
    requires n < |stmts|
    ensures Upto(stmts, n + 1) == if Upto(stmts, n).Ok? then Exec(Upto(stmts, n).value, stmts[n]) else Upto(stmts, n)
  {
    assert stmts[..n + 1] == stmts[..n] + [stmts[n]];
    ExecAllLast(ParserSpec.INIT, stmts[..n], stmts[n]);
  }

  ghost predicate AllSound(stmts: seq<Stmt>) {
    forall i :: 0 <= i < |stmts| ==> Sound(stmts[i])
  }

  lemma {:induction false} UptoKnown(stmts: seq<Stmt>, n: nat)
    requires AllSound(stmts) && n <= |stmts| && Upto(stmts, n).Ok?
    ensures Known(Upto(stmts, n).value)
    decreases n
  {
    if n > 0 {
      UptoNext(stmts, n - 1);
      UptoKnown(stmts, n - 1);
      ExecFails(Upto(stmts, n - 1).value, stmts[n - 1]);
    } else {
      assert stmts[..0] == [];
    }
  }

  // The header i is accepted with a stale mark, and only comments stand between it and n.
  predicate StaleBefore(stmts: seq<Stmt>, i: nat, n: nat)
    requires i < n <= |stmts|
  {
    && stmts[i].TableHeader? && stmts[i].path != []
    && Upto(stmts, i).Ok? && Upto(stmts, i + 1).Ok? && Stale(Upto(stmts, i).value, stmts[i].path)
    && forall j :: i < j < n ==> stmts[j].Comment?
  }

  predicate Lost(stmts: seq<Stmt>, n: nat)
    requires n <= |stmts|
  {
    exists i :: 0 <= i < n && StaleBefore(stmts, i, n)
  }

  lemma OneComment(stmts: seq<Stmt>, n: nat)
    requires n < |stmts| && stmts[n].Comment?
    ensures Lost(stmts, n) <==> Lost(stmts, n + 1)
  {
    var m := n + 1;
    if Lost(stmts, n) {
      var i :| 0 <= i < n && StaleBefore(stmts, i, n);
      assert StaleBefore(stmts, i, m);
    }
    if Lost(stmts, m) {
      var i :| 0 <= i < m && StaleBefore(stmts, i, m);
      assert StaleBefore(stmts, i, n);
    }
  }

  // Where a context that is not a table comes from.
  lemma {:induction false} Origin(stmts: seq<Stmt>, n: nat)
    requires AllSound(stmts) && n <= |stmts| && Upto(stmts, n).Ok?
    ensures var st := Upto(stmts, n).value;
            Get(st.mapping, st.context).NotATable? <==> Lost(stmts, n)
    decreases n
  {
    UptoKnown(stmts, n);
    if n == 0 {
      assert stmts[..0] == [];
    } else {
      UptoNext(stmts, n - 1);
      UptoKnown(stmts, n - 1);
      Origin(stmts, n - 1);
      var st, s := Upto(stmts, n - 1).value, stmts[n - 1];
      ExecFails(st, s);
      ExecMoves(st, s);
      if s.Comment? {
        OneComment(stmts, n - 1);
      } else if s.TableHeader? {
        ContextLost(st, s.path);
        assert StaleBefore(stmts, n - 1, n) <==> Stale(st, s.path);
      }
    }
  }

  // An assignment follows a header that was accepted with a stale mark.
  predicate LosesContext(stmts: seq<Stmt>) {
    exists j :: 0 <= j < |stmts| && stmts[j].Assign? && Lost(stmts, j)
  }

  lemma {:induction false} UptoFails(stmts: seq<Stmt>, n: nat)
    requires AllSound(stmts) && n <= |stmts|
    ensures !Upto(stmts, n).Bug? || Upto(stmts, n) == Bug(NotAHash)
    ensures Upto(stmts, n).Bug? <==> exists j :: 0 <= j < n && stmts[j].Assign? && Lost(stmts, j)
    decreases n
  {
    if n == 0 {
      assert stmts[..0] == [];
    } else {
      UptoNext(stmts, n - 1);
      UptoFails(stmts, n - 1);
      if Upto(stmts, n - 1).Ok? {
        UptoKnown(stmts, n - 1);
        Origin(stmts, n - 1);
        ExecFails(Upto(stmts, n - 1).value, stmts[n - 1]);
      } else {
        NotAfterFailure(stmts, n - 1);
      }
    }
  }

  // After a failed statement no header is accepted.
  lemma NotAfterFailure(stmts: seq<Stmt>, n: nat)
    requires AllSound(stmts) && n < |stmts| && !Upto(stmts, n).Ok?
    ensures !Upto(stmts, n).Bug? ==> forall i :: 0 <= i < n && stmts[n].Assign? ==> !StaleBefore(stmts, i, n)
  {
    forall i | 0 <= i < n && stmts[n].Assign? && !Upto(stmts, n).Bug?
      ensures !StaleBefore(stmts, i, n)
    {
      if StaleBefore(stmts, i, n) {
        CommentsPass(stmts, i + 1, n);
      }
    }
  }

  lemma {:induction false} CommentsPass(stmts: seq<Stmt>, n: nat, m: nat)
    requires n <= m <= |stmts| && Upto(stmts, n).Ok? && forall j :: n <= j < m ==> stmts[j].Comment?
    ensures Upto(stmts, m) == Upto(stmts, n)
    decreases m - n
  {
    if n < m {
      UptoNext(stmts, n);
      CommentsPass(stmts, n + 1, m);
    }
  }

  // ---- inputs ----

  lemma {:induction false} ReadSound(context: Key, toks: seq<Token>)
    requires Stream(Grammar.START, toks)
    ensures var (stmts, end) := ReadAll(context, toks);
            && AllSound(stmts)
            && (end.Bug? ==> AboutTokens(end.site))
    decreases |toks|
  {
    if !IsTerminal(toks[0]) {
      StmtAgrees(context, toks);
      StmtSolid(context, toks);
      var r := ParseStmt(context, toks);
      if r.Ok? {
        ReadSound(Moved(context, r.value.val), r.value.rest);
      }
    }
  }

  /** For every input: the context is always established, no array of tables on the way is empty,
      and the assertion that the context is a table fails exactly if an assignment follows a
      header that was accepted with a stale mark. */
  lemma ContextAssertions(input: string)
    ensures Parse(LexAll(input)) != Bug(NoContext) && Parse(LexAll(input)) != Bug(NoElement)
    ensures Parse(LexAll(input)) == Bug(NotAHash) <==> LosesContext(ReadAll([], LexAll(input)).0)
  {
    var toks := LexAll(input);
    LexerStream(input);
    ReadSound([], toks);
    ParseFactors(ParserSpec.INIT, toks);
    var stmts := ReadAll([], toks).0;
    assert stmts[..|stmts|] == stmts;
    UptoFails(stmts, |stmts|);
  }
}
