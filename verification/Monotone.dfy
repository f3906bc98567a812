/** No statement changes or removes a binding. */
module Monotone {
  import opened Tokens
  import opened Trees
  import opened ParserSpec

  // Whatever s binds, t binds to the same value, or to a table that has grown in the same
  // sense; arrays of tables grow at the end.
  ghost predicate Grows(s: Table, t: Table) {
    forall k :: k in s.entries ==> k in t.entries && GrowsValue(s.entries[k], t.entries[k])
  }

  ghost predicate GrowsValue(v: Value, w: Value) {
    match v
    case Hash(s) => w.Hash? && Grows(s, w.table)
    case Tables(ts) => w.Tables? && |ts| <= |w.ts| && forall i :: 0 <= i < |ts| ==> Grows(ts[i], w.ts[i])
    case _ => v == w
  }

  lemma {:induction false} GrowsReflexive(t: Table)
    ensures Grows(t, t)
  {
    forall k | k in t.entries
      ensures GrowsValue(t.entries[k], t.entries[k])
    {
      GrowsValueReflexive(t.entries[k]);
    }
  }

  lemma {:induction false} GrowsValueReflexive(v: Value)
    ensures GrowsValue(v, v)
  {
    match v
    case Hash(s) => GrowsReflexive(s);
    case Tables(ts) =>
      forall i | 0 <= i < |ts|
        ensures Grows(ts[i], ts[i])
      {
        GrowsReflexive(ts[i]);
      }
    case _ =>
  }

  lemma {:induction false} GrowsTransitive(s: Table, t: Table, u: Table)
    requires Grows(s, t) && Grows(t, u)
    ensures Grows(s, u)
  {
    forall k | k in s.entries
      ensures k in u.entries && GrowsValue(s.entries[k], u.entries[k])
    {
      GrowsValueTransitive(s.entries[k], t.entries[k], u.entries[k]);
    }
  }

  lemma {:induction false} GrowsValueTransitive(v: Value, w: Value, x: Value)
    requires GrowsValue(v, w) && GrowsValue(w, x)
    ensures GrowsValue(v, x)
  {
    match v
    case Hash(s) => GrowsTransitive(s, w.table, x.table);
    case Tables(ts) =>
      forall i | 0 <= i < |ts|
        ensures Grows(ts[i], x.ts[i])
      {
        GrowsTransitive(ts[i], w.ts[i], x.ts[i]);
      }
    case _ =>
  }

  // Changing one binding so that it grows, or adding one.
  lemma WithGrows(t: Table, k: string, v: Value)
    requires k in t.entries ==> GrowsValue(t.entries[k], v)
    ensures Grows(t, With(t, k, v))
  {
    forall j | j in t.entries
      ensures GrowsValue(t.entries[j], With(t, k, v).entries[j])
    {
      if j != k {
        GrowsValueReflexive(t.entries[j]);
      }
    }
  }

  lemma PutChildGrows(t: Table, k: string, s: Table)
    requires Child(t, k).At? && Grows(Child(t, k).table, s)
    ensures Grows(t, PutChild(t, k, s))
  {
    match t.entries[k]
    case Tables(ts) =>
      var us := ts[..|ts| - 1] + [s];
      forall i | 0 <= i < |ts|
        ensures Grows(ts[i], us[i])
      {
        if i < |ts| - 1 {
          GrowsReflexive(ts[i]);
        }
      }
      WithGrows(t, k, Tables(us));
    case _ => WithGrows(t, k, Hash(s));
  }

  lemma {:induction false} PutGrows(t: Table, p: Key, s: Table)
    requires Get(t, p).At? && Grows(Get(t, p).table, s)
    ensures Grows(t, Put(t, p, s))
  {
    if p != [] {
      var c := Child(t, p[0]).table;
      PutGrows(c, p[1..], s);
      PutChildGrows(t, p[0], Put(c, p[1..], s));
    }
  }

  lemma SetValueGrows(st: PState, k: string, v: Value)
    ensures SetValue(st, k, v).Ok? ==> Grows(st.mapping, SetValue(st, k, v).value.mapping)
  {
    GrowsReflexive(st.mapping);
    if Context(st).Ok? && k !in Context(st).value.entries {
      WithGrows(Context(st).value, k, v);
      PutGrows(st.mapping, st.context, With(Context(st).value, k, v));
    }
  }

  lemma AddElementGrows(st: PState, k: string)
    ensures AddElement(st, k).Ok? ==> Grows(st.mapping, AddElement(st, k).value.mapping)
  {
    if AddElement(st, k).Ok? {
      var hash := Context(st).value;
      var ts := if k in hash.entries then hash.entries[k].ts else [];
      var us := ts + [EMPTY];
      forall i | 0 <= i < |ts|
        ensures Grows(ts[i], us[i])
      {
        GrowsReflexive(ts[i]);
      }
      WithGrows(hash, k, Tables(us));
      PutGrows(st.mapping, st.context, With(hash, k, Tables(us)));
    }
  }

  lemma {:induction false} DrillGrows(st: PState, todo: Key)
    ensures Drill(st, todo).Ok? ==> Grows(st.mapping, Drill(st, todo).value.mapping)
    decreases |todo|
  {
    if todo == [] || !Context(st).Ok? {
      GrowsReflexive(st.mapping);
    } else {
      var hash := Context(st).value;
      var path := st.context + [todo[0]];
      if todo[0] in hash.entries {
        DrillGrows(st.(context := path), todo[1..]);
      } else {
        var st1 := st.(mapping := Put(st.mapping, st.context, With(hash, todo[0], Hash(EMPTY))),
                       implicits := st.implicits[Join(path) := true], context := path);
        WithGrows(hash, todo[0], Hash(EMPTY));
        PutGrows(st.mapping, st.context, With(hash, todo[0], Hash(EMPTY)));
        DrillGrows(st1, todo[1..]);
        if Drill(st1, todo[1..]).Ok? {
          GrowsTransitive(st.mapping, st1.mapping, Drill(st1, todo[1..]).value.mapping);
        }
      }
    }
  }

  lemma EstablishGrows(st: PState, path: Key, ofArray: bool)
    ensures EstablishContext(st, path, ofArray).Ok? ==>
        Grows(st.mapping, EstablishContext(st, path, ofArray).value.mapping)
  {
    if EstablishContext(st, path, ofArray).Ok? {
      var init, last := path[..|path| - 1], path[|path| - 1];
      DrillGrows(st.(context := []), init);
      var st1 := Drill(st.(context := []), init).value;
      SetValueGrows(st1, last, Hash(EMPTY));
      AddElementGrows(st1, last);
      GrowsTransitive(st.mapping, st1.mapping, EstablishContext(st, path, ofArray).value.mapping);
    }
  }

  /** No statement changes or removes an existing binding; arrays of tables only grow at the
      end. */
  lemma ExecGrows(st: PState, s: Stmt)
    ensures Exec(st, s).Ok? ==> Grows(st.mapping, Exec(st, s).value.mapping)
  {
    match s
    case Comment => GrowsReflexive(st.mapping);
    case TableHeader(path) => EstablishGrows(st, path, false);
    case ArrayHeader(path) => EstablishGrows(st, path, true);
    case Assign(k, v, _) => SetValueGrows(st, k, v);
  }

  /** So what a parse has bound stays bound to the end. */
  lemma {:induction false} ParseGrows(st: PState, toks: seq<Token>)
    ensures ParseFrom(st, toks).Ok? ==> Grows(st.mapping, ParseFrom(st, toks).value.mapping)
    decreases |toks|
  {
    if ParseFrom(st, toks).Ok? {
      if toks[0].typ.ItemEOF? {
        GrowsReflexive(st.mapping);
      } else {
        var r := ParseStmt(st.context, toks).value;
        var st1 := Exec(st, r.val).value;
        ExecGrows(st, r.val);
        ParseGrows(st1, r.rest);
        GrowsTransitive(st.mapping, st1.mapping, ParseFrom(st1, r.rest).value.mapping);
      }
    }
  }
}
