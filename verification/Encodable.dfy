/** Which trees the encoder accepts. */
module Encodable {
  import opened Options
  import opened Trees
  import opened EncoderSpec

  // A non-empty array whose elements are all tables.
  predicate AllHashes(elems: seq<Value>) {
    elems != [] && forall i :: 0 <= i < |elems| ==> elems[i].Hash?
  }

  // The type of an array element that is not a table; an empty array of tables is an array.
  function Kind(v: Value): TomlType {
    if v.Tables? then TomlArray else ParsedType(v)
  }

  // An array of one kind of values, with no table at any depth.
  predicate Flat(elems: seq<Value>) {
    && (forall i :: 0 <= i < |elems| ==> Kind(elems[i]) == Kind(elems[0]))
    && forall i :: 0 <= i < |elems| ==> Tableless(elems[i])
  }

  predicate Tableless(v: Value) {
    match v
    case Hash(_) => false
    case Tables(ts) => ts == []
    case Array(elems) => Flat(elems)
    case _ => true
  }

  // Every key is non-empty, and arrays are flat or made of tables.
  ghost predicate Printable(t: Table) {
    forall k :: k in t.entries ==> k != [] && PrintableValue(t.entries[k])
  }

  ghost predicate PrintableValue(v: Value) {
    match v
    case Hash(s) => Printable(s)
    case Tables(ts) => forall i :: 0 <= i < |ts| ==> Printable(ts[i])
    case Array(elems) =>
      Flat(elems) || (AllHashes(elems) && forall i :: 0 <= i < |elems| ==> PrintableValue(elems[i]))
    case _ => true
  }

  // ---- types ----

  predicate IsTyped(v: Value) {
    v.Array? ==> Flat(v.elems) || AllHashes(v.elems)
  }

  /** tomlArrayType finds the type of an array that is flat or made of tables, and fails on
      every other array. */
  lemma {:induction false} ArrayTypes(elems: seq<Value>)
    ensures ArrayType(elems)
         == if elems == [] then Success(None)
            else if AllHashes(elems) then Success(Some(TomlHash))
            else if Flat(elems) then Success(Some(Kind(elems[0])))
            else Failure(BadArray)
    decreases elems, 0
  {
    if elems != [] {
      Types(elems[0]);
      if GoType(elems[0]).Success? {
        RestTypes(elems, 1, GoType(elems[0]).value);
      }
      if elems[0].Array? {
        ArrayTypes(elems[0].elems);
        NotBoth(elems[0].elems);
      }
      NotBoth(elems);
      FlatTypes(elems);
    }
  }

  lemma NotBoth(elems: seq<Value>)
    ensures AllHashes(elems) ==> !Flat(elems)
    ensures Flat(elems) && elems != [] ==> !IsHash(Kind(elems[0]))
  {
    assert elems != [] ==> (Tableless(elems[0]) ==> !elems[0].Hash?);
  }

  // An array is flat if its elements have the type of a first one that is no table.
  lemma FlatTypes(elems: seq<Value>)
    requires elems != []
    ensures Flat(elems)
       <==> !IsHash(TypeOf(elems[0])) && forall j :: 0 <= j < |elems| ==>
           IsTyped(elems[j]) && TypeOf(elems[j]) == TypeOf(elems[0])
  {
    forall j | 0 <= j < |elems|
      ensures Tableless(elems[j]) <==> IsTyped(elems[j]) && !IsHash(TypeOf(elems[j]))
      ensures Tableless(elems[j]) ==> TypeOf(elems[j]) == Kind(elems[j])
    {
      if elems[j].Array? {
        NotBoth(elems[j].elems);
      }
    }
  }

  // What tomlTypeOfGo finds.
  function TypeOf(v: Value): TomlType {
    match v
    case Array(elems) => if AllHashes(elems) then TomlArrayHash else TomlArray
    case Tables(ts) => if ts == [] then TomlArray else TomlArrayHash
    case _ => ParsedType(v)
  }

  lemma {:induction false} Types(v: Value)
    ensures GoType(v) == if IsTyped(v) then Success(TypeOf(v)) else Failure(BadArray)
    decreases v, 1
  {
    if v.Array? {
      ArrayTypes(v.elems);
    }
  }

  lemma {:induction false} RestTypes(elems: seq<Value>, i: nat, first: TomlType)
    requires i <= |elems|
    ensures RestOfType(elems, i, first)
         == if forall j :: i <= j < |elems| ==> IsTyped(elems[j]) && TypeOf(elems[j]) == first then Success(())
            else Failure(BadArray)
    decreases elems, 0, |elems| - i
  {
    if i < |elems| {
      Types(elems[i]);
      RestTypes(elems, i + 1, first);
    }
  }

  // ---- values ----

  lemma {:induction false} FlatElements(elems: seq<Value>, i: nat)
    requires forall j :: 0 <= j < |elems| ==> Tableless(elems[j])
    ensures Elements(elems, i).Success?
    decreases elems, 1, |elems| - i
  {
    if i < |elems| {
      TablelessElement(elems[i]);
      FlatElements(elems, i + 1);
    }
  }

  lemma {:induction false} TablelessElement(v: Value)
    requires Tableless(v)
    ensures Element(v).Success?
    decreases v, 0, 0
  {
    if v.Array? {
      FlatElements(v.elems, 0);
    }
  }

  // ---- tables ----

  // Printing succeeds exactly if ok, and does not end in the default case of eElement.
  predicate Outcome(r: Result<string>, ok: bool) {
    (r.Success? <==> ok) && r != Failure(Unencodable)
  }

  lemma ValidMore(path: Key, k: string)
    requires ValidPath(path)
    ensures ValidPath(path + [k]) <==> k != []
  {
    var full := path + [k];
    assert full[|path|] == k;
    assert k != [] ==> forall i :: 0 <= i < |full| ==> full[i] != [];
  }

  lemma {:induction false} BodyOutcome(indent: string, written: bool, path: Key, t: Table)
    requires ValidPath(path)
    ensures Outcome(Body(indent, written, path, t), Printable(t))
    decreases t, 3, 0
  {
    forall k | k in t.entries
      ensures GoType(t.entries[k]) == if IsTyped(t.entries[k]) then Success(TypeOf(t.entries[k])) else Failure(BadArray)
    {
      Types(t.entries[k]);
    }
    if Typed(t) {
      var direct, sub := DirectKeys(t), SubKeys(t);
      DirectsOutcome(indent, path, t, direct);
      var text := Directs(indent, path, t, direct);
      if text.Success? {
        SubsOutcome(indent, written || text.value != "", path, t, sub);
      }
      assert forall k :: k in t.entries ==> k in direct || k in sub;
    }
  }

  lemma {:induction false} DirectsOutcome(indent: string, path: Key, t: Table, keys: seq<string>)
    requires ValidPath(path)
    requires forall k :: k in keys ==> k in t.entries && IsTyped(t.entries[k]) && !IsHash(TypeOf(t.entries[k]))
    ensures Outcome(Directs(indent, path, t, keys), forall k :: k in keys ==> k != [] && PrintableValue(t.entries[k]))
    decreases t, 2, |keys|
  {
    if keys != [] {
      ValidMore(path, keys[0]);
      assert keys == [keys[0]] + keys[1..];
      TablelessElement(t.entries[keys[0]]);
      DirectsOutcome(indent, path, t, keys[1..]);
    }
  }

  lemma {:induction false} SubsOutcome(indent: string, written: bool, path: Key, t: Table, keys: seq<string>)
    requires ValidPath(path)
    requires forall k :: k in keys ==> k in t.entries && IsTyped(t.entries[k]) && IsHash(TypeOf(t.entries[k]))
    ensures Outcome(Subs(indent, written, path, t, keys), forall k :: k in keys ==>
        k != [] && PrintableValue(t.entries[k]))
    decreases t, 2, |keys|
  {
    if keys != [] {
      ValidMore(path, keys[0]);
      assert keys == [keys[0]] + keys[1..];
      SubOutcome(indent, written, path + [keys[0]], t.entries[keys[0]]);
      var text := Sub(indent, written, path + [keys[0]], t.entries[keys[0]]);
      if text.Success? {
        SubsOutcome(indent, written || text.value != "", path, t, keys[1..]);
      }
    }
  }

  lemma {:induction false} SubOutcome(indent: string, written: bool, path: Key, v: Value)
    requires IsTyped(v) && IsHash(TypeOf(v))
    ensures Outcome(Sub(indent, written, path, v), ValidPath(path) && PrintableValue(v))
    decreases v, 4, 0
  {
    match v
    case Hash(s) =>
      if ValidPath(path) {
        BodyOutcome(indent, true, path, s);
      }
    case Tables(ts) => ElemsOutcome(indent, written, path, ts);
    case Array(elems) =>
      NotBoth(elems);
      HashElemsOutcome(indent, written, path, elems);
  }

  lemma {:induction false} HashElemOutcome(indent: string, written: bool, path: Key, v: Value)
    requires v.Hash?
    ensures Outcome(HashElem(indent, written, path, v), ValidPath(path) && PrintableValue(v))
    decreases v, 4, 0
  {
    if ValidPath(path) {
      BodyOutcome(indent, true, path, v.table);
    }
  }

  lemma {:induction false} ElemsOutcome(indent: string, written: bool, path: Key, ts: seq<Table>)
    ensures Outcome(Elems(indent, written, path, ts), ts == []
        || (ValidPath(path) && forall i :: 0 <= i < |ts| ==> Printable(ts[i])))
    decreases ts, 5, 0
  {
    if ts != [] {
      if ValidPath(path) {
        BodyOutcome(indent, true, path, ts[0]);
      }
      ElemsOutcome(indent, true, path, ts[1..]);
      assert ts == [ts[0]] + ts[1..];
    }
  }

  lemma {:induction false} HashElemsOutcome(indent: string, written: bool, path: Key, elems: seq<Value>)
    requires forall i :: 0 <= i < |elems| ==> elems[i].Hash?
    ensures Outcome(HashElems(indent, written, path, elems),
                    elems == [] || (ValidPath(path) && forall i :: 0 <= i < |elems| ==> PrintableValue(elems[i])))
    decreases elems, 5, 0
  {
    if elems != [] {
      HashElemOutcome(indent, written, path, elems[0]);
      HashElemsOutcome(indent, true, path, elems[1..]);
      assert elems == [elems[0]] + elems[1..];
    }
  }

  /** The encoder accepts a table exactly if all its keys are non-empty and its arrays are
      homogeneous, with tables only in top-level arrays of tables; the crash on a value that is
      no array element cannot happen. */
  lemma EncoderAccepts(indent: string, v: Value)
    ensures Encode(indent, v).Success? <==> v.Hash? && Printable(v.table)
    ensures Encode(indent, v) != Failure(Unencodable)
  {
    Types(v);
    if v.Hash? {
      BodyOutcome(indent, false, [], v.table);
    }
  }
}
