/** The trees that TOML documents denote, and the types of their values. */
module Trees {

  type Key = seq<string>

  // map[string]interface{}
  datatype Table = Table(entries: map<string, Value>)

  // Tables(ts) is []map[string]interface{}, made by [[...]] headers; Array(vs) is
  // []interface{}.  Floats and datetimes are kept as their text.
  datatype Value =
    | Bool(b: bool)
    | Integer(n: int)
    | Str(s: string)
    | Float(text: string)
    | Datetime(text: string)
    | Array(elems: seq<Value>)
    | Hash(table: Table)
    | Tables(ts: seq<Table>)

  const EMPTY := Table(map[])

  datatype TomlType =
    | TomlBool
    | TomlInteger
    | TomlString
    | TomlFloat
    | TomlDatetime
    | TomlArray
    | TomlHash
    | TomlArrayHash

  // The type that the parser gives to a value.
  function ParsedType(v: Value): TomlType {
    match v
    case Bool(_) => TomlBool
    case Integer(_) => TomlInteger
    case Str(_) => TomlString
    case Float(_) => TomlFloat
    case Datetime(_) => TomlDatetime
    case Array(_) => TomlArray
    case Hash(_) => TomlHash
    case Tables(_) => TomlArrayHash
  }

  // All values of vs have one type.
  predicate Homogeneous(vs: seq<Value>) {
    forall i :: 0 < i < |vs| ==> ParsedType(vs[i]) == ParsedType(vs[0])
  }

  // Values of one kind: both booleans, both integers, and so on.
  predicate SameKind(v: Value, w: Value) {
    || (v.Bool? && w.Bool?) || (v.Integer? && w.Integer?) || (v.Str? && w.Str?) || (v.Float? && w.Float?)
    || (v.Datetime? && w.Datetime?) || (v.Array? && w.Array?) || (v.Hash? && w.Hash?) || (v.Tables? && w.Tables?)
  }

  /** An array is accepted exactly if any two of its elements are of one kind; what nested arrays
      hold does not count. */
  lemma HomogeneousKinds(vs: seq<Value>)
    ensures Homogeneous(vs) <==> forall i, j :: 0 <= i < j < |vs| ==> SameKind(vs[i], vs[j])
  {
    forall v: Value, w: Value
      ensures SameKind(v, w) <==> ParsedType(v) == ParsedType(w)
    {
    }
    if forall i, j :: 0 <= i < j < |vs| ==> SameKind(vs[i], vs[j]) {
      forall i | 0 < i < |vs|
        ensures ParsedType(vs[i]) == ParsedType(vs[0])
      {
        assert SameKind(vs[0], vs[i]);
      }
    }
  }

  // strings.Join(k, ".")
  function Join(k: Key): string {
    if k == [] then "" else if |k| == 1 then k[0] else Join(k[..|k| - 1]) + "." + k[|k| - 1]
  }

  // The part of a tree that a path leads to; arrays of tables are entered at their last element.
  datatype Found = Missing | NotATable | NoElements | At(table: Table)

  function Child(t: Table, k: string): Found {
    if k !in t.entries then Missing
    else match t.entries[k]
      case Hash(s) => At(s)
      case Tables(ts) => if ts == [] then NoElements else At(ts[|ts| - 1])
      case _ => NotATable
  }

  function Get(t: Table, path: Key): Found {
    if path == [] then At(t) else
      match Child(t, path[0])
      case At(s) => Get(s, path[1..])
      case other => other
  }

  function With(t: Table, k: string, v: Value): Table {
    Table(t.entries[k := v])
  }

  // Replaces the table that a key leads to.
  function PutChild(t: Table, k: string, s: Table): Table
    requires Child(t, k).At?
  {
    match t.entries[k]
    case Tables(ts) => With(t, k, Tables(ts[..|ts| - 1] + [s]))
    case _ => With(t, k, Hash(s))
  }

  // Replaces the table that a path leads to.
  function Put(t: Table, path: Key, s: Table): Table
    requires Get(t, path).At?
  {
    if path == [] then s
    else PutChild(t, path[0], Put(Child(t, path[0]).table, path[1..], s))
  }

  // ---- facts about paths ----

  lemma OnePiece(t: Table, k: string, s: Table)
    ensures Get(t, [k]) == Child(t, k)
    ensures Child(t, k).At? ==> Put(t, [k], s) == PutChild(t, k, s)
  {
    assert [k][1..] == [];
  }

  lemma {:induction false} GetAppend(t: Table, p: Key, k: string)
    ensures Get(t, p + [k]) == match Get(t, p) { case At(s) => Child(s, k) case other => other }
  {
    if p == [] {
      assert [] + [k] == [k] && [k][1..] == [];
    } else {
      assert (p + [k])[0] == p[0] && (p + [k])[1..] == p[1..] + [k];
      if Child(t, p[0]).At? {
        GetAppend(Child(t, p[0]).table, p[1..], k);
      }
    }
  }

  lemma {:induction false} GetPut(t: Table, p: Key, s: Table)
    requires Get(t, p).At?
    ensures Get(Put(t, p, s), p) == At(s)
  {
    if p != [] {
      GetPut(Child(t, p[0]).table, p[1..], s);
    }
  }

  lemma {:induction false} PutPut(t: Table, p: Key, s: Table, s': Table)
    requires Get(t, p).At?
    ensures Get(Put(t, p, s), p).At? && Put(Put(t, p, s), p, s') == Put(t, p, s')
  {
    GetPut(t, p, s);
    if p != [] {
      PutPut(Child(t, p[0]).table, p[1..], s, s');
    }
  }

  // Changing a child is changing its parent.
  lemma {:induction false} PutAppend(t: Table, p: Key, k: string, s: Table)
    requires Get(t, p + [k]).At?
    ensures Get(t, p).At? && Child(Get(t, p).table, k).At?
    ensures Put(t, p + [k], s) == Put(t, p, PutChild(Get(t, p).table, k, s))
  {
    GetAppend(t, p, k);
    if p == [] {
      assert [] + [k] == [k] && [k][1..] == [];
    } else {
      assert (p + [k])[0] == p[0] && (p + [k])[1..] == p[1..] + [k];
      PutAppend(Child(t, p[0]).table, p[1..], k, s);
    }
  }

  // The prefixes of a path to a table lead to tables.
  lemma {:induction false} GetPrefix(t: Table, p: Key, q: Key)
    requires Get(t, p + q).At?
    ensures Get(t, p).At?
    decreases |q|
  {
    if q == [] {
      assert p + q == p;
    } else {
      assert p + q == p + [q[0]] + q[1..];
      GetPrefix(t, p + [q[0]], q[1..]);
      GetAppend(t, p, q[0]);
    }
  }
}
