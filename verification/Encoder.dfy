/** The encoder as an object that writes to a buffer, proved against the functions of
EncoderSpec.  A panic with an encoding error is an error result here. */
module Encoders {
  import opened Sequences
  import opened Options
  import opened Runes
  import opened Escapes
  import opened Trees
  import opened Sorting
  import Spec = EncoderSpec
  import opened EncoderSpec

  // ---- types ----

  lemma {:induction false} TypeErrors(v: Value)
    ensures GoType(v).Failure? ==> GoType(v) == Failure(BadArray)
    decreases v, 1
  {
    if v.Array? {
      ArrayTypeErrors(v.elems);
    }
  }

  lemma {:induction false} ArrayTypeErrors(elems: seq<Value>)
    ensures ArrayType(elems).Failure? ==> ArrayType(elems) == Failure(BadArray)
    decreases elems, 0
  {
    if elems != [] {
      TypeErrors(elems[0]);
      if GoType(elems[0]).Success? {
        RestErrors(elems, 1, GoType(elems[0]).value);
        if elems[0].Array? {
          ArrayTypeErrors(elems[0].elems);
        }
      }
    }
  }

  lemma {:induction false} RestErrors(elems: seq<Value>, i: nat, first: TomlType)
    ensures RestOfType(elems, i, first).Failure? ==> RestOfType(elems, i, first) == Failure(BadArray)
    decreases elems, 0, |elems| - i
  {
    if i < |elems| {
      TypeErrors(elems[i]);
      RestErrors(elems, i + 1, first);
    }
  }

  // tomlTypeOfGo
  method TypeOfGo(v: Value) returns (r: Result<TomlType>)
    ensures r == GoType(v)
    decreases v, 1
  {
    match v
    case Array(elems) =>
      var t := TypeOfElements(elems);
      if t.Failure? {
        return Failure(t.error);
      }
      return Success(if t.value == Some(TomlHash) then TomlArrayHash else TomlArray);
    case Tables(ts) =>
      return Success(if ts == [] then TomlArray else TomlArrayHash);
    case _ =>
      return Success(ParsedType(v));
  }

  // tomlArrayType
  method TypeOfElements(elems: seq<Value>) returns (r: Result<Option<TomlType>>)
    ensures r == ArrayType(elems)
    decreases elems, 0
  {
    if elems == [] {
      return Success(None);
    }
    var first := TypeOfGo(elems[0]);
    if first.Failure? {
      return Failure(first.error);
    }
    for i := 1 to |elems|
      invariant RestOfType(elems, 1, first.value) == RestOfType(elems, i, first.value)
    {
      var elemType := TypeOfGo(elems[i]);
      if elemType.Failure? {
        return Failure(elemType.error);
      }
      if elemType.value != first.value {
        return Failure(BadArray);
      }
    }
    if first.value.TomlArray? || first.value.TomlArrayHash? {
      var nest: Result<Option<TomlType>>;
      if elems[0].Array? {
        nest := TypeOfElements(elems[0].elems);
      } else if elems[0].Tables? && elems[0].ts != [] {
        nest := Success(Some(TomlHash));
      } else {
        nest := Success(None);
      }
      if nest.Failure? {
        return Failure(nest.error);
      }
      if nest.value == Some(TomlHash) || nest.value == Some(TomlArrayHash) {
        return Failure(BadArray);
      }
    }
    return Success(Some(first.value));
  }

  // ---- keys ----

  // Key.maybeQuoted
  method QuotePiece(k: string) returns (r: string)
    ensures r == MaybeQuoted(k)
  {
    var quote := false;
    for i := 0 to |k|
      invariant !quote && AllBare(k[..i])
    {
      if !IsBareKeyChar(k[i]) {
        quote := true;
        break;
      }
    }
    assert k[..|k|] == k;
    return if quote then "\"" + EscapeQuotes(k) + "\"" else k;
  }

  lemma {:induction false} JoinFirst(k: Key)
    requires |k| > 1
    ensures Join(k) == k[0] + "." + Join(k[1..])
  {
    if |k| > 2 {
      JoinFirst(k[..|k| - 1]);
      assert k[..|k| - 1][1..] == k[1..][..|k| - 2];
    }
  }

  lemma {:induction false} QuotedAllIsJoin(path: Key, ss: Key)
    requires |ss| == |path| && forall i :: 0 <= i < |path| ==> ss[i] == MaybeQuoted(path[i])
    ensures MaybeQuotedAll(path) == Join(ss)
  {
    if |path| > 1 {
      QuotedAllIsJoin(path[1..], ss[1..]);
      JoinFirst(ss);
    }
  }

  // Key.maybeQuotedAll
  method QuoteAll(path: Key) returns (r: string)
    ensures r == MaybeQuotedAll(path)
  {
    var ss: Key := [];
    for i := 0 to |path|
      invariant |ss| == i && forall j :: 0 <= j < i ==> ss[j] == MaybeQuoted(path[j])
    {
      var s := QuotePiece(path[i]);
      ss := ss + [s];
    }
    QuotedAllIsJoin(path, ss);
    return Join(ss);
  }

  // panicIfInvalidKey
  method CheckKey(path: Key) returns (ok: bool)
    ensures ok == ValidPath(path)
  {
    for i := 0 to |path|
      invariant ValidPath(path[..i])
    {
      if |path[i]| == 0 {
        return false;
      }
      assert path[..i + 1] == path[..i] + [path[i]];
    }
    assert path[..|path|] == path;
    return true;
  }

  // What is written after text when what follows has the outcome r.
  ghost function Following(text: string, r: Result<string>): Result<string> {
    match r
    case Success(s) => Success(text + s)
    case Failure(e) => Failure(e)
  }

  lemma FollowingNothing(r: Result<string>)
    ensures Following("", r) == r
  {
    assert r.Success? ==> "" + r.value == r.value;
  }

  lemma FollowingMore(done: string, more: string, r: Result<string>)
    ensures Following(done, Following(more, r)) == Following(done + more, r)
  {
    assert r.Success? ==> done + (more + r.value) == done + more + r.value;
  }

  class Encoder {
    const indent: string
    var hasWritten: bool
    var w: string

    constructor (indent: string)
      ensures this.indent == indent && !hasWritten && w == ""
    {
      this.indent := indent;
      hasWritten, w := false, "";
    }

    // The text r was written, or writing ended with its error; nothing written before is lost.
    twostate predicate Wrote(new r: Result<string>, new err: Option<EncodeError>)
      reads this
    {
      && old(w) <= w
      && match r
         case Success(text) => err == None && w == old(w) + text && hasWritten == (old(hasWritten) || text != "")
         case Failure(e) => err == Some(e)
    }

    method Wf(text: string)
      modifies this
      ensures w == old(w) + text && hasWritten
    {
      w := w + text;
      hasWritten := true;
    }

    method Newline()
      modifies this
      ensures w == old(w) + Spec.Newline(old(hasWritten)) && hasWritten == old(hasWritten)
    {
      if hasWritten {
        Wf("\n");
      }
    }

    method WriteQuoted(s: string)
      modifies this
      ensures w == old(w) + Quoted(s) && hasWritten
    {
      Wf("\"" + Escape(s) + "\"");
    }

    // eElement, which is called when something has been written
    method EElement(v: Value) returns (err: Option<EncodeError>)
      requires hasWritten
      modifies this
      ensures Wrote(Element(v), err) && hasWritten
      decreases v, 0
    {
      match v {
      case Bool(b) => Wf(if b then "true" else "false");
      case Integer(n) => Wf(IntText(n));
      case Float(text) => Wf(text);
      case Datetime(text) => Wf(text);
      case Str(s) => WriteQuoted(s);
      case Array(elems) =>
        err := EArrayOrSliceElement(elems);
        return;
      case Tables(ts) =>
        Wf("[");
        if |ts| > 0 {
          return Some(Unencodable);
        }
        Wf("]");
      case Hash(_) => return Some(Unencodable);
      }
      return None;
    }

    method EArrayOrSliceElement(elems: seq<Value>) returns (err: Option<EncodeError>)
      requires hasWritten
      modifies this
      ensures Wrote(Element(Array(elems)), err) && hasWritten
      decreases elems
    {
      Wf("[");
      ghost var done := "";
      FollowingNothing(Elements(elems, 0));
      for i := 0 to |elems|
        invariant hasWritten && w == old(w) + "[" + done
        invariant Elements(elems, 0) == Following(done, Elements(elems, i))
      {
        err := EElement(elems[i]);
        if err != None {
          return;
        }
        ghost var e := Element(elems[i]).value;
        ghost var sep := if i != |elems| - 1 then ", " else "";
        if i != |elems| - 1 {
          Wf(", ");
        }
        FollowingMore(done, e + sep, Elements(elems, i + 1));
        done := done + (e + sep);
      }
      Wf("]");
      return None;
    }

    method IndentStr(path: Key) returns (s: string)
      requires path != []
      ensures s == IndentOf(indent, path)
    {
      return Repeat(indent, |path| - 1);
    }

    method EKeyEqElement(path: Key, v: Value) returns (err: Option<EncodeError>)
      modifies this
      ensures Wrote(KeyEqElement(indent, path, v), err)
    {
      if |path| == 0 {
        return Some(NoKeyForValue);
      }
      var valid := CheckKey(path);
      if !valid {
        return Some(EmptyKey);
      }
      var ind := IndentStr(path);
      var name := QuotePiece(path[|path| - 1]);
      ghost var e := Element(v);
      if e.Success? {
        PairWritten(w, ind + name + " = ", e.value);
      }
      Wf(ind + name + " = ");
      err := EElement(v);
      if err == None {
        Newline();
      }
    }

    // enc.Encode; the encoder may have been used before.
    method Encode(v: Value) returns (err: Option<EncodeError>)
      modifies this
      ensures Wrote(EncodeAt(indent, old(hasWritten), [], v), err)
    {
      err := EncodeValue([], v);
    }

    // enc.encode; the parts below a key share its termination measure, as in EncoderSpec.
    method EncodeValue(path: Key, v: Value) returns (err: Option<EncodeError>)
      modifies this
      ensures Wrote(EncodeAt(indent, old(hasWritten), path, v), err)
      decreases v, 4, 2
    {
      match v {
        case Hash(t) =>
          err := ETable(path, t);
        case Array(_) | Tables(_) =>
          var typ := TypeOfGo(v);
          if typ.Failure? {
            return Some(typ.error);
          }
          if typ.value == TomlArrayHash {
            err := EArrayOfTables(path, v);
          } else {
            err := EKeyEqElement(path, v);
          }
        case _ =>
          err := EKeyEqElement(path, v);
      }
    }

    method EArrayOfTables(path: Key, v: Value) returns (err: Option<EncodeError>)
      requires GoType(v) == Success(TomlArrayHash)
      modifies this
      ensures Wrote(EncodeAt(indent, old(hasWritten), path, v), err)
      decreases v, 4, 1
    {
      if |path| == 0 {
        return Some(NoKeyForValue);
      }
      if v.Tables? {
        err := EElems(path, v.ts);
      } else {
        err := EHashElems(path, v.elems);
      }
    }

    method EElems(path: Key, ts: seq<Table>) returns (err: Option<EncodeError>)
      requires path != []
      modifies this
      ensures Wrote(Elems(indent, old(hasWritten), path, ts), err)
      decreases ts, 5
    {
      ghost var done := "";
      FollowingNothing(Elems(indent, hasWritten, path, ts));
      assert ts[0..] == ts;
      for i := 0 to |ts|
        invariant w == old(w) + done && hasWritten == (old(hasWritten) || done != "")
        invariant Elems(indent, old(hasWritten), path, ts) == Following(done, Elems(indent, hasWritten, path, ts[i..]))
      {
        ghost var first := Elem(indent, hasWritten, path, ts[i]);
        assert ts[i..][0] == ts[i] && ts[i..][1..] == ts[i + 1..];
        err := EElem(path, ts[i]);
        if err != None {
          return;
        }
        FollowingMore(done, first.value, Elems(indent, true, path, ts[i + 1..]));
        Regroup(old(w), done, first.value);
        done := done + first.value;
      }
      return None;
    }

    method EElem(path: Key, t: Table) returns (err: Option<EncodeError>)
      requires path != []
      modifies this
      ensures Wrote(Elem(indent, old(hasWritten), path, t), err)
      ensures err == None ==> hasWritten
      decreases t, 4
    {
      var valid := CheckKey(path);
      if !valid {
        return Some(EmptyKey);
      }
      Newline();
      WriteHeader(path, true);
      hide HeaderText;
      ghost var body := Body(indent, true, path, t);
      if body.Success? {
        SectionWritten(old(w), Spec.Newline(old(hasWritten)), IndentOf(indent, path), HeaderText(path, true),
            body.value);
      }
      err := EMap(path, t);
    }

    // The header line of a table or of an element of an array of tables.
    method WriteHeader(path: Key, ofArray: bool)
      requires path != []
      modifies this
      ensures w == old(w) + (IndentOf(indent, path) + HeaderText(path, ofArray)) && hasWritten
    {
      var ind := IndentStr(path);
      var names := QuoteAll(path);
      HeaderWritten(w, ind, names);
      Wf(if ofArray then ind + "[[" + names + "]]" else ind + "[" + names + "]");
      Newline();
    }

    method EHashElems(path: Key, elems: seq<Value>) returns (err: Option<EncodeError>)
      requires path != []
      modifies this
      ensures Wrote(HashElems(indent, old(hasWritten), path, elems), err)
      decreases elems, 5
    {
      ghost var done := "";
      FollowingNothing(HashElems(indent, hasWritten, path, elems));
      assert elems[0..] == elems;
      for i := 0 to |elems|
        invariant w == old(w) + done && hasWritten == (old(hasWritten) || done != "")
        invariant HashElems(indent, old(hasWritten), path, elems)
            == Following(done, HashElems(indent, hasWritten, path, elems[i..]))
      {
        ghost var first := HashElem(indent, hasWritten, path, elems[i]);
        assert elems[i..][0] == elems[i] && elems[i..][1..] == elems[i + 1..];
        err := EHashElem(path, elems[i]);
        if err != None {
          return;
        }
        FollowingMore(done, first.value, HashElems(indent, true, path, elems[i + 1..]));
        done := done + first.value;
      }
      return None;
    }

    method EHashElem(path: Key, v: Value) returns (err: Option<EncodeError>)
      requires path != []
      modifies this
      ensures Wrote(HashElem(indent, old(hasWritten), path, v), err)
      ensures err == None ==> hasWritten
      decreases v, 4
    {
      if v.Hash? {
        err := EElem(path, v.table);
        return;
      }
      var valid := CheckKey(path);
      return Some(if valid then Unencodable else EmptyKey);
    }

    method ETable(path: Key, t: Table) returns (err: Option<EncodeError>)
      modifies this
      ensures Wrote(EncodeAt(indent, old(hasWritten), path, Hash(t)), err)
      decreases t, 4
    {
      assert EncodeAt(indent, old(hasWritten), path, Hash(t))
          == if path == [] then Body(indent, old(hasWritten), path, t) else SubTable(indent, old(hasWritten), path, t);
      var valid := CheckKey(path);
      if !valid {
        return Some(EmptyKey);
      }
      ghost var newline := if |path| == 1 then Spec.Newline(hasWritten) else "";
      if |path| == 1 {
        Newline();
      }
      assert old(w) + "" == old(w);
      if |path| > 0 {
        WriteHeader(path, false);
        ghost var body := Body(indent, true, path, t);
        if body.Success? {
          SectionWritten(old(w), newline, IndentOf(indent, path), HeaderText(path, false), body.value);
        }
      }
      hide HeaderText;
      err := EMap(path, t);
    }

    method EMap(path: Key, t: Table) returns (err: Option<EncodeError>)
      modifies this
      ensures Wrote(Body(indent, old(hasWritten), path, t), err)
      decreases t, 3
    {
      var direct, sub;
      direct, sub, err := SplitKeys(t);
      if err != None {
        return;
      }
      hide DirectKeys, SubKeys, Directs, Subs, WriteAll;
      DirectsWritten(indent, hasWritten, path, t, direct);
      err := WriteKeys(path, t, direct);
      if err != None {
        return;
      }
      ghost var hasDirect := hasWritten;
      SubsWritten(indent, hasWritten, path, t, sub);
      err := WriteKeys(path, t, sub);
      if err == None {
        Regroup(old(w), Directs(indent, path, t, direct).value, Subs(indent, hasDirect, path, t, sub).value);
      }
    }

    // writeMapKeys, after the keys have been sorted
    method WriteKeys(path: Key, t: Table, keys: seq<string>) returns (err: Option<EncodeError>)
      requires forall k :: k in keys ==> k in t.entries
      modifies this
      ensures Wrote(WriteAll(indent, old(hasWritten), path, t, keys), err)
      decreases t, 2
    {
      ghost var done := "";
      ghost var all := WriteAll(indent, hasWritten, path, t, keys);
      FollowingNothing(all);
      assert keys[0..] == keys;
      for i := 0 to |keys|
        invariant w == old(w) + done && hasWritten == (old(hasWritten) || done != "")
        invariant all == Following(done, WriteAll(indent, hasWritten, path, t, keys[i..]))
      {
        var v := t.entries[keys[i]];
        ghost var first := EncodeAt(indent, hasWritten, path + [keys[i]], v);
        WriteFirst(indent, hasWritten, path, t, keys, i);
        err := EncodeValue(path + [keys[i]], v);
        if err != None {
          return;
        }
        FollowingMore(done, first.value, WriteAll(indent, hasWritten, path, t, keys[i + 1..]));
        Regroup(old(w), done, first.value);
        done := done + first.value;
      }
      return None;
    }
  }

  // What encode writes for each of the keys.
  ghost function WriteAll(indent: string, written: bool, path: Key, t: Table, keys: seq<string>): Result<string>
    requires forall k :: k in keys ==> k in t.entries
    decreases |keys|
  {
    if keys == [] then Success("") else
      var first :- EncodeAt(indent, written, path + [keys[0]], t.entries[keys[0]]);
      var rest :- WriteAll(indent, written || first != "", path, t, keys[1..]);
      Success(first + rest)
  }

  lemma WriteFirst(indent: string, written: bool, path: Key, t: Table, keys: seq<string>, i: nat)
    requires i < |keys| && forall k :: k in keys ==> k in t.entries
    ensures var first := EncodeAt(indent, written, path + [keys[i]], t.entries[keys[i]]);
            WriteAll(indent, written, path, t, keys[i..])
            == if first.Failure? then Failure(first.error)
               else Following(first.value, WriteAll(indent, written || first.value != "", path, t, keys[i + 1..]))
  {
    assert keys[i..][0] == keys[i] && keys[i..][1..] == keys[i + 1..];
  }

  lemma {:induction false} DirectsWritten(indent: string, written: bool, path: Key, t: Table, keys: seq<string>)
    requires forall k :: k in keys ==>
        k in t.entries && GoType(t.entries[k]).Success? && !IsHash(GoType(t.entries[k]).value)
    ensures WriteAll(indent, written, path, t, keys) == Directs(indent, path, t, keys)
    decreases |keys|
  {
    if keys != [] {
      var first := EncodeAt(indent, written, path + [keys[0]], t.entries[keys[0]]);
      if first.Success? {
        DirectsWritten(indent, written || first.value != "", path, t, keys[1..]);
      }
    }
  }

  lemma {:induction false} SubsWritten(indent: string, written: bool, path: Key, t: Table, keys: seq<string>)
    requires forall k :: k in keys ==>
        k in t.entries && GoType(t.entries[k]).Success? && IsHash(GoType(t.entries[k]).value)
    ensures WriteAll(indent, written, path, t, keys) == Subs(indent, written, path, t, keys)
    decreases |keys|
  {
    if keys != [] {
      var first := EncodeAt(indent, written, path + [keys[0]], t.entries[keys[0]]);
      if first.Success? {
        SubsWritten(indent, written || first.value != "", path, t, keys[1..]);
      }
    }
  }

  lemma HeaderWritten(w: string, indent: string, names: string)
    ensures w + (indent + "[[" + names + "]]") + "\n" == w + (indent + ("[[" + names + "]]\n"))
    ensures w + (indent + "[" + names + "]") + "\n" == w + (indent + ("[" + names + "]\n"))
  {
    EndsInNewline(w, indent, "[[", names, "]]");
    EndsInNewline(w, indent, "[", names, "]");
    assert "]]" + "\n" == "]]\n" && "]" + "\n" == "]\n";
  }

  lemma EndsInNewline(w: string, indent: string, open: string, names: string, close: string)
    ensures w + (indent + open + names + close) + "\n" == w + (indent + (open + names + (close + "\n")))
  {
    assert indent + open + names + close == indent + (open + names + close);
    assert open + names + close + "\n" == open + names + (close + "\n");
    Regroup(w, indent + (open + names + close), "\n");
    Regroup(indent, open + names + close, "\n");
  }

  lemma PairWritten(w: string, key: string, e: string)
    ensures w + key + e + "\n" == w + (key + e + "\n")
  {
    Regroup(w, key, e);
    Regroup(w, key + e, "\n");
  }

  // A table as it is written: a newline, the indentation, the header and the body.
  lemma SectionWritten(w: string, newline: string, indent: string, header: string, body: string)
    ensures w + newline + (indent + header) + body == w + (newline + indent + header + body)
  {
    assert newline + (indent + header) == newline + indent + header;
    assert w + newline + (indent + header) == w + (newline + indent + header);
  }

  // The keys of a map by what is under them, each list sorted; a Go map yields its keys in no
  // particular order.
  method SplitKeys(t: Table) returns (direct: seq<string>, sub: seq<string>, err: Option<EncodeError>)
    ensures err == None <==> Typed(t)
    ensures err != None ==> err == Some(BadArray)
    ensures err == None ==> direct == DirectKeys(t) && sub == SubKeys(t) && Ascending(direct) && Ascending(sub)
  {
    direct, sub := [], [];
    var keys := t.entries.Keys;
    while keys != {}
      invariant keys <= t.entries.Keys
      invariant forall k :: k in t.entries.Keys - keys ==> GoType(t.entries[k]).Success?
      invariant forall k :: k in direct <==> k in t.entries.Keys - keys && !IsHash(GoType(t.entries[k]).value)
      invariant forall k :: k in sub <==> k in t.entries.Keys - keys && IsHash(GoType(t.entries[k]).value)
    {
      var k :| k in keys;
      keys := keys - {k};
      var typ := TypeOfGo(t.entries[k]);
      if typ.Failure? {
        TypeErrors(t.entries[k]);
        return direct, sub, Some(typ.error);
      }
      if IsHash(typ.value) {
        sub := sub + [k];
      } else {
        direct := direct + [k];
      }
    }
    direct := SortStrings(direct);
    sub := SortStrings(sub);
    SortedUnique(direct, DirectKeys(t));
    SortedUnique(sub, SubKeys(t));
    return direct, sub, None;
  }
}
