/** The parser as an object that pulls tokens from the lexer, proved against ParserSpec.

A panic of the source is an outcome that is returned at once.  Maps that the source mutates
through references (the current table inside `mapping`) are replaced along their path. */
module Parsers {
  import opened Tokens
  import opened LexRun
  import opened Lexers
  import opened Outcomes
  import opened Escapes
  import opened Grammar
  import opened Trees
  import Spec = ParserSpec

  // The loop of numUnderscoresOK.
  method NumUnderscoresOK(s: string) returns (ok: bool)
    ensures ok <==> Spec.UnderscoresOK(s)
  {
    var accept := false;
    for i := 0 to |s|
      invariant accept <==> i > 0 && s[i - 1] != '_'
      invariant forall k :: 0 <= k < i && s[k] == '_' ==> k > 0 && s[k - 1] != '_'
    {
      if s[i] == '_' {
        if !accept {
          return false;
        }
        accept := false;
        continue;
      }
      accept := true;
    }
    return accept;
  }

  // The loop of typeOfArray.
  method TypeOfArray(types: seq<TomlType>) returns (r: Outcome<TomlType>)
    ensures r == if forall i :: 0 < i < |types| ==> types[i] == types[0] then Ok(TomlArray) else Rejected
  {
    if |types| == 0 {
      return Ok(TomlArray);
    }
    var theType := types[0];
    for i := 1 to |types|
      invariant forall k :: 0 < k < i ==> types[k] == theType
    {
      if types[i] != theType {
        return Rejected;
      }
    }
    return Ok(TomlArray);
  }

  method StringOf(t: Token) returns (r: Outcome<string>)
    requires IsStringType(t.typ)
    ensures r == Spec.StringOf(t)
  {
    if t.typ.ItemString? {
      r := ReplaceEscapes(t.val);
    } else if t.typ.ItemMultilineString? {
      r := ReplaceEscapes(Spec.Trimmed(t.val));
    } else if t.typ.ItemRawString? {
      r := Ok(t.val);
    } else {
      r := Ok(Spec.StripFirstNewline(t.val));
    }
  }

  method KeyString(t: Token) returns (r: Outcome<string>)
    ensures r == Spec.KeyString(t)
  {
    if t.typ.ItemText? {
      r := Ok(t.val);
    } else if IsStringType(t.typ) {
      r := StringOf(t);
    } else {
      r := Bug(UnexpectedToken);
    }
  }

  // The cases of p.value for primitive tokens.
  method Scalar(t: Token) returns (r: Outcome<Trees.Value>)
    requires IsPrimitive(t.typ)
    ensures r == Spec.Scalar(t)
  {
    if IsStringType(t.typ) {
      var s := StringOf(t);
      if s.IsFailure() {
        return s.PropagateFailure();
      }
      return Ok(Str(s.value));
    } else if t.typ.ItemBool? {
      if t.val == "true" {
        return Ok(Bool(true));
      } else if t.val == "false" {
        return Ok(Bool(false));
      }
      return Outcome.Bug(NotABool);
    } else if t.typ.ItemInteger? {
      var ok := NumUnderscoresOK(t.val);
      if !ok {
        return Rejected;
      }
      var num := Spec.ParseInt(Spec.WithoutUnderscores(t.val));
      if num.IsFailure() {
        return num.PropagateFailure();
      }
      return Ok(Integer(num.value));
    } else if t.typ.ItemFloat? {
      return if Spec.FloatOK(t.val) then Ok(Float(t.val)) else Rejected;
    } else {
      return if Spec.DatetimeOK(t.val) then Ok(Datetime(t.val)) else Rejected;
    }
  }

  // Drains the lexer.  The parser asks for tokens one at a time, but the lexer does not depend
  // on it, so the tokens can be taken beforehand.
  method LexInput(data: string) returns (toks: seq<Token>)
    ensures toks == LexAll(data)
  {
    hide Run, LexAll;
    var lx := new Lexer(data);
    StackDiscipline(data);
    toks := [];
    while toks == [] || !IsTerminal(toks[|toks| - 1])
      invariant lx.input == data && fresh(lx) && fresh(lx.prevWidths) && lx.Ready()
      invariant |toks| == lx.taken <= |LexAll(data)| && toks == LexAll(data)[..lx.taken]
      decreases |LexAll(data)| - |toks|
    {
      var item := lx.NextItem();
      toks := toks + [item.tok];
    }
  }

  class Parser {
    // What the lexer still has to deliver.
    var rest: seq<Token>
    var mapping: Table
    var implicits: map<string, bool>
    var ordered: seq<Key>
    var context: Key
    var currentKey: string

    ghost function State(): Spec.PState
      reads this
    {
      Spec.PState(mapping, implicits, ordered, context)
    }

    constructor (toks: seq<Token>)
      ensures rest == toks && State() == Spec.INIT && currentKey == ""
    {
      rest := toks;
      mapping, implicits, ordered := EMPTY, map[], [];
      context, currentKey := [], "";
    }

    method Next() returns (r: Outcome<Token>)
      modifies this`rest
      ensures r == Spec.Next(old(rest))
      ensures r.Ok? ==> rest == old(rest)[1..]
    {
      if |rest| == 0 {
        return Bug(PastEnd);
      }
      var it := rest[0];
      rest := rest[1..];
      if it.typ.ItemError? {
        return Rejected;
      }
      return Ok(it);
    }

    method Expect(typ: TokenType) returns (r: Outcome<Token>)
      modifies this`rest
      ensures r == Spec.Expect(old(rest), typ)
      ensures r.Ok? ==> rest == old(rest)[1..]
    {
      r := Next();
      if r.Ok? && r.value.typ != typ {
        return Bug(UnexpectedToken);
      }
    }

    // ---- values ----

    // The state after reading what s describes.
    twostate predicate Took<T>(new s: Outcome<Spec.Read<T>>)
      reads this
    {
      s.Ok? ==> rest == s.value.rest
                && context == old(context) && currentKey == old(currentKey)
                && ordered == old(ordered) + s.value.keys
    }

    // p.value
    method Value(t: Token) returns (r: Outcome<(Trees.Value, TomlType)>)
      modifies this`context, this`currentKey, this`ordered, this`rest
      ensures var s := Spec.ReadValue(old(context), old(currentKey), t, old(rest));
              Took(s) && r == if s.Ok? then Ok((s.value.val, ParsedType(s.value.val))) else s.PropagateFailure()
      decreases |rest|, 1
    {
      if IsPrimitive(t.typ) {
        var v := Scalar(t);
        if v.IsFailure() {
          return v.PropagateFailure();
        }
        return Ok((v.value, ParsedType(v.value)));
      } else if t.typ.ItemArray? {
        r := ArrayOf();
      } else if t.typ.ItemInlineTableStart? {
        var outerContext, outerKey := context, currentKey;
        context, currentKey := context + [currentKey], "";
        var hash := Pairs();
        context, currentKey := outerContext, outerKey;
        if hash.IsFailure() {
          return hash.PropagateFailure();
        }
        return Ok((Hash(Table(hash.value)), TomlHash));
      } else {
        return Bug(UnexpectedToken);
      }
    }

    // The array case of p.value.
    method ArrayOf() returns (r: Outcome<(Trees.Value, TomlType)>)
      modifies this`context, this`currentKey, this`ordered, this`rest
      ensures var s := Spec.ReadElements(old(context), old(currentKey), [], [], old(rest));
              Took(s) && r == if !s.Ok? then s.PropagateFailure()
                              else if Homogeneous(s.value.val) then Ok((Array(s.value.val), TomlArray)) else Rejected
      decreases |rest|, 0
    {
      var elems: seq<Trees.Value>, types: seq<TomlType> := [], [];
      ghost var keys: seq<Key> := [];
      while true
        invariant context == old(context) && currentKey == old(currentKey) && ordered == old(ordered) + keys
        invariant |types| == |elems| && forall i :: 0 <= i < |elems| ==> types[i] == ParsedType(elems[i])
        invariant Spec.ReadElements(context, currentKey, elems, keys, rest)
               == Spec.ReadElements(old(context), old(currentKey), [], [], old(rest))
        invariant |rest| <= |old(rest)|
        decreases |rest|
      {
        var it := Next();
        if it.IsFailure() {
          return it.PropagateFailure();
        }
        if it.value.typ.ItemArrayEnd? {
          break;
        }
        if it.value.typ.ItemCommentStart? {
          var text := Expect(ItemText);
          if text.IsFailure() {
            return text.PropagateFailure();
          }
        } else {
          ghost var read := Spec.ReadValue(context, currentKey, it.value, rest);
          var v := Value(it.value);
          if v.IsFailure() {
            return v.PropagateFailure();
          }
          elems, types := elems + [v.value.0], types + [v.value.1];
          keys := keys + read.value.keys;
        }
      }
      var typ := TypeOfArray(types);
      if typ.IsFailure() {
        return typ.PropagateFailure();
      }
      return Ok((Array(elems), typ.value));
    }

    // The inline table case of p.value, inside its context.
    method Pairs() returns (r: Outcome<map<string, Trees.Value>>)
      modifies this`context, this`currentKey, this`ordered, this`rest
      ensures var s := Spec.ReadPairs(old(context), map[], [], old(rest));
              && r == (if s.Ok? then Ok(s.value.val) else s.PropagateFailure())
              && (s.Ok? ==> rest == s.value.rest && ordered == old(ordered) + s.value.keys)
      decreases |rest|, 0
    {
      var hash: map<string, Trees.Value> := map[];
      ghost var keys: seq<Key> := [];
      while true
        invariant context == old(context) && ordered == old(ordered) + keys
        invariant Spec.ReadPairs(context, hash, keys, rest) == Spec.ReadPairs(old(context), map[], [], old(rest))
        invariant |rest| <= |old(rest)|
        decreases |rest|
      {
        var it := Next();
        if it.IsFailure() {
          return it.PropagateFailure();
        }
        if it.value.typ.ItemInlineTableEnd? {
          return Ok(hash);
        }
        if !it.value.typ.ItemKeyStart? {
          return Bug(NoKeyStart);
        }
        ghost var read := Spec.ReadPair(context, rest);
        var v := PairOf();
        if v.IsFailure() {
          return v.PropagateFailure();
        }
        ordered := ordered + [context + [currentKey]];
        hash := hash[currentKey := v.value];
        keys := keys + read.value.keys + [context + [currentKey]];
      }
    }

    // Reads a key into currentKey, and its value.
    method PairOf() returns (r: Outcome<Trees.Value>)
      modifies this`context, this`currentKey, this`ordered, this`rest
      ensures var s := Spec.ReadPair(old(context), old(rest));
              && r == (if s.Ok? then Ok(s.value.val.1) else s.PropagateFailure())
              && (s.Ok? ==> rest == s.value.rest && context == old(context) && currentKey == s.value.val.0
                            && ordered == old(ordered) + s.value.keys)
      decreases |rest|, 2
    {
      var k := Next();
      if k.IsFailure() {
        return k.PropagateFailure();
      }
      var name := KeyString(k.value);
      if name.IsFailure() {
        return name.PropagateFailure();
      }
      currentKey := name.value;
      var t := Next();
      if t.IsFailure() {
        return t.PropagateFailure();
      }
      var v := Value(t.value);
      if v.IsFailure() {
        return v.PropagateFailure();
      }
      return Ok(v.value.0);
    }

    // ---- the tree ----

    // The loop of setValue over the context: the table it leads to.
    method CurrentTable() returns (r: Outcome<Table>)
      ensures r == Spec.Context(State())
    {
      var hash := mapping;
      for i := 0 to |context|
        invariant Get(mapping, context) == Get(hash, context[i..])
      {
        var k := context[i];
        assert context[i..][0] == k && context[i..][1..] == context[i + 1..];
        if k !in hash.entries {
          return Bug(NoContext);
        }
        match hash.entries[k]
        case Tables(ts) =>
          if |ts| == 0 {
            return Bug(NoElement);
          }
          hash := ts[|ts| - 1];
        case Hash(t) =>
          hash := t;
        case _ =>
          return Bug(NotAHash);
      }
      return Ok(hash);
    }

    method SetValue(key: string, value: Trees.Value) returns (r: Outcome<()>)
      modifies this`mapping, this`implicits
      ensures var s := Spec.SetValue(old(State()), key, value);
              if s.Ok? then r == Ok(()) && State() == s.value else r == s.PropagateFailure()
    {
      var hash := CurrentTable();
      if hash.IsFailure() {
        return hash.PropagateFailure();
      }
      var keyContext := context + [key];
      if key in hash.value.entries {
        if Join(keyContext) in implicits && implicits[Join(keyContext)] {
          implicits := implicits[Join(keyContext) := false];
          return Ok(());
        }
        return Rejected;
      }
      mapping := Put(mapping, context, With(hash.value, key, value));
      return Ok(());
    }

    // One round of the loop of establishContext: enters k below hash, which path leads to.
    method Enter(path: Key, hash: Table, k: string, ghost todo: Key) returns (r: Outcome<Table>)
      requires Get(mapping, path) == At(hash)
      requires todo != [] && todo[0] == k
      modifies this`mapping, this`implicits
      ensures r.Ok? ==> Get(mapping, path + [k]) == At(r.value)
      ensures Spec.Drill(old(State()).(context := path), todo)
           == if r.Ok? then Spec.Drill(State().(context := path + [k]), todo[1..]) else r.PropagateFailure()
    {
      GetAppend(mapping, path, k);
      var table := hash;
      if k !in hash.entries {
        implicits := implicits[Join(path + [k]) := true];
        table := With(hash, k, Hash(EMPTY));
        GetPut(mapping, path, table);
        mapping := Put(mapping, path, table);
        GetAppend(mapping, path, k);
      }
      match table.entries[k]
      case Tables(ts) =>
        if |ts| == 0 {
          return Bug(NoElement);
        }
        return Ok(ts[|ts| - 1]);
      case Hash(t) =>
        return Ok(t);
      case _ =>
        return Rejected;
    }

    // The loop of establishContext: the table at the end of path, made if need be.
    method Drill(path: Key) returns (r: Outcome<Table>)
      modifies this`mapping, this`implicits
      ensures r.Ok? ==> Get(mapping, path) == At(r.value)
      ensures Spec.Drill(old(State()).(context := []), path)
           == if r.Ok? then Ok(State().(context := path)) else r.PropagateFailure()
    {
      var hashContext := mapping;
      var keyContext: Key := [];
      ghost var drilled := Spec.Drill(State().(context := []), path);
      for i := 0 to |path|
        invariant keyContext == path[..i]
        invariant Get(mapping, keyContext) == At(hashContext)
        invariant context == old(context) && ordered == old(ordered)
        invariant drilled == Spec.Drill(State().(context := keyContext), path[i..])
      {
        assert path[i..][1..] == path[i + 1..];
        var table := Enter(keyContext, hashContext, path[i], path[i..]);
        if table.IsFailure() {
          return table.PropagateFailure();
        }
        keyContext := keyContext + [path[i]];
        hashContext := table.value;
      }
      assert keyContext == path;
      return Ok(hashContext);
    }

    method EstablishContext(key: Key, ofArray: bool) returns (r: Outcome<()>)
      requires key != []
      modifies this`mapping, this`implicits, this`context
      ensures var s := Spec.EstablishContext(old(State()), key, ofArray);
              if s.Ok? then r == Ok(()) && State() == s.value else r == s.PropagateFailure()
    {
      var last := key[|key| - 1];
      var hash := Drill(key[..|key| - 1]);
      if hash.IsFailure() {
        return hash.PropagateFailure();
      }
      context := key[..|key| - 1];
      if ofArray {
        var tables := if last in hash.value.entries then hash.value.entries[last] else Tables([]);
        if !tables.Tables? {
          return Rejected;
        }
        mapping := Put(mapping, context, With(hash.value, last, Tables(tables.ts + [EMPTY])));
      } else {
        var done := SetValue(last, Hash(EMPTY));
        if done.IsFailure() {
          return done.PropagateFailure();
        }
      }
      context := context + [last];
      assert context == key;
      return Ok(());
    }

    // ---- statements ----

    // The pieces of a header, up to the token that ends it.
    method HeaderKey(end: TokenType) returns (r: Outcome<Key>)
      modifies this`rest
      ensures var s := Spec.ReadHeader(end, [], old(rest));
              if s.Ok? then r == Ok(s.value.val) && rest == s.value.rest else r == s.PropagateFailure()
    {
      var key: Key := [];
      while true
        invariant Spec.ReadHeader(end, key, rest) == Spec.ReadHeader(end, [], old(rest))
        decreases |rest|
      {
        var kg := Next();
        if kg.IsFailure() {
          return kg.PropagateFailure();
        }
        if kg.value.typ == end {
          return Ok(key);
        }
        if kg.value.typ.ItemEOF? {
          return Bug(UnexpectedToken);
        }
        var k := KeyString(kg.value);
        if k.IsFailure() {
          return k.PropagateFailure();
        }
        key := key + [k.value];
      }
    }

    // The cases of topLevel for table headers.
    method Header(ofArray: bool) returns (r: Outcome<()>)
      modifies this`rest, this`mapping, this`implicits, this`context, this`ordered
      ensures var h := Spec.ReadHeader(if ofArray then ItemArrayTableEnd else ItemTableEnd, [], old(rest));
              if !h.Ok? then r == h.PropagateFailure() else
                var s := Spec.Exec(old(State()), if ofArray then Spec.ArrayHeader(h.value.val)
                    else Spec.TableHeader(h.value.val));
                if s.Ok? then r == Ok(()) && State() == s.value && rest == h.value.rest else r == s.PropagateFailure()
    {
      var key := HeaderKey(if ofArray then ItemArrayTableEnd else ItemTableEnd);
      if key.IsFailure() {
        return key.PropagateFailure();
      }
      if |key.value| == 0 {
        return Bug(UnexpectedToken);
      }
      r := EstablishContext(key.value, ofArray);
      if r.Ok? {
        ordered := ordered + [key.value];
      }
    }

    // The case of topLevel for keys.
    method KeyValue() returns (r: Outcome<()>)
      modifies this
      ensures var p := Spec.ReadPair(old(context), old(rest));
              if !p.Ok? then r == p.PropagateFailure() else
                var s := Spec.Exec(old(State()), Spec.Assign(p.value.val.0, p.value.val.1, p.value.keys));
                if s.Ok? then r == Ok(()) && State() == s.value && rest == p.value.rest else r == s.PropagateFailure()
    {
      ghost var st := State();
      ghost var p := Spec.ReadPair(context, rest);
      var val := PairOf();
      if val.IsFailure() {
        return val.PropagateFailure();
      }
      assert State() == st.(ordered := st.ordered + p.value.keys);
      SetValueOrdered(st, p.value.keys, currentKey, val.value);
      r := SetValue(currentKey, val.value);
      if r.Ok? {
        ordered := ordered + [context + [currentKey]];
        currentKey := "";
      }
    }

    // setValue does not look at the recorded keys.
    static lemma SetValueOrdered(st: Spec.PState, keys: seq<Key>, key: string, v: Trees.Value)
      ensures var s := Spec.SetValue(st.(ordered := st.ordered + keys), key, v);
              var s0 := Spec.SetValue(st, key, v);
              if s0.Ok? then s == Ok(s0.value.(ordered := st.ordered + keys)) else s == s0
    {
    }

    method TopLevel(item: Token) returns (r: Outcome<()>)
      modifies this
      ensures var p := Spec.ParseStmt(old(context), [item] + old(rest));
              item.typ.ItemError? ||
              if !p.Ok? then r == p.PropagateFailure() else
                var s := Spec.Exec(old(State()), p.value.val);
                if s.Ok? then r == Ok(()) && State() == s.value && rest == p.value.rest else r == s.PropagateFailure()
    {
      assert ([item] + rest)[1..] == rest;
      if item.typ.ItemCommentStart? {
        var text := Expect(ItemText);
        return if text.IsFailure() then text.PropagateFailure() else Ok(());
      } else if item.typ.ItemTableStart? {
        r := Header(false);
      } else if item.typ.ItemArrayTableStart? {
        r := Header(true);
      } else if item.typ.ItemKeyStart? {
        r := KeyValue();
      } else {
        return Bug(UnexpectedToken);
      }
    }
  }

  /** Parses a document: the result is that of the specification on the tokens of data. */
  method Parse(data: string) returns (r: Outcome<Spec.PState>)
    ensures r == Spec.Parse(LexAll(data))
  {
    var toks := LexInput(data);
    var p := new Parser(toks);
    while true
      invariant fresh(p)
      invariant Spec.ParseFrom(p.State(), p.rest) == Spec.Parse(toks)
      decreases |p.rest|
    {
      ghost var st, all := p.State(), p.rest;
      var item := p.Next();
      if item.IsFailure() {
        return item.PropagateFailure();
      }
      if item.value.typ.ItemEOF? {
        return Ok(Spec.PState(p.mapping, p.implicits, p.ordered, p.context));
      }
      assert [item.value] + p.rest == all;
      var ok := p.TopLevel(item.value);
      if ok.IsFailure() {
        return ok.PropagateFailure();
      }
    }
  }
}
