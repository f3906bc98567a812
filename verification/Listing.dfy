/** The in-memory store and its listings of path-like keys.

Keys and paths of the listings are clean and absolute, as path.Clean leaves them. */
module Listing {
  import opened Options
  import opened Sorting

  // ---- strings and paths ----

  // strings.Split(s, "/")
  function Split(s: string): (r: seq<string>)
    ensures r != []
  {
    if s == [] then [""]
    else
      var rest := Split(s[1..]);
      if s[0] == '/' then [""] + rest else [[s[0]] + rest[0]] + rest[1..]
  }

  // strings.Join(terms, "/")
  function JoinTerms(terms: seq<string>): string {
    if terms == [] then "" else if |terms| == 1 then terms[0] else terms[0] + "/" + JoinTerms(terms[1..])
  }

  /** The terms have no slashes, and with slashes between them they are the text again. */
  lemma {:induction false} SplitJoin(s: string)
    ensures JoinTerms(Split(s)) == s
    ensures forall i :: 0 <= i < |Split(s)| ==> '/' !in Split(s)[i]
  {
    if s != [] {
      SplitJoin(s[1..]);
      var rest := Split(s[1..]);
      assert '/' !in rest[0];
      if s[0] == '/' {
        assert ([""] + rest)[1..] == rest;
        assert s == "" + "/" + s[1..];
      } else {
        assert ([[s[0]] + rest[0]] + rest[1..])[1..] == rest[1..];
        assert s == [s[0]] + s[1..];
      }
    }
  }

  lemma {:induction false} SplitSlash(a: string, b: string)
    ensures Split(a + "/" + b) == Split(a) + Split(b)
  {
    var s := a + "/" + b;
    if a == [] {
      assert s[1..] == b;
    } else {
      SplitSlash(a[1..], b);
      assert s[0] == a[0] && s[1..] == a[1..] + "/" + b;
      FirstTerm(Split(a[1..]), Split(b), a[0]);
    }
  }

  // A rune in front of the first of some terms.
  lemma FirstTerm(p: seq<string>, q: seq<string>, r: char)
    requires p != []
    ensures [[r] + (p + q)[0]] + (p + q)[1..] == [[r] + p[0]] + p[1..] + q
    ensures [""] + (p + q) == [""] + p + q
  {
    assert (p + q)[0] == p[0] && (p + q)[1..] == p[1..] + q;
  }

  lemma {:induction false} SplitOne(s: string)
    requires '/' !in s
    ensures Split(s) == [s]
  {
    if s != [] {
      SplitOne(s[1..]);
      assert s == [s[0]] + s[1..];
    }
  }

  lemma {:induction false} JoinAppend(a: seq<string>, b: seq<string>)
    requires a != [] && b != []
    ensures JoinTerms(a + b) == JoinTerms(a) + "/" + JoinTerms(b)
  {
    if |a| == 1 {
      assert (a + b)[1..] == b;
    } else {
      JoinAppend(a[1..], b);
      assert (a + b)[1..] == a[1..] + b;
      assert a[0] + "/" + (JoinTerms(a[1..]) + "/" + JoinTerms(b))
          == a[0] + "/" + JoinTerms(a[1..]) + "/" + JoinTerms(b);
    }
  }

  const ROOT := "/"

  // A clean absolute path.
  predicate Clean(s: string) {
    s == ROOT || Proper(s)
  }

  // A clean absolute path other than the root.
  predicate Proper(s: string) {
    var terms := Split(s);
    && |terms| >= 2 && terms[0] == ""
    && forall i :: 1 <= i < |terms| ==> terms[i] != "" && terms[i] != "." && terms[i] != ".."
  }

  // The components of a path.
  function Components(s: string): seq<string>
    requires Clean(s)
  {
    if s == ROOT then [] else Split(s)[1..]
  }

  // Where the last slash is.
  function LastSlash(s: string): (p: nat)
    requires '/' in s
    ensures p < |s| && s[p] == '/' && '/' !in s[p + 1..]
  {
    if '/' in s[1..] then 1 + LastSlash(s[1..]) else 0
  }

  lemma {:induction false} HasSlash(s: string)
    requires |Split(s)| >= 2
    ensures '/' in s
  {
    if '/' !in s {
      SplitOne(s);
    }
  }

  // path.Dir, on a clean absolute path
  function Dir(s: string): string
    requires '/' in s
  {
    if LastSlash(s) == 0 then ROOT else s[..LastSlash(s)]
  }

  // path.Base, on a clean absolute path
  function Base(s: string): string
    requires '/' in s
  {
    if s == ROOT then ROOT else s[LastSlash(s) + 1..]
  }

  lemma OnlyTerm(a: string)
    ensures |Split(a)| == 1 ==> Split(a)[0] == a
    ensures a == "" ==> Split(a) == [""]
  {
    SplitJoin(a);
  }

  // The last term.
  lemma LastTerm(a: string, b: string)
    requires '/' !in b
    ensures var t := Split(a + "/" + b);
            |t| >= 2 && t[|t| - 1] == b && t[..|t| - 1] == Split(a) && t[0] == Split(a)[0]
  {
    SplitSlash(a, b);
    SplitOne(b);
  }

  lemma CutAtSlash(s: string) returns (a: string, b: string)
    requires '/' in s
    ensures s == a + "/" + b && '/' !in b
    ensures (s != ROOT ==> Base(s) == b) && Dir(s) == if a == "" then ROOT else a
  {
    a, b := s[..LastSlash(s)], s[LastSlash(s) + 1..];
  }

  lemma RootTerms()
    ensures Split("/") == ["", ""]
  {
    SplitSlash("", "");
    assert "" + "/" + "" == "/";
  }

  lemma DirTerms(s: string)
    requires Proper(s)
    ensures '/' in s
    ensures Base(s) == Split(s)[|Split(s)| - 1]
    ensures Split(Dir(s)) == if |Split(s)| == 2 then ["", ""] else Split(s)[..|Split(s)| - 1]
  {
    hide Split, Dir, Base;
    HasSlash(s);
    var a, b := CutAtSlash(s);
    LastTerm(a, b);
    OnlyTerm(a);
    RootTerms();
    assert s != ROOT;
  }

  // strings.HasPrefix and strings.TrimPrefix
  function TrimPrefix(s: string, prefix: string): string {
    if prefix <= s then s[|prefix|..] else s
  }

  function StripKey(key: string, prefix: string): string {
    TrimPrefix(TrimPrefix(key, prefix), "/")
  }

  method SamePrefixTerms(prefix: seq<string>, test: seq<string>) returns (same: bool)
    ensures same <==> prefix <= test
  {
    if |test| < |prefix| {
      return false;
    }
    for i := 0 to |prefix|
      invariant prefix[..i] == test[..i]
    {
      if prefix[i] != test[i] {
        return false;
      }
    }
    return true;
  }

  // The key lies below the path.
  predicate Below(path: string, key: string)
    requires Clean(path) && Clean(key)
  {
    Components(path) < Components(key)
  }

  // The first component of the key below the path.
  function NextComponent(path: string, key: string): string
    requires Clean(path) && Clean(key) && Below(path, key)
  {
    Components(key)[|Components(path)|]
  }

  // What the test of the listings on terms lets through: below the root, only keys of one
  // component, for the root has two empty terms.
  predicate Shown(path: string, key: string)
    requires Clean(path) && Clean(key)
  {
    Below(path, key) && (path == ROOT ==> |Components(key)| == 1)
  }

  /** The listings' test on terms, and the name that they show. */
  lemma BelowTerms(path: string, key: string)
    requires Clean(path) && Clean(key)
    ensures '/' in key
    ensures path != key ==> (Split(path) <= Split(Dir(key)) <==> Shown(path, key))
    ensures Shown(path, key) ==> Split(StripKey(key, path))[0] == NextComponent(path, key)
    ensures path == key ==> Base(key) == LastComponent(key)
  {
    hide Split, Dir, Base, StripKey, Components, Proper;
    if key == ROOT {
      RootKey(path);
    } else if path == ROOT {
      RootPath(key);
    } else {
      ProperTerms(path, key);
    }
  }

  // path.Base of a key, in terms of its components.
  function LastComponent(key: string): string
    requires Clean(key)
  {
    if key == ROOT then ROOT else Components(key)[|Components(key)| - 1]
  }

  lemma RootKey(path: string)
    requires Clean(path)
    ensures '/' in ROOT && Base(ROOT) == ROOT && Split(Dir(ROOT)) == ["", ""]
    ensures path != ROOT ==> !(Split(path) <= Split(Dir(ROOT)))
    ensures !Below(path, ROOT)
  {
    RootTerms();
    assert Dir(ROOT) == ROOT;
    if path != ROOT {
      assert Split(path)[1] != "";
    }
  }

  lemma RootPath(key: string)
    requires Proper(key) && key != ROOT
    ensures '/' in key
    ensures Split(ROOT) <= Split(Dir(key)) <==> Shown(ROOT, key)
    ensures Shown(ROOT, key) ==> Split(StripKey(key, ROOT))[0] == NextComponent(ROOT, key)
    ensures Split(ROOT) <= Split(Dir(key)) ==> |Split(Dir(key))| == 2
    ensures Base(key) == LastComponent(key)
  {
    hide Split, Dir, Base, StripKey;
    RootTerms();
    DirTerms(key);
    if |Split(key)| == 2 {
      var a, b := CutAtSlash(key);
      LastTerm(a, b);
      OnlyTerm(a);
      assert key == "" + "/" + b;
      TopKey(key, b);
    } else {
      assert Split(Dir(key))[1] == Split(key)[1] != "";
    }
  }

  // A key of one component, seen from the root.
  lemma TopKey(key: string, b: string)
    requires key == "/" + b && '/' !in b
    ensures StripKey(key, ROOT) == b && Split(b) == [b]
  {
    assert key[..1] == ROOT && key[1..] == b;
    SplitOne(b);
  }

  lemma ProperTerms(path: string, key: string)
    requires Proper(path) && Proper(key) && path != ROOT && key != ROOT
    ensures '/' in key
    ensures Split(path) <= Split(Dir(key)) <==> Below(path, key)
    ensures Below(path, key) ==> Split(Dir(key)) == Split(key)[..|Split(key)| - 1] && path <= key
    ensures Below(path, key) ==> Split(StripKey(key, path))[0] == NextComponent(path, key)
    ensures Base(key) == LastComponent(key)
  {
    hide Split, Dir, Base, StripKey;
    DirTerms(key);
    var p, k := Split(path), Split(key);
    assert p[1..] == Components(path) && k[1..] == Components(key);
    if Below(path, key) {
      assert p == [p[0]] + p[1..] && k == [k[0]] + k[1..];
      assert p <= k && |p| < |k|;
      Rest(path, key);
    }
    if Split(path) <= Split(Dir(key)) {
      assert p[1] == Split(Dir(key))[1];
      assert p <= k[..|k| - 1];
      assert p[1..] <= k[1..];
    }
  }

  // What the test of ListDir lets through.
  predicate ShownDir(path: string, key: string)
    requires Clean(path) && Clean(key)
  {
    path != ROOT && Below(path, key) && |Components(key)| > |Components(path)| + 1
  }

  lemma DirItem(path: string, key: string)
    requires Clean(path) && Clean(key)
    ensures '/' in key
    ensures ShownDir(path, key) <==>
              path <= key && Split(path) <= Split(Dir(key)) && |Split(Dir(key))| - |Split(path)| >= 1
    ensures ShownDir(path, key) ==> Split(Dir(key))[|Split(path)|..][0] == NextComponent(path, key)
  {
    hide Split, Dir, StripKey, Proper;
    RootTerms();
    if key == ROOT {
      RootKey(path);
    } else if path == ROOT {
      RootPath(key);
    } else {
      ProperTerms(path, key);
      ProperLengths(path, key);
    }
  }

  lemma ProperLengths(path: string, key: string)
    requires Proper(path) && Proper(key) && path != ROOT && key != ROOT
    ensures |Split(path)| == |Components(path)| + 1 && |Split(key)| == |Components(key)| + 1
    ensures forall i :: 1 <= i < |Split(key)| ==> Split(key)[i] == Components(key)[i - 1]
  {
  }

  lemma StripText(path: string, rest: string)
    ensures var key := path + "/" + rest; path <= key && StripKey(key, path) == rest
  {
    var key := path + "/" + rest;
    assert key[..|path|] == path;
    assert TrimPrefix(key, path) == "/" + rest;
  }

  lemma Rest(path: string, key: string)
    requires Split(path) <= Split(key) && |Split(path)| < |Split(key)|
    ensures path <= key && Split(StripKey(key, path))[0] == Split(key)[|Split(path)|]
  {
    hide Split, JoinTerms, StripKey;
    var p, k := Split(path), Split(key);
    var tail := k[|p|..];
    var rest := JoinTerms(tail);
    SplitJoin(path);
    SplitJoin(key);
    assert k == p + tail;
    JoinAppend(p, tail);
    StripText(path, rest);
    SplitSlash(path, rest);
    assert (p + Split(rest))[|p|] == Split(rest)[0];
  }

  // ---- the store ----

  datatype KVPair = KVPair(key: string, value: string)

  // The keys of a Go map, in some order.
  method Range(found: set<string>) returns (vs: seq<string>)
    ensures forall x :: x in vs <==> x in found
  {
    vs := [];
    var rest := found;
    while rest != {}
      invariant rest <= found && forall x :: x in vs <==> x in found - rest
    {
      var x :| x in rest;
      rest := rest - {x};
      vs := vs + [x];
    }
  }

  class Store {
    var m: map<string, KVPair>

    predicate Valid()
      reads this
    {
      forall k :: k in m ==> m[k].key == k
    }

    // Every key is clean and absolute.
    predicate CleanKeys()
      reads this
    {
      forall k :: k in m ==> Clean(k)
    }

    constructor ()
      ensures Valid() && m == map[]
    {
      m := map[];
    }

    method Set(key: string, value: string)
      requires Valid()
      modifies this
      ensures Valid() && m == old(m)[key := KVPair(key, value)]
    {
      m := m[key := KVPair(key, value)];
    }

    method Del(key: string)
      requires Valid()
      modifies this
      ensures Valid() && m == old(m) - {key}
    {
      m := m - {key};
    }

    method Purge()
      requires Valid()
      modifies this
      ensures Valid() && m == map[]
    {
      var keys := m.Keys;
      while keys != {}
        invariant Valid() && m.Keys == keys
      {
        var k :| k in keys;
        keys := keys - {k};
        m := m - {k};
      }
    }

    method Get(key: string) returns (r: Option<KVPair>)
      ensures r == if key in m then Some(m[key]) else None
    {
      r := if key in m then Some(m[key]) else None;
    }

    // What List finds.
    ghost predicate Listed(path: string, x: string)
      requires CleanKeys() && Clean(path)
      reads this
    {
      (path in m && x == LastComponent(path)) || exists k :: k in m && Shown(path, k) && x == NextComponent(path, k)
    }

    // What ListDir finds: components with something below them.
    ghost predicate ListedDir(path: string, x: string)
      requires CleanKeys() && Clean(path)
      reads this
    {
      exists k :: k in m && ShownDir(path, k) && x == NextComponent(path, k)
    }

    /** List: the first components below the path, and the last of the path if it is a key, in
        order and without repetition. */
    method List(path: string) returns (vs: seq<string>)
      requires Valid() && CleanKeys() && Clean(path)
      ensures Ascending(vs)
      ensures forall x :: x in vs <==> Listed(path, x)
    {
      var found: set<string> := {};
      var prefix := Split(path);
      var keys := m.Keys;
      while keys != {}
        invariant keys <= m.Keys
        invariant forall x :: x in found <==>
          exists k :: k in m.Keys - keys &&
            ((k == path && x == LastComponent(k)) || (Shown(path, k) && x == NextComponent(path, k)))
      {
        var k :| k in keys;
        keys := keys - {k};
        BelowTerms(path, k);
        if k == path {
          found := found + {Base(k)};
          continue;
        }
        var same := SamePrefixTerms(prefix, Split(Dir(k)));
        if same {
          found := found + {Split(StripKey(k, path))[0]};
        }
      }
      vs := Range(found);
      vs := SortStrings(vs);
    }

    /** ListDir: the same for the components with something below them. */
    method ListDir(path: string) returns (vs: seq<string>)
      requires Valid() && CleanKeys() && Clean(path)
      ensures Ascending(vs)
      ensures forall x :: x in vs <==> ListedDir(path, x)
    {
      hide Split, Components, Below, NextComponent, Clean, Dir;
      var found: set<string> := {};
      var prefix := Split(path);
      var keys := m.Keys;
      while keys != {}
        invariant keys <= m.Keys
        invariant forall x :: x in found <==>
            exists k :: k in m.Keys - keys && ShownDir(path, k) && x == NextComponent(path, k)
      {
        var k :| k in keys;
        keys := keys - {k};
        DirItem(path, k);
        if path <= k {
          var items := Split(Dir(k));
          var same := SamePrefixTerms(prefix, items);
          if same && |items| - |prefix| >= 1 {
            found := found + {items[|prefix|..][0]};
          }
        }
      }
      vs := Range(found);
      vs := SortStrings(vs);
    }

    /** What ListDir finds, List finds. */
    lemma DirsAreListed(path: string, x: string)
      requires CleanKeys() && Clean(path) && ListedDir(path, x)
      ensures Listed(path, x)
    {
    }

    /** At the root the listings miss what lies deeper: ListDir finds nothing, and List finds a
        component only if it is a key itself. */
    lemma RootListings(x: string)
      requires CleanKeys()
      ensures !ListedDir(ROOT, x)
      ensures Listed(ROOT, x) <==> (ROOT in m && x == ROOT) || exists k :: k in m && k != ROOT && Components(k) == [x]
    {
      forall k | k in m && Components(k) == [x]
        ensures Shown(ROOT, k) && NextComponent(ROOT, k) == x
      {
      }
      forall k | k in m && Shown(ROOT, k)
        ensures Components(k) == [NextComponent(ROOT, k)]
      {
      }
    }
  }
}
