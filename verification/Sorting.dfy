/** sort.Strings, and the sorted list of a set of strings. */
module Sorting {

  // The order of Go strings; on valid UTF-8 the order of bytes is that of runes.
  predicate StringLess(a: string, b: string) {
    b != [] && (a == [] || a[0] < b[0] || (a[0] == b[0] && StringLess(a[1..], b[1..])))
  }

  lemma {:induction false} LessIrreflexive(a: string)
    ensures !StringLess(a, a)
  {
    if a != [] {
      LessIrreflexive(a[1..]);
    }
  }

  lemma {:induction false} LessTransitive(a: string, b: string, c: string)
    requires StringLess(a, b) && StringLess(b, c)
    ensures StringLess(a, c)
  {
    if a != [] && a[0] == b[0] && b[0] == c[0] {
      LessTransitive(a[1..], b[1..], c[1..]);
    }
  }

  lemma {:induction false} LessTotal(a: string, b: string)
    ensures a == b || StringLess(a, b) || StringLess(b, a)
  {
    if a != [] && b != [] && a[0] == b[0] {
      LessTotal(a[1..], b[1..]);
      assert a == [a[0]] + a[1..] && b == [b[0]] + b[1..];
    }
  }

  // Sorted without duplicates.
  predicate StrictlySorted(s: seq<string>) {
    forall i, j :: 0 <= i < j < |s| ==> StringLess(s[i], s[j])
  }

  // The order said without recursion: a is a proper prefix of b, or they first differ at n, where
  // the rune of a has the smaller code point.
  predicate DiffersAt(a: string, b: string, n: nat) {
    && n <= |a| && n < |b| && a[..n] == b[..n]
    && (n < |a| ==> a[n] as int < b[n] as int)
  }

  ghost predicate Precedes(a: string, b: string) {
    exists n: nat :: DiffersAt(a, b, n)
  }

  lemma {:induction false} LessPrecedes(a: string, b: string)
    ensures StringLess(a, b) <==> Precedes(a, b)
  {
    if a == [] && b != [] {
      assert DiffersAt(a, b, 0);
    } else if a != [] && b != [] {
      LessPrecedes(a[1..], b[1..]);
      if StringLess(a, b) {
        if a[0] < b[0] {
          assert DiffersAt(a, b, 0);
        } else {
          var n: nat :| DiffersAt(a[1..], b[1..], n);
          assert a[..n + 1] == [a[0]] + a[1..][..n] && b[..n + 1] == [b[0]] + b[1..][..n];
          assert DiffersAt(a, b, n + 1);
        }
      }
      if Precedes(a, b) {
        var n: nat :| DiffersAt(a, b, n);
        if n > 0 {
          assert a[0] == a[..n][0] && b[0] == b[..n][0];
          assert a[1..][..n - 1] == a[..n][1..] && b[1..][..n - 1] == b[..n][1..];
          assert DiffersAt(a[1..], b[1..], n - 1);
        }
      }
    }
  }

  // In ascending order, without repetition.
  ghost predicate Ascending(s: seq<string>) {
    forall i, j :: 0 <= i < j < |s| ==> Precedes(s[i], s[j])
  }

  /** A strictly sorted list ascends in the order of code points. */
  lemma SortedAscends(s: seq<string>)
    ensures StrictlySorted(s) <==> Ascending(s)
  {
    forall i, j | 0 <= i < j < |s|
      ensures StringLess(s[i], s[j]) <==> Precedes(s[i], s[j])
    {
      LessPrecedes(s[i], s[j]);
    }
  }

  // The elements of s in strictly ascending order, duplicates removed: s as the key list of a
  // Go map, sorted.
  function Insert(x: string, s: seq<string>): (r: seq<string>)
    requires StrictlySorted(s)
    ensures StrictlySorted(r)
    ensures forall y :: y in r <==> y == x || y in s
  {
    if s == [] then [x]
    else if x == s[0] then s
    else if StringLess(x, s[0]) then
      assert forall j :: 0 < j < |s| ==> StringLess(x, s[j]) by {
        forall j | 0 < j < |s| ensures StringLess(x, s[j]) { LessTransitive(x, s[0], s[j]); }
      }
      [x] + s
    else
      LessTotal(x, s[0]);
      var rest := Insert(x, s[1..]);
      assert forall y :: y in rest ==> StringLess(s[0], y);
      [s[0]] + rest
  }

  function Sort(s: seq<string>): (r: seq<string>)
    ensures StrictlySorted(r)
    ensures forall y :: y in r <==> y in s
  {
    if s == [] then [] else
      assert s == [s[0]] + s[1..];
      Insert(s[0], Sort(s[1..]))
  }

  /** A strictly sorted list is determined by its elements. */
  lemma {:induction false} SortedUnique(a: seq<string>, b: seq<string>)
    requires StrictlySorted(a) && StrictlySorted(b)
    requires forall y :: y in a <==> y in b
    ensures a == b
  {
    if b != [] {
      assert b[0] in b;
      assert b[0] in a;
    }
    if a != [] {
      assert a[0] in b;
      HeadLeast(a, b[0]);
      HeadLeast(b, a[0]);
      if a[0] != b[0] {
        LessTransitive(a[0], b[0], a[0]);
        LessIrreflexive(a[0]);
      }
      LessIrreflexive(a[0]);
      assert a == [a[0]] + a[1..] && b == [b[0]] + b[1..];
      forall y
        ensures y in a[1..] <==> y in b[1..]
      {
        if y in a[1..] {
          HeadNotInTail(a, y);
          assert y in a && y in b && y != b[0];
        }
        if y in b[1..] {
          HeadNotInTail(b, y);
          assert y in b && y in a && y != a[0];
        }
      }
      SortedUnique(a[1..], b[1..]);
    }
  }

  lemma HeadLeast(a: seq<string>, y: string)
    requires StrictlySorted(a) && y in a
    ensures y == a[0] || StringLess(a[0], y)
  {
    var i :| 0 <= i < |a| && a[i] == y;
  }

  lemma HeadNotInTail(a: seq<string>, y: string)
    requires StrictlySorted(a) && a != [] && y in a[1..]
    ensures y != a[0]
  {
    var i :| 0 <= i < |a[1..]| && a[1..][i] == y;
    assert StringLess(a[0], a[i + 1]);
    LessIrreflexive(a[0]);
  }

  // The elements of a set in ascending order.
  ghost function SortedSet(s: set<string>): (r: seq<string>)
    ensures StrictlySorted(r)
    ensures forall y :: y in r <==> y in s
  {
    Sort(Enumerate(s))
  }

  ghost function Enumerate(s: set<string>): (r: seq<string>)
    ensures forall y :: y in r <==> y in s
  {
    if s == {} then [] else
      var x :| x in s;
      [x] + Enumerate(s - {x})
  }

  /** sort.Strings: sorts a list without duplicates. */
  method SortStrings(s: seq<string>) returns (r: seq<string>)
    ensures StrictlySorted(r) && Ascending(r) && forall y :: y in r <==> y in s
  {
    r := [];
    for i := 0 to |s|
      invariant StrictlySorted(r) && forall y :: y in r <==> y in s[..i]
    {
      assert s[..i + 1] == s[..i] + [s[i]];
      r := Insert(s[i], r);
    }
    assert s[..|s|] == s;
    SortedAscends(r);
  }
}
