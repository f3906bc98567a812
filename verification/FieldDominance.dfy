/** Which of the collected fields survive: the dominance rules, and the compaction in place. */
module FieldDominance {
  import opened Sorting
  import opened FieldSearch
  import opened FieldScans

  // ---- orders ----

  // byIndex.Less
  predicate IndexLess(a: Index, b: Index) {
    b != [] && (a == [] || a[0] < b[0] || (a[0] == b[0] && IndexLess(a[1..], b[1..])))
  }

  method CompareIndex(a: Index, b: Index) returns (less: bool)
    ensures less == IndexLess(a, b)
  {
    for k := 0 to |a|
      invariant k <= |b| && IndexLess(a, b) == IndexLess(a[k..], b[k..])
    {
      if k >= |b| {
        return false;
      }
      if a[k] != b[k] {
        return a[k] < b[k];
      }
      assert a[k..][1..] == a[k + 1..] && b[k..][1..] == b[k + 1..];
    }
    return |a| < |b|;
  }

  // byName.Less
  predicate NameLess(x: Field, y: Field) {
    if x.name != y.name then StringLess(x.name, y.name)
    else if |x.index| != |y.index| then |x.index| < |y.index|
    else if x.tagged != y.tagged then x.tagged
    else IndexLess(x.index, y.index)
  }

  lemma {:induction false} IndexIrreflexive(a: Index)
    ensures !IndexLess(a, a)
  {
    if a != [] {
      IndexIrreflexive(a[1..]);
    }
  }

  lemma {:induction false} IndexTransitive(a: Index, b: Index, c: Index)
    requires IndexLess(a, b) && IndexLess(b, c)
    ensures IndexLess(a, c)
  {
    if a != [] && a[0] == b[0] && b[0] == c[0] {
      IndexTransitive(a[1..], b[1..], c[1..]);
    }
  }

  lemma {:induction false} IndexTotal(a: Index, b: Index)
    ensures a == b || IndexLess(a, b) || IndexLess(b, a)
  {
    if a != [] && b != [] && a[0] == b[0] {
      IndexTotal(a[1..], b[1..]);
      assert a == [a[0]] + a[1..] && b == [b[0]] + b[1..];
    }
  }

  // The order said without recursion: a is a proper prefix of b, or they first differ at n, where
  // a is smaller.
  predicate IndexDiffersAt(a: Index, b: Index, n: nat) {
    n <= |a| && n < |b| && a[..n] == b[..n] && (n < |a| ==> a[n] < b[n])
  }

  ghost predicate IndexPrecedes(a: Index, b: Index) {
    exists n: nat :: IndexDiffersAt(a, b, n)
  }

  lemma {:induction false} IndexLessPrecedes(a: Index, b: Index)
    requires IndexLess(a, b)
    ensures IndexPrecedes(a, b)
  {
    if a == [] || a[0] < b[0] {
      assert IndexDiffersAt(a, b, 0);
    } else {
      IndexLessPrecedes(a[1..], b[1..]);
      var n: nat :| IndexDiffersAt(a[1..], b[1..], n);
      assert a[..n + 1] == [a[0]] + a[1..][..n] && b[..n + 1] == [b[0]] + b[1..][..n];
      assert IndexDiffersAt(a, b, n + 1);
    }
  }

  // The two orders of the source.
  predicate Less(byName: bool, x: Field, y: Field) {
    if byName then NameLess(x, y) else IndexLess(x.index, y.index)
  }

  lemma LessTransitiveFields(byName: bool, x: Field, y: Field, z: Field)
    requires Less(byName, x, y) && Less(byName, y, z)
    ensures Less(byName, x, z)
  {
    if byName {
      if x.name != y.name && y.name != z.name {
        LessTransitive(x.name, y.name, z.name);
        LessIrreflexive(y.name);
        if x.name == z.name {
          LessIrreflexive(x.name);
        }
      } else if x.name == y.name && y.name == z.name {
        if IndexLess(x.index, y.index) && IndexLess(y.index, z.index) {
          IndexTransitive(x.index, y.index, z.index);
        }
      }
    } else {
      IndexTransitive(x.index, y.index, z.index);
    }
  }

  lemma LessTotalFields(byName: bool, x: Field, y: Field)
    ensures Less(byName, x, y) || Less(byName, y, x) || x.index == y.index
    ensures byName && !Less(byName, x, y) && !Less(byName, y, x) ==> x.name == y.name && x.tagged == y.tagged
  {
    IndexTotal(x.index, y.index);
    LessTotal(x.name, y.name);
  }

  lemma LessAsymmetric(byName: bool, x: Field, y: Field)
    requires Less(byName, x, y)
    ensures !Less(byName, y, x)
  {
    if Less(byName, y, x) {
      LessTransitiveFields(byName, x, y, x);
      IndexIrreflexive(x.index);
      LessIrreflexive(x.name);
      assert false;
    }
  }

  // ---- sort.Sort ----

  predicate Sorted(byName: bool, s: seq<Field>) {
    forall i, j :: 0 <= i < j < |s| ==> !Less(byName, s[j], s[i])
  }

  // The orders are total up to equal sort keys, so what lies between splits a comparison.
  lemma Between(byName: bool, z: Field, y: Field, x: Field)
    requires Less(byName, z, x)
    ensures Less(byName, z, y) || Less(byName, y, x)
  {
    LessTotalFields(byName, z, y);
    if Less(byName, y, z) {
      LessTransitiveFields(byName, y, z, x);
    }
  }

  function InsertField(byName: bool, x: Field, s: seq<Field>): (r: seq<Field>)
    ensures multiset(r) == multiset(s) + multiset{x}
    ensures forall i :: 0 <= i < |r| ==> r[i] == x || r[i] in s
  {
    if s == [] || !Less(byName, s[0], x) then [x] + s
    else
      assert s == [s[0]] + s[1..];
      [s[0]] + InsertField(byName, x, s[1..])
  }

  lemma {:induction false} InsertSorted(byName: bool, x: Field, s: seq<Field>)
    requires Sorted(byName, s)
    ensures Sorted(byName, InsertField(byName, x, s))
  {
    if s != [] {
      if Less(byName, s[0], x) {
        InsertSorted(byName, x, s[1..]);
        LessAsymmetric(byName, s[0], x);
        FirstLeast(byName, s[0], x, s[1..], InsertField(byName, x, s[1..]));
      } else {
        forall j | 0 <= j < |s|
          ensures !Less(byName, s[j], x)
        {
          if Less(byName, s[j], x) {
            Between(byName, s[j], s[0], x);
          }
        }
      }
    }
  }

  lemma FirstLeast(byName: bool, y: Field, x: Field, s: seq<Field>, r: seq<Field>)
    requires !Less(byName, x, y) && Sorted(byName, [y] + s) && Sorted(byName, r)
    requires forall i :: 0 <= i < |r| ==> r[i] == x || r[i] in s
    ensures Sorted(byName, [y] + r)
  {
    forall i | 0 <= i < |r|
      ensures !Less(byName, r[i], y)
    {
      if r[i] != x {
        var j :| 0 <= j < |s| && s[j] == r[i];
        assert ([y] + s)[j + 1] == r[i] && ([y] + s)[0] == y;
      }
    }
    forall i, j | 0 <= i < j < |[y] + r|
      ensures !Less(byName, ([y] + r)[j], ([y] + r)[i])
    {
      assert ([y] + r)[j] == r[j - 1] && (i > 0 ==> ([y] + r)[i] == r[i - 1]);
    }
  }

  // The comparisons of the two orders.
  method CompareFields(byName: bool, x: Field, y: Field) returns (less: bool)
    ensures less == Less(byName, x, y)
  {
    if byName {
      if x.name != y.name {
        return StringLess(x.name, y.name);
      }
      if |x.index| != |y.index| {
        return |x.index| < |y.index|;
      }
      if x.tagged != y.tagged {
        return x.tagged;
      }
    }
    less := CompareIndex(x.index, y.index);
  }

  method Insert(byName: bool, x: Field, s: seq<Field>) returns (r: seq<Field>)
    ensures r == InsertField(byName, x, s)
  {
    hide Less, NameLess, StringLess, IndexLess;
    var i := 0;
    assert s[0..] == s && s[..0] + InsertField(byName, x, s) == InsertField(byName, x, s);
    while i < |s|
      invariant i <= |s| && InsertField(byName, x, s) == s[..i] + InsertField(byName, x, s[i..])
    {
      var less := CompareFields(byName, s[i], x);
      if !less {
        break;
      }
      InsertStep(byName, x, s, i);
      i := i + 1;
    }
    r := s[..i] + [x] + s[i..];
  }

  lemma InsertStep(byName: bool, x: Field, s: seq<Field>, i: nat)
    requires i < |s| && Less(byName, s[i], x)
    ensures s[..i] + InsertField(byName, x, s[i..]) == s[..i + 1] + InsertField(byName, x, s[i + 1..])
  {
    assert s[i..][0] == s[i] && s[i..][1..] == s[i + 1..];
    assert s[..i + 1] == s[..i] + [s[i]];
  }

  // sort.Sort with one of the orders
  method SortFields(byName: bool, s: seq<Field>) returns (r: seq<Field>)
    ensures Sorted(byName, r) && multiset(r) == multiset(s)
  {
    r := [];
    for i := 0 to |s|
      invariant Sorted(byName, r) && multiset(r) == multiset(s[..i])
    {
      assert s[..i + 1] == s[..i] + [s[i]];
      InsertSorted(byName, s[i], r);
      r := Insert(byName, s[i], r);
    }
    assert s[..|s|] == s;
  }

  // ---- dominance ----

  // f hides every other field of its name: it is alone at the least depth, or alone among the
  // tagged fields there.
  ghost predicate Survives(m: multiset<Field>, f: Field) {
    m[f] == 1 && forall g :: g in m && g.name == f.name ==>
      |f.index| <= |g.index| && (|g.index| == |f.index| && (g.tagged || !f.tagged) ==> g == f)
  }

  /** At most one field of a name survives. */
  lemma OneSurvivor(m: multiset<Field>, f: Field, g: Field)
    requires Survives(m, f) && Survives(m, g) && f.name == g.name
    ensures f == g
  {
    assert f in m && g in m;
  }

  lemma {:induction false} CountOne(s: seq<Field>, p: nat)
    requires p < |s| && forall q :: 0 <= q < |s| && q != p ==> s[q] != s[p]
    ensures multiset(s)[s[p]] == 1
  {
    assert s == s[..p] + [s[p]] + s[p + 1..];
    assert s[p] !in s[..p] && s[p] !in s[p + 1..];
    assert s[p] !in multiset(s[..p]) && s[p] !in multiset(s[p + 1..]);
  }

  lemma CountTwo(s: seq<Field>, p: nat, q: nat)
    requires p < q < |s| && s[p] == s[q]
    ensures multiset(s)[s[p]] >= 2
  {
    assert s == s[..q] + s[q..];
    assert s[..q][p] == s[p] && s[q..][0] == s[q];
    assert s[p] in multiset(s[..q]) && s[p] in multiset(s[q..]);
  }

  // The fields of one name, as sorting by name leaves them.
  predicate IsRun(run: seq<Field>) {
    run != [] && Sorted(true, run) && forall i :: 0 <= i < |run| ==> run[i].name == run[0].name
  }

  lemma RunDepths(run: seq<Field>, i: nat, j: nat)
    requires IsRun(run) && i <= j < |run|
    ensures |run[i].index| <= |run[j].index|
  {
    if i < j {
      assert !Less(true, run[j], run[i]);
    }
  }

  // dominantField
  method DominantField(run: seq<Field>) returns (f: Field, ok: bool)
    requires IsRun(run)
    ensures ok ==> Survives(multiset(run), f)
    ensures !ok ==> forall g :: !Survives(multiset(run), g)
  {
    var length := |run[0].index|;
    var tagged := -1;
    var n := |run|;
    for i := 0 to |run|
      invariant n == |run| && -1 <= tagged < i
      invariant forall j :: 0 <= j < i ==> |run[j].index| == length
      invariant forall j :: 0 <= j < i && run[j].tagged ==> j == tagged
      invariant tagged >= 0 ==> run[tagged].tagged
    {
      RunDepths(run, 0, i);
      if |run[i].index| > length {
        n := i;
        break;
      }
      if run[i].tagged {
        if tagged >= 0 {
          NoTwo(run, tagged, i);
          return run[0], false;
        }
        tagged := i;
      }
    }
    forall j | n <= j < |run|
      ensures |run[j].index| > length
    {
      RunDepths(run, n, j);
    }
    if tagged >= 0 {
      CountOne(run, tagged);
      return run[tagged], true;
    }
    if n > 1 {
      NoTwo(run, 0, 1);
      return run[0], false;
    }
    CountOne(run, 0);
    return run[0], true;
  }

  // Two fields at the least depth, both tagged or neither and no other, hide each other.
  lemma NoTwo(run: seq<Field>, p: nat, q: nat)
    requires IsRun(run) && p < q < |run| && |run[p].index| == |run[q].index| == |run[0].index|
    requires (run[p].tagged && run[q].tagged)
        || (forall j :: 0 <= j < |run| && |run[j].index| == |run[0].index| ==> !run[j].tagged)
    ensures forall g :: !Survives(multiset(run), g)
  {
    forall g
      ensures !Survives(multiset(run), g)
    {
      if Survives(multiset(run), g) {
        assert g in multiset(run);
        assert g in run;
        assert run[0] in multiset(run) && run[p] in multiset(run) && run[q] in multiset(run);
        var i :| 0 <= i < |run| && run[i] == g;
        RunDepths(run, 0, i);
        assert run[p] == g && run[q] == g;
        CountTwo(run, p, q);
      }
    }
  }

  // ---- the compaction ----

  lemma NameOrder(s: seq<Field>, p: nat, q: nat)
    requires Sorted(true, s) && p < q < |s|
    ensures s[p].name == s[q].name || StringLess(s[p].name, s[q].name)
  {
    assert !Less(true, s[q], s[p]);
    LessTotal(s[p].name, s[q].name);
  }

  // Where the name changes, no name of the left part comes again.
  lemma NamesApart(s: seq<Field>, i: nat, p: nat, q: nat)
    requires Sorted(true, s) && p < i <= q < |s| && s[i - 1].name != s[i].name
    ensures s[p].name != s[q].name
  {
    NameOrder(s, i - 1, i);
    if p < i - 1 {
      NameOrder(s, p, i - 1);
      LessTransitiveOrEqual(s[p].name, s[i - 1].name, s[i].name);
    }
    if i < q {
      NameOrder(s, i, q);
      LessOrEqualTransitive(s[p].name, s[i].name, s[q].name);
    }
    LessIrreflexive(s[p].name);
  }

  lemma LessTransitiveOrEqual(a: string, b: string, c: string)
    requires (a == b || StringLess(a, b)) && StringLess(b, c)
    ensures StringLess(a, c)
  {
    if a != b {
      LessTransitive(a, b, c);
    }
  }

  lemma LessOrEqualTransitive(a: string, b: string, c: string)
    requires StringLess(a, b) && (b == c || StringLess(b, c))
    ensures StringLess(a, c)
  {
    if b != c {
      LessTransitive(a, b, c);
    }
  }

  // The survivors of two parts without a common name.
  lemma SurvivorsOfParts(a: seq<Field>, b: seq<Field>, f: Field)
    requires forall i, j :: 0 <= i < |a| && 0 <= j < |b| ==> a[i].name != b[j].name
    ensures Survives(multiset(a + b), f) <==> Survives(multiset(a), f) || Survives(multiset(b), f)
  {
    var m, n := multiset(a), multiset(b);
    assert multiset(a + b) == m + n;
    forall g, h | g in m && h in n
      ensures g.name != h.name
    {
      assert g in a && h in b;
    }
  }

  // What has been kept of the first i fields.
  ghost predicate Kept(s: seq<Field>, i: nat, out: seq<Field>)
    requires i <= |s|
  {
    && (forall f :: f in out <==> Survives(multiset(s[..i]), f))
    && (forall p, q :: 0 <= p < q < |out| ==> out[p].name != out[q].name)
  }

  // One run more.
  lemma KeepRun(s: seq<Field>, i: nat, j: nat, out: seq<Field>, more: seq<Field>)
    requires Sorted(true, s) && i < j <= |s| && Kept(s, i, out)
    requires i > 0 ==> s[i - 1].name != s[i].name
    requires |more| <= 1 && forall f :: f in more <==> Survives(multiset(s[i..j]), f)
    ensures Kept(s, j, out + more)
  {
    forall p, q | 0 <= p < i && i <= q < j
      ensures s[p].name != s[q].name
    {
      NamesApart(s, i, p, q);
    }
    assert s[..j] == s[..i] + s[i..j];
    forall f
      ensures f in out + more <==> Survives(multiset(s[..j]), f)
    {
      SurvivorsOfParts(s[..i], s[i..j], f);
    }
    NewName(s, i, j, out, more);
  }

  // The field kept of a run has a name that has not been kept before.
  lemma NewName(s: seq<Field>, i: nat, j: nat, out: seq<Field>, more: seq<Field>)
    requires i < j <= |s| && Kept(s, i, out)
    requires |more| <= 1 && forall f :: f in more <==> Survives(multiset(s[i..j]), f)
    requires forall p, q :: 0 <= p < i && i <= q < j ==> s[p].name != s[q].name
    ensures forall p, q :: 0 <= p < q < |out + more| ==> (out + more)[p].name != (out + more)[q].name
  {
    forall p, q | 0 <= p < q < |out + more|
      ensures (out + more)[p].name != (out + more)[q].name
    {
      if q >= |out| {
        assert out[p] in out && more[0] in more;
        assert out[p] in multiset(s[..i]) && more[0] in multiset(s[i..j]);
        assert out[p] in s[..i] && more[0] in s[i..j];
      }
    }
  }

  // The number of fields from i on that have the name of the field at i.
  method RunLength(a: array<Field>, i: nat) returns (advance: nat)
    requires i < a.Length
    ensures 1 <= advance <= a.Length - i
    ensures forall f :: f in a[i..i + advance] ==> f.name == a[i].name
    ensures i + advance < a.Length ==> a[i + advance].name != a[i].name
  {
    advance := 1;
    while i + advance < a.Length && a[i + advance].name == a[i].name
      invariant 1 <= advance <= a.Length - i
      invariant forall f :: f in a[i..i + advance] ==> f.name == a[i].name
    {
      assert a[i..i + advance + 1] == a[i..i + advance] + [a[i + advance]];
      advance := advance + 1;
    }
  }

  // A stretch that has yet to be read.
  lemma Unread(now: seq<Field>, s: seq<Field>, i: nat, j: nat)
    requires i < j <= |s| && |now| == |s| && now[i..] == s[i..]
    ensures now[i..j] == s[i..j] && now[i] == s[i] && now[j - 1] == s[j - 1] && now[j..] == s[j..]
    ensures j < |s| ==> now[j] == s[j]
  {
    assert now[i..][..j - i] == now[i..j] && s[i..][..j - i] == s[i..j];
    assert now[i..][j - i..] == now[j..] && s[i..][j - i..] == s[j..];
    assert now[i..][0] == now[i] && s[i..][0] == s[i];
    assert now[i..j][j - 1 - i] == now[j - 1] && s[i..j][j - 1 - i] == s[j - 1];
    assert j < |s| ==> now[j..][0] == now[j] && s[j..][0] == s[j];
  }

  lemma RunIsRun(s: seq<Field>, i: nat, j: nat)
    requires Sorted(true, s) && i < j <= |s| && forall f :: f in s[i..j] ==> f.name == s[i].name
    ensures IsRun(s[i..j]) && s[j - 1].name == s[i].name
  {
    assert s[i..j][j - 1 - i] == s[j - 1];
    forall p, q | 0 <= p < q < j - i
      ensures !Less(true, s[i..j][q], s[i..j][p])
    {
      assert s[i..j][p] == s[i + p] && s[i..j][q] == s[i + q];
    }
  }

  // Between two names: the first i fields have been read, k of them kept, the rest is as it was.
  ghost predicate Compacting(now: seq<Field>, s: seq<Field>, k: nat, i: nat) {
    && k <= i <= |s| == |now|
    && now[i..] == s[i..]
    && (0 < i < |s| ==> s[i - 1].name != s[i].name)
    && Kept(s, i, now[..k])
  }

  // The fields from i to j are those of one name, and f is the one to keep, if ok.
  ghost predicate Chosen(s: seq<Field>, i: nat, j: nat, f: Field, ok: bool) {
    && i < j <= |s| && IsRun(s[i..j])
    && (j < |s| ==> s[j].name != s[j - 1].name)
    && if j == i + 1 then ok && f == s[i]
       else if ok then Survives(multiset(s[i..j]), f) else forall g :: !Survives(multiset(s[i..j]), g)
  }

  // The effect of one name on the array.
  lemma CompactStep(was: seq<Field>, now: seq<Field>, s: seq<Field>, k: nat, k': nat, i: nat, j: nat, f: Field,
      ok: bool)
    requires Compacting(was, s, k, i) && Sorted(true, s) && Chosen(s, i, j, f, ok)
    requires if ok then k' == k + 1 && now == was[k := f] else k' == k && now == was
    ensures Compacting(now, s, k', j) && k' <= j <= |now|
  {
    Unread(was, s, i, j);
    Updated(was, now, k', j, f, ok);
    KeptOfRun(s, i, j, f, ok);
    hide Kept, Sorted, IsRun, Survives;
    KeepRun(s, i, j, was[..k], if ok then [f] else []);
  }

  // One round of the loop of Compact.
  method CompactName(a: array<Field>, ghost s: seq<Field>, k: nat, i: nat) returns (k': nat, j: nat)
    requires k <= i < a.Length && Sorted(true, s) && Compacting(a[..], s, k, i)
    modifies a
    ensures k' <= j <= a.Length && i < j && Compacting(a[..], s, k', j)
  {
    hide Compacting, Sorted, Chosen;
    var advance, f, ok := NextKept(a, s, k, i);
    ghost var was := a[..];
    k', j := k, i + advance;
    if ok {
      a[k'] := f;
      k' := k' + 1;
    }
    CompactStep(was, a[..], s, k, k', i, j, f, ok);
  }

  /** The loop that deletes hidden fields, on the array of the sorted fields; it never
      overwrites a field that it has yet to read. */
  method Compact(a: array<Field>) returns (k: nat)
    requires Sorted(true, a[..])
    modifies a
    ensures k <= a.Length && Kept(old(a[..]), a.Length, a[..k])
  {
    ghost var s := a[..];
    k := 0;
    var i := 0;
    while i < a.Length
      invariant k <= i <= a.Length && Compacting(a[..], s, k, i)
    {
      k, i := CompactName(a, s, k, i);
    }
    assert a[..][..k] == a[..k];
  }

  // The field to keep of the name at i, if any, and the number of fields of that name.
  method NextKept(a: array<Field>, ghost s: seq<Field>, ghost k: nat, i: nat) returns (advance: nat, f: Field, ok: bool)
    requires i < a.Length && Sorted(true, s) && Compacting(a[..], s, k, i)
    ensures 1 <= advance <= a.Length - i && Chosen(s, i, i + advance, f, ok)
  {
    advance := RunLength(a, i);
    ghost var j := i + advance;
    Unread(a[..], s, i, j);
    assert a[..][i..j] == a[i..j];
    RunIsRun(s, i, j);
    f, ok := a[i], true;
    if advance > 1 {
      f, ok := DominantField(a[i..i + advance]);
    }
  }

  lemma KeptOfRun(s: seq<Field>, i: nat, j: nat, f: Field, ok: bool)
    requires i < j <= |s| && IsRun(s[i..j])
    requires if j == i + 1 then ok && f == s[i]
             else if ok then Survives(multiset(s[i..j]), f) else forall g :: !Survives(multiset(s[i..j]), g)
    ensures forall g :: g in (if ok then [f] else []) <==> Survives(multiset(s[i..j]), g)
  {
    if j == i + 1 {
      LoneSurvivor(s, i);
    } else if ok {
      OnlyDominant(s[i..j], f);
    }
  }

  // The array after an optional write at or below what has been read.
  lemma Updated(was: seq<Field>, now: seq<Field>, k: nat, j: nat, f: Field, ok: bool)
    requires k <= j <= |was| && (ok ==> k > 0 && now == was[k - 1 := f]) && (!ok ==> now == was)
    ensures now[..k] == (if ok then was[..k - 1] + [f] else was[..k] + []) && (if ok then k - 1 else k) <= |was|
    ensures now[j..] == was[j..] && |now| == |was|
  {
  }

  lemma LoneSurvivor(s: seq<Field>, i: nat)
    requires i < |s|
    ensures forall f :: f in [s[i]] <==> Survives(multiset(s[i..i + 1]), f)
  {
    assert s[i..i + 1] == [s[i]];
  }

  lemma OnlyDominant(run: seq<Field>, f: Field)
    requires IsRun(run) && Survives(multiset(run), f)
    ensures forall g :: g in [f] <==> Survives(multiset(run), g)
  {
    forall g | Survives(multiset(run), g)
      ensures g == f
    {
      assert g in multiset(run) && f in multiset(run);
      assert g in run && f in run;
      OneSurvivor(multiset(run), f, g);
    }
  }

  // ---- survival, in terms of the scans ----

  // A recorded field of a scanned type with the same name that is nearer, or as near and not
  // outdone by the tag of f.
  ghost predicate Outdone(g: Graph, scans: seq<Scan>, f: Field) {
    exists k, h :: Owner(g, scans, k, h) && Outdoes(h, f)
  }

  predicate Outdoes(h: Field, f: Field) {
    && h.name == f.name && h != f
    && (|h.index| < |f.index| || (|h.index| == |f.index| && (h.tagged || !f.tagged)))
  }

  // f is recorded in a type that at most one place at the level before embeds, and no other
  // recorded field of its name outdoes it.
  ghost predicate Wins(g: Graph, scans: seq<Scan>, f: Field) {
    && (exists k :: Owner(g, scans, k, f) && EdgesAt(g, scans, |scans[k].index| - 1, scans[k].typ) <= 1)
    && !Outdone(g, scans, f)
  }

  lemma SurvivesUndone(m: multiset<Field>, f: Field)
    ensures Survives(m, f) <==> m[f] == 1 && forall h :: h in m ==> !Outdoes(h, f)
  {
    if m[f] == 1 && forall h :: h in m ==> !Outdoes(h, f) {
      forall h | h in m && h.name == f.name
        ensures |f.index| <= |h.index| && (|h.index| == |f.index| && (h.tagged || !f.tagged) ==> h == f)
      {
        assert !Outdoes(h, f);
      }
    }
  }

  /** Which collected fields survive. */
  lemma SurvivorsByScan(g: Graph, t: TypeId, f: Field)
    requires Closed(g) && t in g
    ensures Survives(multiset(Collected(g, t)), f) <==> Wins(g, Scans(g, t), f)
  {
    hide Scans, Collected, Survives, Owner, EdgesAt, Outdoes;
    var scans, m := Scans(g, t), multiset(Collected(g, t));
    SurvivesUndone(m, f);
    forall h
      ensures h in m <==> exists k :: Owner(g, scans, k, h)
    {
      CollectedCopies(g, t, h);
      assert h in m <==> h in Collected(g, t);
    }
    CollectedCopies(g, t, f);
    assert f !in m ==> m[f] == 0;
  }

  // ---- typeFields ----

  ghost predicate SortedByIndex(s: seq<Field>) {
    forall i, j :: 0 <= i < j < |s| ==> IndexPrecedes(s[i].index, s[j].index)
  }

  // Fields with one index are one field, so the survivors have distinct indexes.
  lemma SameIndex(g: Graph, t: TypeId, f: Field, h: Field)
    requires Genuine(g, t, f) && Genuine(g, t, h) && f.index == h.index
    ensures f == h
  {
  }

  lemma StrictByIndex(g: Graph, t: TypeId, s: seq<Field>, kept: seq<Field>)
    requires Sorted(false, s) && multiset(s) == multiset(kept)
    requires forall i, j :: 0 <= i < j < |kept| ==> kept[i].name != kept[j].name
    requires forall f :: f in kept ==> Genuine(g, t, f)
    ensures SortedByIndex(s)
  {
    forall i, j | 0 <= i < j < |s|
      ensures IndexPrecedes(s[i].index, s[j].index)
    {
      assert s[i] in multiset(s) && s[j] in multiset(s);
      assert s[i] in kept && s[j] in kept;
      IndexTotal(s[i].index, s[j].index);
      assert !Less(false, s[j], s[i]);
      if s[i].index == s[j].index {
        SameIndex(g, t, s[i], s[j]);
        CountTwo(s, i, j);
        var p :| 0 <= p < |kept| && kept[p] == s[i];
        CountOne(kept, p);
        assert false;
      }
      IndexLessPrecedes(s[i].index, s[j].index);
    }
  }

  /** typeFields: the survivors among the collected fields, each once, in the order of their
      indexes. */
  method TypeFields(g: Graph, t: TypeId) returns (fields: seq<Field>)
    requires Closed(g) && t in g
    ensures forall f :: f in fields <==> Survives(multiset(Collected(g, t)), f)
    ensures forall f :: f in fields <==> Wins(g, Scans(g, t), f)
    ensures forall f :: f in fields ==> AsReflected(g, t, f)
    ensures SortedByIndex(fields)
  {
    hide Wins, Scans, AsReflected;
    fields := CollectFields(g, t);
    SearchComplete(g, t);
    var byName := SortFields(true, fields);
    var a := new Field[|byName|](i requires 0 <= i < |byName| => byName[i]);
    assert a[..] == byName;
    var k := Compact(a);
    var out := a[..k];
    KeptAll(byName, Collected(g, t), out);
    fields := SortFields(false, out);
    forall f
      ensures f in fields <==> f in out
    {
      assert f in fields <==> f in multiset(fields);
      assert f in out <==> f in multiset(out);
    }
    forall f | f in out
      ensures Genuine(g, t, f) && AsReflected(g, t, f)
    {
      assert f in multiset(Collected(g, t));
      assert f in Collected(g, t);
      GenuineReflected(g, t, f);
    }
    StrictByIndex(g, t, fields, out);
    forall f
      ensures Survives(multiset(Collected(g, t)), f) <==> Wins(g, Scans(g, t), f)
    {
      SurvivorsByScan(g, t, f);
    }
  }

  lemma KeptAll(s: seq<Field>, collected: seq<Field>, out: seq<Field>)
    requires multiset(s) == multiset(collected) && Kept(s, |s|, out)
    ensures forall f :: f in out <==> Survives(multiset(collected), f)
    ensures forall p, q :: 0 <= p < q < |out| ==> out[p].name != out[q].name
  {
    assert s[..|s|] == s;
  }
}
