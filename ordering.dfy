/** Orders used by the store's `orderBy` clauses and by `Array.prototype.sort`
    on strings: a numeric key, descending, over row identifiers, and the
    lexicographic order on strings by character (code point), ascending. */
module Ordering {
  import opened Common

  predicate Distinct<T(==)>(s: seq<T>)
  {
    forall i, j :: 0 <= i < j < |s| ==> s[i] != s[j]
  }

  lemma {:induction false} DistinctOfMultiset<T>(s: seq<T>, xs: set<T>)
    requires multiset(s) == multiset(xs)
    ensures Distinct(s)
    ensures forall x :: x in s <==> x in xs
  {
    forall x ensures x in s <==> x in xs {
      assert x in s <==> x in multiset(s);
    }
    forall i, j | 0 <= i < j < |s| ensures s[i] != s[j] {
      RepeatCounted(s, i, j);
    }
  }

  lemma RepeatCounted<T>(s: seq<T>, i: nat, j: nat)
    requires i < j < |s|
    ensures s[i] == s[j] ==> multiset(s)[s[i]] >= 2
  {
    assert s == s[..i] + [s[i]] + s[i + 1..j] + [s[j]] + s[j + 1..];
  }

  // ---------------------------------------------------------------------------
  // Numeric key, descending (`orderBy: { field: "desc" }`)

  predicate KeyedBy(key: map<Id, int>, s: seq<Id>)
  {
    forall i :: 0 <= i < |s| ==> s[i] in key
  }

  predicate Descending(key: map<Id, int>, s: seq<Id>)
    requires KeyedBy(key, s)
  {
    forall i, j :: 0 <= i < j < |s| ==> key[s[i]] >= key[s[j]]
  }

  function InsertDesc(key: map<Id, int>, x: Id, s: seq<Id>): (r: seq<Id>)
    requires x in key && KeyedBy(key, s) && Descending(key, s)
    ensures multiset(r) == multiset(s) + multiset{x}
    ensures KeyedBy(key, r) && Descending(key, r)
  {
    if s == [] || key[x] >= key[s[0]] then
      ConsDescending(key, x, s);
      [x] + s
    else
      var rest := InsertDesc(key, x, s[1..]);
      assert s == [s[0]] + s[1..];
      BoundedByHead(key, s, rest);
      ConsDescending(key, s[0], rest);
      [s[0]] + rest
  }

  /** A head no smaller than every key after it keeps a list descending. */
  lemma ConsDescending(key: map<Id, int>, h: Id, t: seq<Id>)
    requires h in key && KeyedBy(key, t) && Descending(key, t)
    requires t == [] || key[h] >= key[t[0]]
    ensures KeyedBy(key, [h] + t) && Descending(key, [h] + t)
  {
    var r := [h] + t;
    assert forall j :: 0 < j < |r| ==> r[j] == t[j - 1];
  }

  /** The rest of a descending list, with an element smaller than its head
      inserted, stays below the head. */
  lemma BoundedByHead(key: map<Id, int>, s: seq<Id>, rest: seq<Id>)
    requires s != [] && KeyedBy(key, s) && Descending(key, s)
    requires KeyedBy(key, rest)
    requires forall y :: y in multiset(rest) ==> y in multiset(s[1..]) || key[y] < key[s[0]]
    ensures rest == [] || key[s[0]] >= key[rest[0]]
  {
    if rest != [] {
      var y := rest[0];
      assert y in multiset(rest);
      if y in multiset(s[1..]) {
        var k :| 0 <= k < |s[1..]| && s[1..][k] == y;
        assert s[k + 1] == y;
      }
    }
  }

  /** The store returns the selected rows in SOME order consistent with the
      key; rows with equal keys may come in any order. */
  ghost function OrderedDesc(key: map<Id, int>, ids: set<Id>): (r: seq<Id>)
    requires ids <= key.Keys
    ensures multiset(r) == multiset(ids)
    ensures KeyedBy(key, r) && Descending(key, r)
    decreases ids
  {
    if ids == {} then []
    else
      var x :| x in ids;
      var rest := OrderedDesc(key, ids - {x});
      assert multiset(ids - {x}) + multiset{x} == multiset(ids);
      InsertDesc(key, x, rest)
  }

  /** Everything a caller needs from `OrderedDesc`: exactly the chosen rows,
      each once, newest (largest key) first. */
  lemma OrderedDescFacts(key: map<Id, int>, ids: set<Id>)
    requires ids <= key.Keys
    ensures var r := OrderedDesc(key, ids);
      Distinct(r) && |r| == |ids| && (forall x :: x in r <==> x in ids)
      && KeyedBy(key, r) && Descending(key, r)
  {
    var r := OrderedDesc(key, ids);
    DistinctOfMultiset(r, ids);
    assert |r| == |multiset(r)| == |multiset(ids)| == |ids|;
  }

  // ---------------------------------------------------------------------------
  // Strings by character (code point), ascending (`sort()`, `orderBy: { city: "asc" }`)

  predicate LexLess(a: string, b: string)
    decreases |a|
  {
    |b| > 0 && (|a| == 0 || a[0] < b[0] || (a[0] == b[0] && LexLess(a[1..], b[1..])))
  }

  lemma {:induction false} LexIrreflexive(a: string)
    ensures !LexLess(a, a)
    decreases |a|
  {
    if |a| > 0 { LexIrreflexive(a[1..]); }
  }

  lemma {:induction false} LexTotal(a: string, b: string)
    ensures a == b || LexLess(a, b) || LexLess(b, a)
    decreases |a|
  {
    if |a| > 0 && |b| > 0 && a[0] == b[0] {
      LexTotal(a[1..], b[1..]);
      if a[1..] == b[1..] {
        assert a == [a[0]] + a[1..] && b == [b[0]] + b[1..];
      }
    }
  }

  lemma {:induction false} LexTransitive(a: string, b: string, c: string)
    requires LexLess(a, b) && LexLess(b, c)
    ensures LexLess(a, c)
    decreases |a|
  {
    if |a| > 0 && a[0] == b[0] && b[0] == c[0] {
      LexTransitive(a[1..], b[1..], c[1..]);
    }
  }

  lemma {:induction false} LexAsymmetric(a: string, b: string)
    requires LexLess(a, b)
    ensures !LexLess(b, a)
  {
    if LexLess(b, a) {
      LexTransitive(a, b, a);
      LexIrreflexive(a);
    }
  }

  predicate StrictlyAscending(s: seq<string>)
  {
    forall i, j :: 0 <= i < j < |s| ==> LexLess(s[i], s[j])
  }

  lemma AscendingIsDistinct(s: seq<string>)
    requires StrictlyAscending(s)
    ensures Distinct(s)
  {
    forall i, j | 0 <= i < j < |s| ensures s[i] != s[j] {
      LexIrreflexive(s[i]);
    }
  }

  function InsertAsc(x: string, s: seq<string>): (r: seq<string>)
    requires StrictlyAscending(s) && x !in s
    ensures multiset(r) == multiset(s) + multiset{x}
    ensures StrictlyAscending(r)
  {
    if s == [] then [x]
    else if LexLess(x, s[0]) then
      var r := [x] + s;
      forall j | 0 < j < |r| ensures LexLess(x, r[j]) {
        if j > 1 { LexTransitive(x, s[0], s[j - 1]); }
      }
      r
    else
      LexTotal(x, s[0]);
      var rest := InsertAsc(x, s[1..]);
      assert s == [s[0]] + s[1..];
      forall j | 0 <= j < |rest| ensures LexLess(s[0], rest[j]) {
        assert rest[j] in multiset(rest);
        if rest[j] != x {
          assert rest[j] in multiset(s[1..]);
          var k :| 0 <= k < |s[1..]| && s[1..][k] == rest[j];
          assert s[k + 1] == rest[j];
        }
      }
      var r := [s[0]] + rest;
      assert forall j :: 0 < j < |r| ==> r[j] == rest[j - 1];
      r
  }

  /** `[...values].sort()` on values that are already pairwise different. */
  function SortAsc(s: seq<string>): (r: seq<string>)
    requires Distinct(s)
    ensures multiset(r) == multiset(s)
    ensures StrictlyAscending(r)
  {
    if s == [] then []
    else
      var rest := SortAsc(s[..|s| - 1]);
      assert s == s[..|s| - 1] + [s[|s| - 1]];
      assert s[|s| - 1] !in multiset(s[..|s| - 1]);
      InsertAsc(s[|s| - 1], rest)
  }

  /** A set of strings in ascending order: what `distinct` plus `orderBy asc` returns. */
  ghost function AscendingOf(xs: set<string>): (r: seq<string>)
    ensures multiset(r) == multiset(xs)
    ensures StrictlyAscending(r)
    decreases xs
  {
    if xs == {} then []
    else
      var x :| x in xs;
      var rest := AscendingOf(xs - {x});
      assert multiset(xs - {x}) + multiset{x} == multiset(xs);
      assert x !in multiset(rest);
      InsertAsc(x, rest)
  }
}
