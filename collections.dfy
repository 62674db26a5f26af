/**
 * List comprehensions, counting and ordering over sequences, as the loader
 * and the RAG statistics use them.
 */
module Collections {
  import opened Text

  /** `b` keeps the elements of `a` in order, possibly with others between them. */
  ghost predicate IsSubsequence<T>(a: seq<T>, b: seq<T>)
    decreases |b|
  {
    if a == [] then true
    else if b == [] then false
    else (a[0] == b[0] && IsSubsequence(a[1..], b[1..])) || IsSubsequence(a, b[1..])
  }

  /** `[]` and `[x]` are the subsequences of `[x]`. */
  lemma SubsequenceOfOne<T>(x: T, a: seq<T>)
    requires a == [] || a == [x]
    ensures IsSubsequence(a, [x])
  {
    if a == [x] {
      assert [x][1..] == [] && a[1..] == [];
    }
  }

  /** Subsequences of two parts concatenate to a subsequence of the whole. */
  lemma {:induction false} SubsequenceConcat<T>(a1: seq<T>, b1: seq<T>, a2: seq<T>, b2: seq<T>)
    requires IsSubsequence(a1, b1) && IsSubsequence(a2, b2)
    ensures IsSubsequence(a1 + a2, b1 + b2)
    decreases |b1|
  {
    if b1 == [] {
      assert a1 == [] && a1 + a2 == a2 && b1 + b2 == b2;
    } else if a1 == [] {
      if a2 != [] {
        SubsequenceConcat(a1, b1[1..], a2, b2);
        assert a1 + a2 == a2 && (b1 + b2)[1..] == b1[1..] + b2;
        assert a1 + a2 == a1 + a2 && b1[1..] + b2 == (b1 + b2)[1..];
        assert [] + a2 == a2;
      }
    } else if a1[0] == b1[0] && IsSubsequence(a1[1..], b1[1..]) {
      SubsequenceConcat(a1[1..], b1[1..], a2, b2);
      assert (a1 + a2)[1..] == a1[1..] + a2 && (b1 + b2)[1..] == b1[1..] + b2;
    } else {
      SubsequenceConcat(a1, b1[1..], a2, b2);
      assert (b1 + b2)[1..] == b1[1..] + b2;
    }
  }

  /** `[x for x in s if p(x)]`. */
  function Filter<T>(s: seq<T>, p: T -> bool): (r: seq<T>)
    ensures |r| <= |s|
    ensures forall x :: x in r ==> x in s && p(x)
    ensures forall i :: 0 <= i < |s| && p(s[i]) ==> s[i] in r
    ensures IsSubsequence(r, s)
  {
    if s == [] then []
    else
      var rest := Filter(s[1..], p);
      assert forall i :: 1 <= i < |s| ==> s[i] == s[1..][i - 1];
      assert s == [s[0]] + s[1..];
      if p(s[0]) then [s[0]] + rest else rest
  }

  /** A comprehension keeps each passing element as many times as it occurs, and no failing one. */
  lemma {:induction false} FilterMultiset<T>(s: seq<T>, p: T -> bool)
    ensures forall x :: x in s ==> multiset(Filter(s, p))[x] == if p(x) then multiset(s)[x] else 0
  {
    if s != [] {
      FilterMultiset(s[1..], p);
      assert s == [s[0]] + s[1..];
      assert multiset(s) == multiset([s[0]]) + multiset(s[1..]);
    }
  }

  /** Filtering distributes over concatenation: a comprehension runs element by element. */
  lemma {:induction false} FilterAppend<T>(a: seq<T>, b: seq<T>, p: T -> bool)
    ensures Filter(a + b, p) == Filter(a, p) + Filter(b, p)
  {
    if a != [] {
      var ab := a + b;
      assert ab[0] == a[0] && ab[1..] == a[1..] + b;
      FilterAppend(a[1..], b, p);
      if p(a[0]) {
        assert Filter(ab, p) == [a[0]] + Filter(a[1..], p) + Filter(b, p);
      } else {
        assert Filter(ab, p) == Filter(a[1..], p) + Filter(b, p);
      }
    } else {
      assert a + b == b;
    }
  }

  /** Counting what passes, from the last element back: it adds one when the last element passes. */
  lemma FilterCountLast<T>(s: seq<T>, p: T -> bool)
    requires s != []
    ensures |Filter(s, p)| == |Filter(s[..|s| - 1], p)| + (if p(s[|s| - 1]) then 1 else 0)
  {
    var init, last := s[..|s| - 1], s[|s| - 1];
    assert s == init + [last];
    FilterAppend(init, [last], p);
    assert [last][1..] == [];
  }

  /** A stronger test keeps fewer elements: what it keeps is a subsequence of what the weaker one keeps. */
  lemma {:induction false} FilterStronger<T>(s: seq<T>, p: T -> bool, q: T -> bool)
    requires forall x :: p(x) ==> q(x)
    ensures IsSubsequence(Filter(s, p), Filter(s, q))
  {
    if s != [] {
      FilterStronger(s[1..], p, q);
    }
  }

  /** A sequence of strings in strictly increasing order (so without repetitions). */
  predicate StrictlySorted(s: seq<string>) {
    forall i, j :: 0 <= i < j < |s| ==> LexLess(s[i], s[j])
  }

  /** Insertion of a new key into a strictly sorted sequence. */
  function Insert(s: seq<string>, k: string): (r: seq<string>)
    requires StrictlySorted(s) && k !in s
    ensures StrictlySorted(r) && |r| == |s| + 1
    ensures forall x :: x in r <==> x in s || x == k
  {
    if s == [] then [k]
    else if LexLess(k, s[0]) then
      assert forall j :: 0 <= j < |s| ==> LexLess(k, s[j]) by {
        forall j | 0 <= j < |s| ensures LexLess(k, s[j]) {
          if j > 0 { LexLessTransitive(k, s[0], s[j]); }
        }
      }
      [k] + s
    else
      LexLessTotal(k, s[0]);
      var rest := Insert(s[1..], k);
      assert forall x :: x in rest ==> LexLess(s[0], x);
      [s[0]] + rest
  }

  /** The sum of the values of a map, in any order of its keys. */
  ghost function SumValues(m: map<string, nat>): int
    decreases |m|
  {
    if m == map[] then 0
    else
      var k :| k in m;
      assert |(m - {k}).Keys| == |m.Keys - {k}| == |m| - 1;
      m[k] + SumValues(m - {k})
  }

  lemma {:induction false} SumValuesRemove(m: map<string, nat>, k: string)
    requires k in m
    ensures SumValues(m) == m[k] + SumValues(m - {k})
    decreases |m|
  {
    var j :| j in m && SumValues(m) == m[j] + SumValues(m - {j});
    if j != k {
      assert |(m - {j}).Keys| == |m.Keys - {j}| == |m| - 1;
      assert |(m - {k}).Keys| == |m.Keys - {k}| == |m| - 1;
      SumValuesRemove(m - {j}, k);
      SumValuesRemove(m - {k}, j);
      assert m - {j} - {k} == m - {k} - {j};
    }
  }

  /** Setting one entry changes the sum by the difference of the old and new value. */
  lemma SumValuesUpdate(m: map<string, nat>, k: string, v: nat)
    ensures SumValues(m[k := v]) == SumValues(m) - (if k in m then m[k] else 0) + v
  {
    var m' := m[k := v];
    SumValuesRemove(m', k);
    if k in m {
      SumValuesRemove(m, k);
      assert m' - {k} == m - {k};
    } else {
      assert m' - {k} == m;
    }
  }

  /** `sorted(keys)`: the keys in increasing order, each once. */
  method SortedKeys(keys: set<string>) returns (r: seq<string>)
    ensures StrictlySorted(r)
    ensures forall x :: x in r <==> x in keys
    ensures |r| == |keys|
  {
    r := [];
    var rest := keys;
    while rest != {}
      invariant rest <= keys
      invariant StrictlySorted(r)
      invariant forall x :: x in r <==> x in keys && x !in rest
      invariant |r| + |rest| == |keys|
      decreases |rest|
    {
      var k :| k in rest;
      r := Insert(r, k);
      rest := rest - {k};
    }
  }
}
