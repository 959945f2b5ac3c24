/**
 * The ordering `OrderBy(r => r.AlgorithmName)` imposes on algorithm results: an ordinal comparison of
 * strings, and a stable sort expressed as a permutation of positions so that the same reordering can be
 * applied to a list of objects and to the list of their values.
 */
module Ordering {

  /** `a` sorts no later than `b` when strings are compared code unit by code unit. */
  predicate LexLe(a: string, b: string)
    decreases |a|
  {
    |a| == 0 || (|b| > 0 && (a[0] < b[0] || (a[0] == b[0] && LexLe(a[1..], b[1..]))))
  }

  lemma {:induction false} LexLeTotal(a: string, b: string)
    ensures LexLe(a, b) || LexLe(b, a)
    decreases |a|
  {
    if |a| > 0 && |b| > 0 && a[0] == b[0] {
      LexLeTotal(a[1..], b[1..]);
    }
  }

  lemma {:induction false} LexLeTransitive(a: string, b: string, c: string)
    requires LexLe(a, b) && LexLe(b, c)
    ensures LexLe(a, c)
    decreases |a|
  {
    if |a| > 0 && a[0] == b[0] && b[0] == c[0] {
      LexLeTransitive(a[1..], b[1..], c[1..]);
    }
  }

  /** The positions 0, 1, ..., n - 1. */
  function Range(n: nat): (r: seq<nat>)
    ensures |r| == n && forall i :: 0 <= i < n ==> r[i] == i
  {
    seq(n, i requires 0 <= i < n => i)
  }

  ghost predicate InBounds(p: seq<nat>, n: nat) {
    forall k :: 0 <= k < |p| ==> p[k] < n
  }

  /** Taking the positions of `p` in turn visits `keys` in ascending order. */
  predicate SortedBy(keys: seq<string>, p: seq<nat>)
    requires InBounds(p, |keys|)
  {
    forall k :: 0 <= k < |p| - 1 ==> LexLe(keys[p[k]], keys[p[k + 1]])
  }

  /** Two positions with equal keys keep their original relative order. */
  ghost predicate StableBy(keys: seq<string>, p: seq<nat>)
    requires InBounds(p, |keys|)
  {
    forall k, l :: 0 <= k < l < |p| && keys[p[k]] == keys[p[l]] ==> p[k] < p[l]
  }

  lemma {:induction false} LexLeReflexive(a: string)
    ensures LexLe(a, a)
    decreases |a|
  {
    if |a| > 0 {
      LexLeReflexive(a[1..]);
    }
  }

  /**
   * Inserts position `i` after the last position of `p` whose key is not larger than the key of `i`
   * (at the front when there is none).
   */
  function Insert(keys: seq<string>, i: nat, p: seq<nat>): (r: seq<nat>)
    requires i < |keys| && InBounds(p, |keys|)
    ensures |r| == |p| + 1 && InBounds(r, |keys|)
    ensures multiset(r) == multiset(p) + multiset{i}
    decreases |p|
  {
    if p == [] then
      [i]
    else if LexLe(keys[p[|p| - 1]], keys[i]) then
      p + [i]
    else
      assert p == p[..|p| - 1] + [p[|p| - 1]];
      Insert(keys, i, p[..|p| - 1]) + [p[|p| - 1]]
  }

  lemma {:induction false} InsertSorted(keys: seq<string>, i: nat, p: seq<nat>)
    requires i < |keys| && InBounds(p, |keys|) && SortedBy(keys, p)
    ensures SortedBy(keys, Insert(keys, i, p))
    decreases |p|
  {
    if p != [] && !LexLe(keys[p[|p| - 1]], keys[i]) {
      var last := p[|p| - 1];
      var front := p[..|p| - 1];
      var q := Insert(keys, i, front);
      var r := q + [last];
      assert SortedBy(keys, front);
      InsertSorted(keys, i, front);
      LexLeTotal(keys[last], keys[i]);
      if front != [] {
        assert LexLe(keys[front[|front| - 1]], keys[last]);
        assert q[|q| - 1] == i || q[|q| - 1] == front[|front| - 1];
      }
      assert LexLe(keys[q[|q| - 1]], keys[last]);
      assert Insert(keys, i, p) == r;
    }
  }

  lemma {:induction false} InsertStable(keys: seq<string>, i: nat, p: seq<nat>)
    requires i < |keys| && InBounds(p, |keys|) && InBounds(p, i) && StableBy(keys, p)
    ensures StableBy(keys, Insert(keys, i, p))
    decreases |p|
  {
    if p != [] && !LexLe(keys[p[|p| - 1]], keys[i]) {
      var last := p[|p| - 1];
      var front := p[..|p| - 1];
      var q := Insert(keys, i, front);
      var r := q + [last];
      InsertStable(keys, i, front);
      LexLeReflexive(keys[i]);
      forall k | 0 <= k < |q| && keys[r[k]] == keys[last]
        ensures r[k] < last
      {
        assert r[k] in multiset(q);
        if r[k] != i {
          assert r[k] in multiset(front);
          var m :| 0 <= m < |front| && front[m] == r[k];
          assert p[m] == r[k];
        }
      }
      assert Insert(keys, i, p) == r;
    }
  }

  /** The positions below n are those below n - 1, and n - 1. */
  lemma RangeStep(n: nat)
    requires n > 0
    ensures multiset(Range(n)) == multiset(Range(n - 1)) + multiset{(n - 1) as nat}
  {
    assert Range(n) == Range(n - 1) + [n - 1];
  }

  /** The positions 0 .. n - 1 of `keys` in a stable ascending order of their keys. */
  function SortPrefix(keys: seq<string>, n: nat): (p: seq<nat>)
    requires n <= |keys|
    ensures |p| == n && InBounds(p, n) && InBounds(p, |keys|)
    ensures multiset(p) == multiset(Range(n))
    ensures SortedBy(keys, p) && StableBy(keys, p)
    decreases n
  {
    if n == 0 then
      []
    else
      var q := SortPrefix(keys, n - 1);
      RangeStep(n);
      var p := Insert(keys, n - 1, q);
      InsertSorted(keys, n - 1, q);
      InsertStable(keys, n - 1, q);
      assert InBounds(p, n) by {
        forall k | 0 <= k < |p|
          ensures p[k] < n
        {
          assert p[k] in multiset(p);
          assert p[k] in multiset(Range(n));
        }
      }
      p
  }

  /** A stable ascending order of the positions of `keys`: a permutation of 0 .. |keys| - 1. */
  function SortOrder(keys: seq<string>): (p: seq<nat>)
    ensures |p| == |keys| && InBounds(p, |keys|)
    ensures multiset(p) == multiset(Range(|keys|))
    ensures SortedBy(keys, p) && StableBy(keys, p)
  {
    SortPrefix(keys, |keys|)
  }

  /** The elements of `s` at the positions `p`, in the order of `p`. */
  function Reorder<T>(s: seq<T>, p: seq<nat>): (r: seq<T>)
    requires InBounds(p, |s|)
    ensures |r| == |p| && forall k :: 0 <= k < |p| ==> r[k] == s[p[k]]
  {
    seq(|p|, k requires 0 <= k < |p| => s[p[k]])
  }
}
