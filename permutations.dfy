/**
 * Every ordering of a collection's elements, and the largest and smallest
 * of a sequence of values: what the route and seating solvers use
 * `itertools::permutations`, `Iterator::max` and `Iterator::min` for
 * (src/bin/09.rs and src/bin/13.rs).
 */
module Permutations {
  import opened Wrappers

  /** No element occurs twice. */
  predicate Distinct<T(==)>(q: seq<T>) {
    forall i, j :: 0 <= i < j < |q| ==> q[i] != q[j]
  }

  /** The elements a sequence lists. */
  function Elements<T(==)>(p: seq<T>): set<T> {
    set x | x in p
  }

  /** `p` lists each element of `s` once: a seating or a route through `s`. */
  predicate IsArrangement<T(==)>(p: seq<T>, s: set<T>) {
    Distinct(p) && Elements(p) == s
  }

  /** `s` without its element at `i`. */
  function Without<T(==)>(s: seq<T>, i: nat): (r: seq<T>)
    requires i < |s|
    ensures |r| == |s| - 1
    ensures multiset(r) == multiset(s) - multiset{s[i]}
  {
    assert s == s[..i] + [s[i]] + s[i + 1..];
    s[..i] + s[i + 1..]
  }

  function PrependAll<T(==)>(x: T, ps: seq<seq<T>>): (r: seq<seq<T>>)
    ensures |r| == |ps| && forall k :: 0 <= k < |ps| ==> r[k] == [x] + ps[k]
  {
    seq(|ps|, k requires 0 <= k < |ps| => [x] + ps[k])
  }

  /** Every ordering of `s`: each position chosen first in turn, followed by
      every ordering of the rest. */
  function AllPermutations<T(==)>(s: seq<T>): (r: seq<seq<T>>)
    ensures forall p :: p in r ==> multiset(p) == multiset(s)
    decreases |s|, 1, 0
  {
    if s == [] then [[]] else PermutationsFrom(s, 0)
  }

  /** The orderings of `s` that start with the element at position `i` or later. */
  function PermutationsFrom<T(==)>(s: seq<T>, i: nat): (r: seq<seq<T>>)
    requires i <= |s|
    ensures forall p :: p in r ==> multiset(p) == multiset(s)
    decreases |s|, 0, |s| - i
  {
    if i == |s| then []
    else
      var rest := AllPermutations(Without(s, i));
      var first := PrependAll(s[i], rest);
      assert forall p :: p in first ==> multiset(p) == multiset(s) by {
        forall p | p in first
          ensures multiset(p) == multiset(s)
        {
          var k :| 0 <= k < |first| && first[k] == p;
          assert rest[k] in rest;
          assert p == [s[i]] + rest[k];
        }
      }
      first + PermutationsFrom(s, i + 1)
  }

  lemma {:induction false} PermutationsFromIncludes<T>(s: seq<T>, j: nat, i: nat, p: seq<T>)
    requires j <= i < |s| && p in PrependAll(s[i], AllPermutations(Without(s, i)))
    ensures p in PermutationsFrom(s, j)
    decreases i - j
  {
    if j < i {
      PermutationsFromIncludes(s, j + 1, i, p);
    }
  }

  /** Every reordering of `s` is listed. */
  lemma {:induction false} AllPermutationsComplete<T>(s: seq<T>, p: seq<T>)
    requires multiset(p) == multiset(s)
    ensures p in AllPermutations(s)
    decreases |s|
  {
    assert |p| == |multiset(p)| == |s|;
    if s != [] {
      var x := p[0];
      assert x in multiset(s);
      var i :| 0 <= i < |s| && s[i] == x;
      assert p == [x] + p[1..];
      assert multiset(p[1..]) == multiset(Without(s, i));
      AllPermutationsComplete(Without(s, i), p[1..]);
      var rest := AllPermutations(Without(s, i));
      var k :| 0 <= k < |rest| && rest[k] == p[1..];
      assert PrependAll(s[i], rest)[k] == p;
      PermutationsFromIncludes(s, 0, i, p);
    }
  }

  /** In a list without repeats each element is counted at most once. */
  lemma {:induction false} DistinctCounts<T>(q: seq<T>, x: T)
    requires Distinct(q)
    ensures multiset(q)[x] == if x in q then 1 else 0
  {
    if q != [] {
      assert q == [q[0]] + q[1..];
      DistinctCounts(q[1..], x);
      assert q[0] !in q[1..];
    }
  }

  /** The element at `i` is counted twice when it comes back at `j`. */
  lemma RepeatCounts<T>(p: seq<T>, i: nat, j: nat)
    requires i < j < |p|
    ensures multiset(p)[p[i]] >= if p[i] == p[j] then 2 else 1
  {
    assert p == p[..i] + [p[i]] + p[i + 1..j] + [p[j]] + p[j + 1..];
  }

  /** A reordering of an arrangement is an arrangement of the same elements. */
  lemma ListedAreArrangements<T>(q: seq<T>, p: seq<T>)
    requires Distinct(q) && multiset(p) == multiset(q)
    ensures IsArrangement(p, Elements(q))
  {
    forall i, j | 0 <= i < j < |p|
      ensures p[i] != p[j]
    {
      RepeatCounts(p, i, j);
      DistinctCounts(q, p[i]);
    }
    forall x
      ensures x in p <==> x in q
    {
      assert x in p <==> x in multiset(p);
    }
  }

  /** Two arrangements of the same elements are reorderings of each other. */
  lemma ArrangementsAreListed<T>(q: seq<T>, p: seq<T>)
    requires Distinct(q) && IsArrangement(p, Elements(q))
    ensures p in AllPermutations(q)
  {
    forall x
      ensures multiset(p)[x] == multiset(q)[x]
    {
      assert x in Elements(p) <==> x in p;
      assert x in Elements(q) <==> x in q;
      DistinctCounts(p, x);
      DistinctCounts(q, x);
    }
    assert multiset(p) == multiset(q);
    AllPermutationsComplete(q, p);
  }

  /** The elements of a set in the order its iteration happens to take. */
  method Enumerate<T(==)>(s: set<T>) returns (q: seq<T>)
    ensures Distinct(q) && |q| == |s|
    ensures forall x :: x in q <==> x in s
  {
    q := [];
    var rest := s;
    while rest != {}
      invariant rest <= s && |q| + |rest| == |s|
      invariant Distinct(q)
      invariant forall x :: x in q <==> x in s && x !in rest
      decreases |rest|
    {
      var x :| x in rest;
      q := q + [x];
      rest := rest - {x};
    }
  }

  /** `Iterator::max`: the largest value, if there is one. */
  function MaxOf(xs: seq<int>): (r: Option<int>)
    ensures r.None? <==> xs == []
    ensures r.Some? ==> r.value in xs && forall k :: 0 <= k < |xs| ==> xs[k] <= r.value
  {
    if xs == [] then None
    else
      match MaxOf(xs[1..])
      case None => Some(xs[0])
      case Some(m) => Some(if xs[0] >= m then xs[0] else m)
  }

  /** `Iterator::min`: the smallest value, if there is one. */
  function MinOf(xs: seq<int>): (r: Option<int>)
    ensures r.None? <==> xs == []
    ensures r.Some? ==> r.value in xs && forall k :: 0 <= k < |xs| ==> r.value <= xs[k]
  {
    if xs == [] then None
    else
      match MinOf(xs[1..])
      case None => Some(xs[0])
      case Some(m) => Some(if xs[0] <= m then xs[0] else m)
  }
}
