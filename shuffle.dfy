/**
 * Random reorderings. The source shuffles with `sort(() => Math.random() - 0.5)`;
 * whatever order that produces is some permutation of the positions, so the model
 * receives the permutation as a parameter (`perm[i]` is the old position of the
 * element that ends up at position i) and proves that the result holds the same
 * elements.
 */
module Shuffle {

  /** The positions 0, 1, ..., n - 1 in order. */
  function Range(n: nat): (r: seq<nat>)
    ensures |r| == n
    ensures forall i :: 0 <= i < n ==> r[i] == i
  {
    seq(n, i => i)
  }

  /** `perm` lists every position below n exactly once. */
  ghost predicate IsPermutation(perm: seq<nat>, n: nat) {
    multiset(perm) == multiset(Range(n))
  }

  /** No element occurs twice. */
  predicate Distinct<T(==)>(s: seq<T>) {
    forall i, j :: 0 <= i < j < |s| ==> s[i] != s[j]
  }

  lemma {:induction false} RangeCount(n: nat, x: nat)
    ensures multiset(Range(n))[x] == if x < n then 1 else 0
  {
    if n > 0 {
      assert Range(n) == Range(n - 1) + [n - 1];
      RangeCount(n - 1, x);
    }
  }

  /** A permutation of n positions has n entries, each below n. */
  lemma PermutationBounds(perm: seq<nat>, n: nat)
    requires IsPermutation(perm, n)
    ensures |perm| == n
    ensures forall i :: 0 <= i < |perm| ==> perm[i] < n
  {
    calc {
      |perm|;
      |multiset(perm)|;
      |multiset(Range(n))|;
      n;
    }
    forall i | 0 <= i < |perm|
      ensures perm[i] < n
    {
      assert perm[i] in multiset(perm);
      RangeCount(n, perm[i]);
    }
  }

  /** `s` reordered by `perm`: the element at position i is `s[perm[i]]`. */
  function Permute<T>(s: seq<T>, perm: seq<nat>): (r: seq<T>)
    requires IsPermutation(perm, |s|)
    ensures |perm| == |r| == |s|
    ensures forall i :: 0 <= i < |r| ==> perm[i] < |s| && r[i] == s[perm[i]]
  {
    PermutationBounds(perm, |s|);
    seq(|perm|, i requires 0 <= i < |perm| => s[perm[i]])
  }

  /** Taking the last position out of a permutation leaves a permutation of the others. */
  lemma DropLast(perm: seq<nat>, n: nat, j: nat)
    requires IsPermutation(perm, n + 1)
    requires j < |perm| && perm[j] == n
    ensures IsPermutation(perm[..j] + perm[j + 1..], n)
  {
    var rest := perm[..j] + perm[j + 1..];
    assert perm == perm[..j] + [n] + perm[j + 1..];
    assert Range(n + 1) == Range(n) + [n];
    forall x
      ensures multiset(rest)[x] == multiset(Range(n))[x]
    {
      assert multiset(perm)[x] == multiset(rest)[x] + multiset([n])[x];
      assert multiset(Range(n + 1))[x] == multiset(Range(n))[x] + multiset([n])[x];
    }
    assert multiset(rest) == multiset(Range(n));
  }

  /** Where the last element goes, the rest of a permutation reorders the others. */
  lemma PermuteSplit<T>(s: seq<T>, perm: seq<nat>, j: nat)
    requires IsPermutation(perm, |s|) && |s| > 0
    requires j < |perm| && perm[j] == |s| - 1
    ensures IsPermutation(perm[..j] + perm[j + 1..], |s| - 1)
    ensures multiset(Permute(s, perm))
      == multiset(Permute(s[..|s| - 1], perm[..j] + perm[j + 1..])) + multiset([s[|s| - 1]])
  {
    var n: nat := |s| - 1;
    var rest := perm[..j] + perm[j + 1..];
    DropLast(perm, n, j);
    PermutationBounds(rest, n);
    var front := Permute(s[..n], rest);
    assert Permute(s, perm) == front[..j] + [s[n]] + front[j..];
    assert front == front[..j] + front[j..];
  }

  /** Reordering by a permutation loses no element and adds none. */
  lemma {:induction false} PermutePreservesMultiset<T>(s: seq<T>, perm: seq<nat>)
    requires IsPermutation(perm, |s|)
    ensures multiset(Permute(s, perm)) == multiset(s)
  {
    PermutationBounds(perm, |s|);
    if |s| > 0 {
      var n: nat := |s| - 1;
      RangeCount(n + 1, n);
      assert n in multiset(perm);
      var j :| 0 <= j < |perm| && perm[j] == n;
      PermuteSplit(s, perm, j);
      PermutePreservesMultiset(s[..n], perm[..j] + perm[j + 1..]);
      assert s == s[..n] + [s[n]];
    }
  }

  /** A distinct sequence holds each value at most once. */
  lemma {:induction false} DistinctCounts<T>(s: seq<T>)
    requires Distinct(s)
    ensures forall x :: multiset(s)[x] <= 1
  {
    if s != [] {
      var t := s[1..];
      assert s == [s[0]] + t;
      DistinctCounts(t);
      assert s[0] !in t;
    }
  }

  /** Two equal entries make a value occur at least twice. */
  lemma TwiceCounted<T>(s: seq<T>, i: nat, j: nat)
    requires i < j < |s|
    ensures s[i] == s[j] ==> multiset(s)[s[j]] >= 2
  {
    assert s == s[..j] + [s[j]] + s[j + 1..];
    assert s[i] in s[..j];
  }

  /** A sequence that holds each value at most once is distinct. */
  lemma CountsDistinct<T>(s: seq<T>)
    requires forall x :: multiset(s)[x] <= 1
    ensures Distinct(s)
  {
    forall i, j | 0 <= i < j < |s|
      ensures s[i] != s[j]
    {
      TwiceCounted(s, i, j);
    }
  }

  /** Two sequences with the same elements are both distinct or both not. */
  lemma DistinctPreserved<T>(a: seq<T>, b: seq<T>)
    requires multiset(a) == multiset(b)
    requires Distinct(a)
    ensures Distinct(b)
  {
    DistinctCounts(a);
    CountsDistinct(b);
  }

  /** Pigeonhole: a distinct sequence of naturals below m has at most m entries. */
  lemma {:induction false} DistinctBound(s: seq<nat>, m: nat)
    requires Distinct(s)
    requires forall i :: 0 <= i < |s| ==> s[i] < m
    ensures |s| <= m
    decreases |s|
  {
    if s != [] {
      var x := s[|s| - 1];
      var top: nat := m - 1;
      var t := s[..|s| - 1];
      // Rename the value m - 1 to x, which t does not use, so every entry falls below m - 1.
      var t' := seq(|t|, i requires 0 <= i < |t| => if t[i] == top then x else t[i]);
      assert forall i :: 0 <= i < |t| ==> t[i] != x;
      DistinctBound(t', top);
    }
  }

  /** Pigeonhole: a distinct sequence of n naturals below n lists every one of them. */
  lemma DistinctCovers(s: seq<nat>, n: nat)
    requires Distinct(s) && |s| == n
    requires forall i :: 0 <= i < |s| ==> s[i] < n
    ensures forall k :: 0 <= k < n ==> k in s
  {
    forall k | 0 <= k < n
      ensures k in s
    {
      if k !in s {
        var t := seq(|s|, i requires 0 <= i < |s| => if s[i] == n - 1 then k else s[i]);
        assert Distinct(t);
        DistinctBound(t, n - 1);
      }
    }
  }
}
