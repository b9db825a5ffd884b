// Finite sums over sequences, permutations of index ranges, and sums
// restricted to the members of one group.  These are the arithmetic
// vocabulary in which the stem statistics are specified.
module Sums {

  /** Sum of all elements of `y`. */
  function Sum(y: seq<int>): int
  {
    if |y| == 0 then 0 else Sum(y[..|y| - 1]) + y[|y| - 1]
  }

  /** Every element of `p` is a valid index into a sequence of length `n`. */
  ghost predicate InRange(p: seq<int>, n: int)
  {
    forall i :: 0 <= i < |p| ==> 0 <= p[i] < n
  }

  /** `p` lists every index `0 .. n-1` exactly once. */
  ghost predicate IsPermutation(p: seq<int>, n: int)
  {
    && |p| == n
    && InRange(p, n)
    && (forall i, j :: 0 <= i < j < |p| ==> DistinctAt(p, i, j))
    && (forall w :: 0 <= w < n ==> w in p)
  }

  /** Positions `i` and `j` of `p` hold different indices. */
  ghost predicate DistinctAt(p: seq<int>, i: int, j: int)
    requires 0 <= i < |p| && 0 <= j < |p|
  {
    p[i] != p[j]
  }

  /** The position at which a permutation lists `w`. */
  lemma {:induction false} PositionOf(p: seq<int>, n: int, w: int) returns (j: int)
    requires IsPermutation(p, n) && 0 <= w < n
    ensures 0 <= j < |p| && p[j] == w
  {
    assert w in p;
    j :| 0 <= j < |p| && p[j] == w;
  }

  /** A permutation lists each index at one position only. */
  lemma {:induction false} PermutationInjective(p: seq<int>, n: int, i: int, j: int)
    requires IsPermutation(p, n) && 0 <= i < |p| && 0 <= j < |p|
    ensures p[i] == p[j] <==> i == j
  {
    if i < j {
      assert DistinctAt(p, i, j);
    } else if j < i {
      assert DistinctAt(p, j, i);
    }
  }

  /** The sequence `y` read through the index sequence `p`. */
  function Permuted<T>(y: seq<T>, p: seq<int>): (r: seq<T>)
    requires InRange(p, |y|)
    ensures |r| == |p|
    ensures forall i :: 0 <= i < |p| ==> r[i] == y[p[i]]
  {
    seq(|p|, i requires 0 <= i < |p| => y[p[i]])
  }

  /** Keeps `x[j]` where `ids[j] == s` and replaces every other element by 0. */
  function Mask(x: seq<int>, ids: seq<int>, s: int): (r: seq<int>)
    requires |ids| == |x|
    ensures |r| == |x|
    ensures forall j :: 0 <= j < |x| ==> r[j] == if ids[j] == s then x[j] else 0
  {
    seq(|x|, j requires 0 <= j < |x| => if ids[j] == s then x[j] else 0)
  }

  /** Sum of `x[j]` over the positions `j < k` whose group id `ids[j]` is `s`. */
  function GroupSumTo(x: seq<int>, ids: seq<int>, s: int, k: nat): int
    requires k <= |x| && k <= |ids|
  {
    if k == 0 then 0
    else GroupSumTo(x, ids, s, k - 1) + (if ids[k - 1] == s then x[k - 1] else 0)
  }

  /** Sum of `x[j]` over all positions `j` that belong to group `s`. */
  function GroupSum(x: seq<int>, ids: seq<int>, s: int): int
    requires |ids| == |x|
  {
    GroupSumTo(x, ids, s, |x|)
  }

  /** The group sums of the groups `0 .. m-1`, as a sequence indexed by group. */
  function GroupSums(x: seq<int>, ids: seq<int>, m: nat): (r: seq<int>)
    requires |ids| == |x|
    ensures |r| == m
    ensures forall s :: 0 <= s < m ==> r[s] == GroupSum(x, ids, s)
  {
    seq(m, s requires 0 <= s < m => GroupSum(x, ids, s))
  }

  lemma {:induction false} SumConcat(a: seq<int>, b: seq<int>)
    ensures Sum(a + b) == Sum(a) + Sum(b)
  {
    if |b| == 0 {
      assert a + b == a;
    } else {
      var b' := b[..|b| - 1];
      assert (a + b)[..|a + b| - 1] == a + b';
      SumConcat(a, b');
    }
  }

  /**
   * Removing the position `k` that holds the largest index `n-1` from a
   * permutation of `0 .. n-1` leaves a permutation of `0 .. n-2`.
   */
  lemma {:induction false} RemoveLargest(p: seq<int>, n: int, k: int)
    requires IsPermutation(p, n) && 0 <= k < n && p[k] == n - 1
    ensures IsPermutation(p[..k] + p[k + 1..], n - 1)
  {
    var p' := p[..k] + p[k + 1..];
    assert forall i :: 0 <= i < n - 1 ==> p'[i] == p[if i < k then i else i + 1];
    forall i | 0 <= i < n - 1
      ensures 0 <= p'[i] < n - 1
    {
      var i0 := if i < k then i else i + 1;
      PermutationInjective(p, n, i0, k);
      assert p'[i] == p[i0];
    }
    forall w | 0 <= w < n - 1
      ensures w in p'
    {
      assert w in p;
      var i0 :| 0 <= i0 < n && p[i0] == w;
      var i := if i0 < k then i0 else i0 - 1;
      assert p'[i] == w;
    }
    forall i, j | 0 <= i < j < n - 1
      ensures DistinctAt(p', i, j)
    {
      var i0 := if i < k then i else i + 1;
      var j0 := if j < k then j else j + 1;
      assert p'[i] == p[i0] && p'[j] == p[j0] && DistinctAt(p, i0, j0);
    }
  }

  lemma {:induction false} PermutedConcat(y: seq<int>, a: seq<int>, b: seq<int>)
    requires InRange(a, |y|) && InRange(b, |y|)
    ensures InRange(a + b, |y|)
    ensures Permuted(y, a + b) == Permuted(y, a) + Permuted(y, b)
  {
    assert InRange(a + b, |y|) by {
      forall i | 0 <= i < |a + b| ensures 0 <= (a + b)[i] < |y| {
        if i < |a| { assert (a + b)[i] == a[i]; } else { assert (a + b)[i] == b[i - |a|]; }
      }
    }
  }

  /** Reading the last element of `y` in the middle of an index sequence. */
  lemma {:induction false} SumPermutedSplit(y: seq<int>, a: seq<int>, b: seq<int>)
    requires |y| > 0 && InRange(a, |y| - 1) && InRange(b, |y| - 1)
    ensures InRange(a + [|y| - 1] + b, |y|) && InRange(a + b, |y| - 1)
    ensures Sum(Permuted(y, a + [|y| - 1] + b)) == Sum(Permuted(y[..|y| - 1], a + b)) + y[|y| - 1]
  {
    var n := |y|;
    var y' := y[..n - 1];
    PermutedConcat(y, a, [n - 1]);
    PermutedConcat(y, a + [n - 1], b);
    PermutedConcat(y', a, b);
    var left, right := Permuted(y, a), Permuted(y, b);
    var v := y[n - 1];
    assert Permuted(y', a + b) == left + right;
    assert Permuted(y, a + [n - 1] + b) == left + [v] + right;
    SumConcat(left + [v], right);
    SumConcat(left, [v]);
    assert [v][..0] == [];
    SumConcat(left, right);
  }

  /** Summing a sequence read through a permutation gives the same total. */
  lemma {:induction false} SumPermuted(y: seq<int>, p: seq<int>)
    requires IsPermutation(p, |y|)
    ensures Sum(Permuted(y, p)) == Sum(y)
  {
    var n := |y|;
    if n == 0 {
      assert Permuted(y, p) == [];
    } else {
      var k := PositionOf(p, n, n - 1);
      var a, b := p[..k], p[k + 1..];
      RemoveLargest(p, n, k);
      assert InRange(a, n - 1) by {
        forall i | 0 <= i < |a| ensures 0 <= a[i] < n - 1 { assert a[i] == (a + b)[i]; }
      }
      assert InRange(b, n - 1) by {
        forall i | 0 <= i < |b| ensures 0 <= b[i] < n - 1 { assert b[i] == (a + b)[|a| + i]; }
      }
      SumPermuted(y[..n - 1], a + b);
      assert p == a + [n - 1] + b;
      SumPermutedSplit(y, a, b);
    }
  }

  lemma {:induction false} GroupSumToIsMaskedSum(x: seq<int>, ids: seq<int>, s: int, k: nat)
    requires |ids| == |x| && k <= |x|
    ensures GroupSumTo(x, ids, s, k) == Sum(Mask(x, ids, s)[..k])
  {
    if k > 0 {
      GroupSumToIsMaskedSum(x, ids, s, k - 1);
      assert Mask(x, ids, s)[..k][..k - 1] == Mask(x, ids, s)[..k - 1];
    }
  }

  /** Group sums do not depend on the order in which the elements are visited. */
  lemma {:induction false} GroupSumPermuted(x: seq<int>, ids: seq<int>, s: int, p: seq<int>)
    requires |ids| == |x| && IsPermutation(p, |x|)
    ensures GroupSum(Permuted(x, p), Permuted(ids, p), s) == GroupSum(x, ids, s)
  {
    var px, pids := Permuted(x, p), Permuted(ids, p);
    assert Mask(px, pids, s) == Permuted(Mask(x, ids, s), p);
    GroupSumToIsMaskedSum(px, pids, s, |px|);
    GroupSumToIsMaskedSum(x, ids, s, |x|);
    assert Mask(px, pids, s)[..|px|] == Mask(px, pids, s);
    assert Mask(x, ids, s)[..|x|] == Mask(x, ids, s);
    SumPermuted(Mask(x, ids, s), p);
  }

  /** A group sum only looks at the first `k` elements. */
  lemma {:induction false} GroupSumToPrefix(x: seq<int>, ids: seq<int>, x': seq<int>, ids': seq<int>, s: int, k: nat)
    requires k <= |x| && k <= |ids| && k <= |x'| && k <= |ids'|
    requires x[..k] == x'[..k] && ids[..k] == ids'[..k]
    ensures GroupSumTo(x, ids, s, k) == GroupSumTo(x', ids', s, k)
  {
    if k > 0 {
      assert x[..k - 1] == x'[..k - 1] && ids[..k - 1] == ids'[..k - 1];
      assert x[k - 1] == x[..k][k - 1] && ids[k - 1] == ids[..k][k - 1];
      assert x'[k - 1] == x'[..k][k - 1] && ids'[k - 1] == ids'[..k][k - 1];
      GroupSumToPrefix(x, ids, x', ids', s, k - 1);
    }
  }

  /** Sum of the element-wise sum of two sequences of the same length. */
  lemma {:induction false} SumPointwise(a: seq<int>, b: seq<int>, c: seq<int>)
    requires |a| == |b| == |c|
    requires forall i :: 0 <= i < |c| ==> c[i] == a[i] + b[i]
    ensures Sum(c) == Sum(a) + Sum(b)
  {
    if |c| > 0 {
      var n := |c| - 1;
      SumPointwise(a[..n], b[..n], c[..n]);
    }
  }

  /** A sequence that is zero everywhere except at `t` sums to its value at `t`. */
  lemma {:induction false} SumOneHot(y: seq<int>, t: int)
    requires 0 <= t < |y|
    requires forall i :: 0 <= i < |y| && i != t ==> y[i] == 0
    ensures Sum(y) == y[t]
  {
    var n := |y| - 1;
    if t == n {
      SumZero(y[..n]);
    } else {
      SumOneHot(y[..n], t);
    }
  }

  lemma {:induction false} SumZero(y: seq<int>)
    requires forall i :: 0 <= i < |y| ==> y[i] == 0
    ensures Sum(y) == 0
  {
    if |y| > 0 {
      SumZero(y[..|y| - 1]);
    }
  }

  /**
   * When every element belongs to one of the groups `0 .. m-1`, the group sums
   * add up to the sum of all elements: nothing is counted twice or lost.
   */
  lemma {:induction false} SumOfGroupSums(x: seq<int>, ids: seq<int>, m: nat)
    requires |ids| == |x|
    requires forall w :: 0 <= w < |ids| ==> 0 <= ids[w] < m
    ensures Sum(GroupSums(x, ids, m)) == Sum(x)
  {
    if |x| == 0 {
      SumZero(GroupSums(x, ids, m));
    } else {
      var n := |x| - 1;
      var x', ids' := x[..n], ids[..n];
      SumOfGroupSums(x', ids', m);
      var oneHot := seq(m, s requires 0 <= s < m => if ids[n] == s then x[n] else 0);
      forall s | 0 <= s < m
        ensures GroupSums(x, ids, m)[s] == GroupSums(x', ids', m)[s] + oneHot[s]
      {
        GroupSumToPrefix(x, ids, x', ids', s, n);
      }
      SumPointwise(GroupSums(x', ids', m), oneHot, GroupSums(x, ids, m));
      SumOneHot(oneHot, ids[n]);
    }
  }

  /** With non-negative elements, a group sum is at least each member's element. */
  lemma {:induction false} GroupSumToCoversMember(x: seq<int>, ids: seq<int>, w: nat, k: nat)
    requires k <= |x| && k <= |ids|
    requires forall j :: 0 <= j < |x| ==> x[j] >= 0
    requires w < |x| && w < |ids|
    ensures GroupSumTo(x, ids, ids[w], k) >= (if w < k then x[w] else 0)
  {
    if k > 0 {
      GroupSumToCoversMember(x, ids, w, k - 1);
    }
  }

  /** A group that no position below `k` belongs to sums to zero. */
  lemma {:induction false} GroupSumToNone(x: seq<int>, ids: seq<int>, s: int, k: nat)
    requires k <= |x| && k <= |ids|
    requires forall j :: 0 <= j < k ==> ids[j] != s
    ensures GroupSumTo(x, ids, s, k) == 0
  {
    if k > 0 {
      GroupSumToNone(x, ids, s, k - 1);
    }
  }
}
