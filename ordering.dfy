// The two collaborators that order stem images: the character-array
// comparator and the indirect sorter.  Both are abstract here and are
// described only by the contracts the stemmer relies on.  The module
// also defines how a sorted order splits into runs of equal stem images,
// which are the stems.
module Ordering {
  import opened Sums

  /** A word or stem image: the characters of a `char[]`. */
  type Image = seq<char>

  /** A three-way comparison, negative, zero or positive like `Comparator.compare`. */
  type Comparator = (Image, Image) -> int

  /** An indirect sort: the order in which to visit the given images. */
  type Sorter = seq<Image> -> seq<int>

  /**
   * The part of the contract of `CharArrayComparators.FAST_CHAR_ARRAY_COMPARATOR`
   * the stemmer relies on: a zero result means equal content, and swapping
   * the arguments flips the sign.
   */
  ghost predicate IsComparator(cmp: Comparator)
  {
    && (forall a, b :: cmp(a, b) == 0 <==> a == b)
    && (forall a, b :: cmp(a, b) < 0 <==> cmp(b, a) > 0)
  }

  /** Visiting `images` in the order `order` meets them in non-decreasing order. */
  ghost predicate SortedBy(images: seq<Image>, order: seq<int>, cmp: Comparator)
  {
    && InRange(order, |images|)
    && forall i, j {:trigger cmp(images[order[i]], images[order[j]])} ::
         0 <= i < j < |order| ==> cmp(images[order[i]], images[order[j]]) <= 0
  }

  /** The image at `s` comes strictly after the one before it. */
  ghost predicate AscendsAt(cmp: Comparator, images: seq<Image>, s: int)
    requires 0 < s < |images|
  {
    cmp(images[s - 1], images[s]) < 0
  }

  /**
   * The contract relied on for `IndirectSorter.sort`: it returns a permutation
   * of the indices whose images are non-decreasing under `cmp`.
   */
  ghost predicate SorterContract(sorter: Sorter, cmp: Comparator)
  {
    forall images {:trigger sorter(images)} :: IsPermutation(sorter(images), |images|) && SortedBy(images, sorter(images), cmp)
  }

  /**
   * The stem that position `j` of the sorted order belongs to: the number of
   * places up to `j` where the image changes from one position to the next.
   */
  ghost function GroupOf(images: seq<Image>, order: seq<int>, j: nat): nat
    requires j < |order| && InRange(order, |images|)
  {
    if j == 0 then 0
    else GroupOf(images, order, j - 1) + (if images[order[j - 1]] == images[order[j]] then 0 else 1)
  }

  /** `GroupOf` for every position of the order. */
  ghost function GroupIds(images: seq<Image>, order: seq<int>): (g: seq<int>)
    requires InRange(order, |images|)
    ensures |g| == |order|
    ensures forall j :: 0 <= j < |order| ==> g[j] == GroupOf(images, order, j)
  {
    seq(|order|, j requires 0 <= j < |order| => GroupOf(images, order, j))
  }

  /** The number of stems: one more than the group of the last position. */
  ghost function StemCount(images: seq<Image>, order: seq<int>): nat
    requires InRange(order, |images|)
  {
    if |order| == 0 then 0 else GroupOf(images, order, |order| - 1) + 1
  }

  lemma {:induction false} GroupOfMonotone(images: seq<Image>, order: seq<int>, i: nat, j: nat)
    requires InRange(order, |images|) && i <= j < |order|
    ensures GroupOf(images, order, i) <= GroupOf(images, order, j)
  {
    if i < j {
      GroupOfMonotone(images, order, i, j - 1);
    }
  }

  /** Every position's group is below the number of stems. */
  lemma {:induction false} GroupBelowStemCount(images: seq<Image>, order: seq<int>, j: nat)
    requires InRange(order, |images|) && j < |order|
    ensures GroupOf(images, order, j) < StemCount(images, order)
  {
    GroupOfMonotone(images, order, j, |order| - 1);
  }

  /** Two positions share a group exactly when the image never changes between them. */
  lemma {:induction false} SameGroupIsRun(images: seq<Image>, order: seq<int>, i: nat, j: nat)
    requires InRange(order, |images|) && i <= j < |order|
    ensures GroupOf(images, order, i) == GroupOf(images, order, j)
        <==> forall k :: i < k <= j ==> images[order[k - 1]] == images[order[k]]
  {
    if i < j {
      SameGroupIsRun(images, order, i, j - 1);
      GroupOfMonotone(images, order, i, j - 1);
    }
  }

  /** Along a run where the image never changes, the first and last images agree. */
  lemma {:induction false} RunHasOneImage(images: seq<Image>, order: seq<int>, i: nat, j: nat)
    requires InRange(order, |images|) && i <= j < |order|
    requires forall k :: i < k <= j ==> images[order[k - 1]] == images[order[k]]
    ensures images[order[i]] == images[order[j]]
  {
    if i < j {
      RunHasOneImage(images, order, i, j - 1);
    }
  }

  /**
   * In a sorted order, two positions belong to the same stem exactly when
   * their images are equal.
   */
  lemma {:induction false} SameGroupIffSameImage(images: seq<Image>, order: seq<int>, cmp: Comparator, i: nat, j: nat)
    requires IsComparator(cmp) && SortedBy(images, order, cmp)
    requires i < |order| && j < |order|
    ensures GroupOf(images, order, i) == GroupOf(images, order, j) <==> images[order[i]] == images[order[j]]
  {
    if i <= j {
      SortedRunIffSameImage(images, order, cmp, i, j);
    } else {
      SortedRunIffSameImage(images, order, cmp, j, i);
    }
  }

  lemma {:induction false} SortedRunIffSameImage(images: seq<Image>, order: seq<int>, cmp: Comparator, i: nat, j: nat)
    requires IsComparator(cmp) && SortedBy(images, order, cmp)
    requires i <= j < |order|
    ensures GroupOf(images, order, i) == GroupOf(images, order, j) <==> images[order[i]] == images[order[j]]
  {
    SameGroupIsRun(images, order, i, j);
    if GroupOf(images, order, i) == GroupOf(images, order, j) {
      RunHasOneImage(images, order, i, j);
    }
    if images[order[i]] == images[order[j]] {
      forall k | i < k <= j
        ensures images[order[k - 1]] == images[order[k]]
      {
        BetweenEqualEnds(images, order, cmp, i, k - 1, j);
        BetweenEqualEnds(images, order, cmp, i, k, j);
      }
    }
  }

  /** Between two positions with equal images, a sorted order has only that image. */
  lemma {:induction false} BetweenEqualEnds(images: seq<Image>, order: seq<int>, cmp: Comparator, i: nat, k: nat, j: nat)
    requires IsComparator(cmp) && SortedBy(images, order, cmp)
    requires i <= k <= j < |order| && images[order[i]] == images[order[j]]
    ensures images[order[k]] == images[order[i]]
  {
    var a, x := images[order[i]], images[order[k]];
    if i < k < j {
      assert cmp(a, x) <= 0 && cmp(x, images[order[j]]) <= 0;
    }
  }
}
