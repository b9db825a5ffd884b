// Sparse per-document frequencies: a dense array of counts indexed by
// document, and its sparse form, an ascending list of (document, count)
// pairs without zero counts.  This stands for the two IntArrayUtils
// operations the stemmer calls, toSparseEncoding and
// addAllFromSparselyEncoded.
module SparseCodec {

  /** One entry of a sparse encoding: `count` occurrences in document `doc`. */
  datatype DocCount = DocCount(doc: int, count: int)

  /**
   * The count that the sparse list `sp` records for document `d`, adding up
   * the counts of every pair that names `d`.  This is what merging `sp` into a
   * dense array adds at index `d`.
   */
  function CountOf(sp: seq<DocCount>, d: int): int
  {
    if |sp| == 0 then 0
    else CountOf(sp[..|sp| - 1], d) + (if sp[|sp| - 1].doc == d then sp[|sp| - 1].count else 0)
  }

  /** Every pair of `sp` names a document of a corpus of `documentCount` documents. */
  ghost predicate InBounds(sp: seq<DocCount>, documentCount: int)
  {
    forall i :: 0 <= i < |sp| ==> 0 <= sp[i].doc < documentCount
  }

  /** A canonical sparse encoding: in bounds, strictly ascending by document, no zero counts. */
  ghost predicate WellFormed(sp: seq<DocCount>, documentCount: int)
  {
    && InBounds(sp, documentCount)
    && (forall i :: 0 < i < |sp| ==> sp[i - 1].doc < sp[i].doc)
    && (forall i :: 0 <= i < |sp| ==> sp[i].count != 0)
  }

  /** The dense array of length `documentCount` that `sp` stands for. */
  function Decode(sp: seq<DocCount>, documentCount: nat): (dense: seq<int>)
    ensures |dense| == documentCount
    ensures forall d :: 0 <= d < documentCount ==> dense[d] == CountOf(sp, d)
  {
    seq(documentCount, d requires 0 <= d < documentCount => CountOf(sp, d))
  }

  /** The sparse encoding of the first `k` entries of `dense`. */
  function EncodePrefix(dense: seq<int>, k: nat): seq<DocCount>
    requires k <= |dense|
  {
    if k == 0 then []
    else if dense[k - 1] == 0 then EncodePrefix(dense, k - 1)
    else EncodePrefix(dense, k - 1) + [DocCount(k - 1, dense[k - 1])]
  }

  /**
   * The encoding of a prefix is canonical, names only documents of the
   * prefix, and records exactly the prefix's counts.
   */
  lemma {:induction false} EncodePrefixCounts(dense: seq<int>, k: nat)
    requires k <= |dense|
    ensures var sp := EncodePrefix(dense, k);
      && WellFormed(sp, |dense|)
      && (forall i :: 0 <= i < |sp| ==> sp[i].doc < k)
      && (forall d :: 0 <= d < |dense| ==> CountOf(sp, d) == if d < k then dense[d] else 0)
  {
    EncodePrefixBelow(dense, k);
    EncodePrefixAscending(dense, k);
    EncodePrefixCountOf(dense, k);
  }

  /** The encoding of a prefix names documents of the prefix only, each with a nonzero count. */
  lemma {:induction false} EncodePrefixBelow(dense: seq<int>, k: nat)
    requires k <= |dense|
    ensures forall i :: 0 <= i < |EncodePrefix(dense, k)| ==>
      0 <= EncodePrefix(dense, k)[i].doc < k && EncodePrefix(dense, k)[i].count != 0
  {
    if k > 0 {
      EncodePrefixBelow(dense, k - 1);
      var sp' := EncodePrefix(dense, k - 1);
      if dense[k - 1] != 0 {
        var sp := sp' + [DocCount(k - 1, dense[k - 1])];
        assert forall i :: 0 <= i < |sp'| ==> sp[i] == sp'[i];
      }
    }
  }

  /** The encoding of a prefix is strictly ascending by document. */
  lemma {:induction false} EncodePrefixAscending(dense: seq<int>, k: nat)
    requires k <= |dense|
    ensures forall i :: 0 < i < |EncodePrefix(dense, k)| ==>
      EncodePrefix(dense, k)[i - 1].doc < EncodePrefix(dense, k)[i].doc
  {
    if k > 0 {
      EncodePrefixAscending(dense, k - 1);
      EncodePrefixBelow(dense, k - 1);
      var sp' := EncodePrefix(dense, k - 1);
      if dense[k - 1] != 0 {
        var sp := sp' + [DocCount(k - 1, dense[k - 1])];
        forall i | 0 < i < |sp|
          ensures sp[i - 1].doc < sp[i].doc
        {
          assert sp[i - 1] == sp'[i - 1];
          if i < |sp'| {
            assert sp[i] == sp'[i];
          }
        }
      }
    }
  }

  /** The encoding of a prefix records the prefix's counts and nothing beyond it. */
  lemma {:induction false} EncodePrefixCountOf(dense: seq<int>, k: nat)
    requires k <= |dense|
    ensures forall d :: 0 <= d < |dense| ==> CountOf(EncodePrefix(dense, k), d) == if d < k then dense[d] else 0
  {
    if k > 0 {
      EncodePrefixCountOf(dense, k - 1);
      var sp' := EncodePrefix(dense, k - 1);
      if dense[k - 1] != 0 {
        var sp := sp' + [DocCount(k - 1, dense[k - 1])];
        assert sp[..|sp| - 1] == sp';
      }
    }
  }

  /** `IntArrayUtils.toSparseEncoding`: the canonical sparse form of `dense`. */
  function ToSparseEncoding(dense: seq<int>): seq<DocCount>
  {
    EncodePrefix(dense, |dense|)
  }

  /** The sparse form is canonical and decodes back to the dense array. */
  lemma {:induction false} ToSparseEncodingDecodes(dense: seq<int>)
    ensures WellFormed(ToSparseEncoding(dense), |dense|)
    ensures Decode(ToSparseEncoding(dense), |dense|) == dense
  {
    EncodePrefixCounts(dense, |dense|);
  }

  /**
   * `IntArrayUtils.addAllFromSparselyEncoded`: adds every pair's count into
   * the dense buffer at the pair's document.
   */
  method AddAllFromSparselyEncoded(dense: array<int>, sp: seq<DocCount>)
    requires InBounds(sp, dense.Length)
    modifies dense
    ensures forall d :: 0 <= d < dense.Length ==> dense[d] == old(dense[d]) + CountOf(sp, d)
  {
    for k := 0 to |sp|
      invariant forall d :: 0 <= d < dense.Length ==> dense[d] == old(dense[d]) + CountOf(sp[..k], d)
    {
      assert sp[..k + 1][..k] == sp[..k];
      dense[sp[k].doc] := dense[sp[k].doc] + sp[k].count;
    }
    assert sp[..|sp|] == sp;
  }

  /** A list whose documents all differ from `d` records nothing for `d`. */
  lemma {:induction false} CountOfAbsent(sp: seq<DocCount>, d: int)
    requires forall i :: 0 <= i < |sp| ==> sp[i].doc != d
    ensures CountOf(sp, d) == 0
  {
    if |sp| > 0 {
      CountOfAbsent(sp[..|sp| - 1], d);
    }
  }

  /** In a list ascending by document, the last document is above every other. */
  lemma {:induction false} LastDocLargest(sp: seq<DocCount>)
    requires |sp| > 0 && forall i :: 0 < i < |sp| ==> sp[i - 1].doc < sp[i].doc
    ensures forall i :: 0 <= i < |sp| - 1 ==> sp[i].doc < sp[|sp| - 1].doc
  {
    if |sp| > 1 {
      LastDocLargest(sp[..|sp| - 1]);
    }
  }

  /**
   * A canonical encoding naming only documents below `k` is the encoding of
   * the first `k` entries of any dense array that holds its counts there.
   */
  lemma {:induction false} CanonicalIsEncoding(sp: seq<DocCount>, dense: seq<int>, k: nat)
    requires k <= |dense| && WellFormed(sp, |dense|)
    requires forall i :: 0 <= i < |sp| ==> sp[i].doc < k
    requires forall d :: 0 <= d < k ==> dense[d] == CountOf(sp, d)
    ensures EncodePrefix(dense, k) == sp
  {
    if |sp| == 0 {
      if k > 0 {
        CanonicalIsEncoding(sp, dense, k - 1);
      }
    } else if sp[|sp| - 1].doc == k - 1 {
      var sp', last := sp[..|sp| - 1], sp[|sp| - 1];
      LastDocLargest(sp);
      CountOfAbsent(sp', k - 1);
      assert dense[k - 1] == last.count;
      forall d | 0 <= d < k - 1
        ensures dense[d] == CountOf(sp', d)
      {
        assert CountOf(sp, d) == CountOf(sp', d) + (if last.doc == d then last.count else 0);
      }
      CanonicalIsEncoding(sp', dense, k - 1);
      assert sp == sp' + [last];
    } else {
      LastDocLargest(sp);
      CountOfAbsent(sp, k - 1);
      CanonicalIsEncoding(sp, dense, k - 1);
    }
  }

  /** Two canonical encodings that record the same counts are the same list. */
  lemma {:induction false} WellFormedUnique(a: seq<DocCount>, b: seq<DocCount>, documentCount: nat)
    requires WellFormed(a, documentCount) && WellFormed(b, documentCount)
    requires forall d :: 0 <= d < documentCount ==> CountOf(a, d) == CountOf(b, d)
    ensures a == b
  {
    var dense := Decode(a, documentCount);
    CanonicalIsEncoding(a, dense, documentCount);
    CanonicalIsEncoding(b, dense, documentCount);
  }

  /** Decoding a canonical encoding and encoding it again gives it back. */
  lemma {:induction false} SparseRoundTrip(sp: seq<DocCount>, documentCount: nat)
    requires WellFormed(sp, documentCount)
    ensures ToSparseEncoding(Decode(sp, documentCount)) == sp
  {
    CanonicalIsEncoding(sp, Decode(sp, documentCount), documentCount);
  }
}
