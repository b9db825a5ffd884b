// The single pass of addStemStatistics over the words in sorted order,
// described position by position.  Sorted position j belongs to stem
// groups[j].  The stems below the current one are "closed", and their
// statistics sit in lists.  The current stem covers the positions
// start .. i.  Each concern (run, images, tf, documents, most frequent
// word, fields) has a predicate for the closed stems, one for the current
// stem, and step lemmas for the four moves of the pass: start a stem,
// extend it by the next position, close it, and advance past a position
// that belongs to no closed stem.
module StemPass {
  import opened Sums
  import opened SparseCodec
  import opened ByteBitSets
  import opened Ordering

  /** The fixed inputs of one pass, with the sorted views of the word columns. */
  datatype Pass = Pass(
    images: seq<Image>,
    order: seq<int>,
    groups: seq<int>,
    tf: seq<int>,
    tfByDocument: seq<seq<DocCount>>,
    fieldIndices: seq<seq<int>>,
    orderedTf: seq<int>,
    orderedFields: seq<seq<int>>,
    documentCount: nat,
    fieldCount: nat,
    cmp: Comparator)

  /**
   * The pass's inputs are consistent: a non-empty order that visits every
   * word once, and the views derived from it.
   */
  ghost predicate PassShape(p: Pass)
  {
    var n := |p.order|;
    && n > 0 && |p.images| == n && |p.tf| == n && |p.tfByDocument| == n && |p.fieldIndices| == n
    && IsPermutation(p.order, n)
    && p.groups == GroupIds(p.images, p.order)
    && p.orderedTf == Permuted(p.tf, p.order)
    && p.orderedFields == Permuted(p.fieldIndices, p.order)
    && (forall w :: 0 <= w < n ==> InBounds(p.tfByDocument[w], p.documentCount))
  }

  /**
   * The order visits the images in non-decreasing order under a comparator
   * whose zero means equal images.
   */
  ghost predicate PassSorted(p: Pass)
    requires PassShape(p)
  {
    forall j :: 0 < j < |p.order| ==> SortedAt(p, j)
  }

  /**
   * Positions `j - 1` and `j` are in order, and the comparator calls their
   * images equal exactly when they are.
   */
  ghost predicate SortedAt(p: Pass, j: int)
    requires PassShape(p) && 0 < j < |p.order|
  {
    var a, b := p.images[p.order[j - 1]], p.images[p.order[j]];
    (p.cmp(a, b) == 0 <==> a == b) && p.cmp(a, b) <= 0
  }

  /** Every field index of every word is below the number of fields. */
  ghost predicate FieldsBelow(p: Pass)
  {
    forall w, k :: 0 <= w < |p.fieldIndices| && 0 <= k < |p.fieldIndices[w]| ==> 0 <= p.fieldIndices[w][k] < p.fieldCount
  }

  /** The count of document `d` in each word's sparse frequencies, in sorted order. */
  ghost function OrderedCounts(tfByDocument: seq<seq<DocCount>>, order: seq<int>, d: int): (c: seq<int>)
    requires InRange(order, |tfByDocument|)
    ensures |c| == |order|
    ensures forall j :: 0 <= j < |order| ==> c[j] == CountOf(tfByDocument[order[j]], d)
  {
    seq(|order|, j requires 0 <= j < |order| => CountOf(tfByDocument[order[j]], d))
  }

  /** The fields with which the field set of stem `s` starts: word 0's for the first stem. */
  ghost function FieldSeed(fieldIndices: seq<seq<int>>, s: int): set<int>
    requires |fieldIndices| > 0
  {
    if s == 0 then Elements(fieldIndices[0]) else {}
  }

  /**
   * The fields added to stem `s`'s set at the sorted positions `1 .. k-1` of
   * that stem.  Position 0 never adds its own fields: the first stem's set is
   * seeded from word 0 instead (LanguageModelStemmer.java, line 117).
   */
  ghost function FieldsTo(orderedFields: seq<seq<int>>, groups: seq<int>, s: int, k: nat): set<int>
    requires k <= |orderedFields| && k <= |groups|
  {
    if k <= 1 then {}
    else FieldsTo(orderedFields, groups, s, k - 1) + (if groups[k - 1] == s then Elements(orderedFields[k - 1]) else {})
  }

  lemma {:induction false} FieldsToNone(orderedFields: seq<seq<int>>, groups: seq<int>, s: int, k: nat)
    requires k <= |orderedFields| && k <= |groups|
    requires forall j :: 0 < j < k ==> groups[j] != s
    ensures FieldsTo(orderedFields, groups, s, k) == {}
  {
    if k > 1 {
      FieldsToNone(orderedFields, groups, s, k - 1);
    }
  }

  /** A field is in `FieldsTo` exactly when some position `0 < j < k` of the stem lists it. */
  lemma {:induction false} FieldsToMembers(orderedFields: seq<seq<int>>, groups: seq<int>, s: int, k: nat, f: int)
    requires k <= |orderedFields| && k <= |groups|
    ensures f in FieldsTo(orderedFields, groups, s, k)
        <==> exists j :: 0 < j < k && groups[j] == s && f in orderedFields[j]
  {
    if k > 1 {
      FieldsToMembers(orderedFields, groups, s, k - 1, f);
    }
  }

  // ---------------------------------------------------------------- groups

  /** The group of the next position: the same stem exactly when the images are equal. */
  lemma {:induction false} NextGroup(p: Pass, i: int)
    requires PassShape(p) && 0 <= i < |p.order| - 1
    ensures p.groups[i + 1] == p.groups[i] + (if p.images[p.order[i]] == p.images[p.order[i + 1]] then 0 else 1)
  {
  }

  /** The comparator calls the next image equal exactly when it is, and larger otherwise. */
  lemma {:induction false} NextCompare(p: Pass, i: int)
    requires PassShape(p) && PassSorted(p) && 0 <= i < |p.order| - 1
    ensures p.cmp(p.images[p.order[i]], p.images[p.order[i + 1]]) == 0 <==> p.images[p.order[i]] == p.images[p.order[i + 1]]
    ensures p.images[p.order[i]] != p.images[p.order[i + 1]] ==> p.cmp(p.images[p.order[i]], p.images[p.order[i + 1]]) < 0
  {
    assert SortedAt(p, i + 1);
  }

  /** The current stem is `stemIndex`, and it covers the positions `start .. i`. */
  ghost predicate CurrentRun(p: Pass, i: int, start: int, stemIndex: int)
    requires PassShape(p)
  {
    && 0 <= start <= i < |p.order|
    && stemIndex == p.groups[i]
    && (forall j {:trigger p.groups[j]} :: start <= j <= i ==>
          p.groups[j] == stemIndex && p.images[p.order[j]] == p.images[p.order[i]])
    && (forall j :: 0 <= j < start ==> p.groups[j] < stemIndex)
  }

  lemma {:induction false} RunStart(p: Pass, t: int)
    requires PassShape(p) && 0 <= t < |p.order|
    requires forall j :: 0 <= j < t ==> p.groups[j] < p.groups[t]
    ensures CurrentRun(p, t, t, p.groups[t])
  {
  }

  lemma {:induction false} RunExtend(p: Pass, i: int, start: int, stemIndex: int)
    requires PassShape(p) && CurrentRun(p, i, start, stemIndex) && i + 1 < |p.order|
    requires p.images[p.order[i]] == p.images[p.order[i + 1]]
    ensures CurrentRun(p, i + 1, start, stemIndex)
  {
    NextGroup(p, i);
  }

  /** When the image changes, the next position opens stem `stemIndex + 1`, above every earlier position. */
  lemma {:induction false} RunNext(p: Pass, i: int, start: int, stemIndex: int)
    requires PassShape(p) && CurrentRun(p, i, start, stemIndex) && i + 1 < |p.order|
    requires p.images[p.order[i]] != p.images[p.order[i + 1]]
    ensures p.groups[i + 1] == stemIndex + 1
    ensures CurrentRun(p, i + 1, i + 1, stemIndex + 1)
  {
    NextGroup(p, i);
    RunStart(p, i + 1);
  }

  /** Every word visited before position `i` points at its position's stem. */
  ghost predicate IndexedTo(p: Pass, i: int, stemIndexes: seq<int>)
    requires PassShape(p)
  {
    && 0 <= i <= |p.order| && |stemIndexes| == |p.order|
    && forall j {:trigger stemIndexes[p.order[j]]} :: 0 <= j < i ==> stemIndexes[p.order[j]] == p.groups[j]
  }

  lemma {:induction false} IndexStep(p: Pass, i: int, stemIndexes: seq<int>)
    requires PassShape(p) && 0 <= i < |p.order| && IndexedTo(p, i, stemIndexes)
    ensures IndexedTo(p, i + 1, stemIndexes[p.order[i] := p.groups[i]])
  {
    forall j | 0 <= j < i
      ensures p.order[j] != p.order[i]
    {
      assert DistinctAt(p.order, j, i);
    }
  }

  // ---------------------------------------------------------------- images

  /** The closed stems' images: each position below `start` finds its image at its stem, ascending. */
  ghost predicate ClosedImages(p: Pass, start: int, c: int, stemImages: seq<Image>)
    requires PassShape(p) && 0 <= start <= |p.order|
  {
    && |stemImages| == c
    && (forall j {:trigger p.groups[j]} :: 0 <= j < start ==>
          p.groups[j] < c && stemImages[p.groups[j]] == p.images[p.order[j]])
    && (forall s :: 0 < s < c ==> AscendsAt(p.cmp, stemImages, s))
  }

  /** The last closed stem's image is below the image at position `i`. */
  ghost predicate CurrentImage(p: Pass, i: int, c: int, stemImages: seq<Image>)
    requires PassShape(p) && 0 <= i < |p.order| && |stemImages| == c
  {
    c > 0 ==> p.cmp(stemImages[c - 1], p.images[p.order[i]]) < 0
  }

  lemma {:induction false} ImageClose(p: Pass, i: int, start: int, c: int, stemImages: seq<Image>)
    requires PassShape(p) && CurrentRun(p, i, start, c)
    requires ClosedImages(p, start, c, stemImages) && CurrentImage(p, i, c, stemImages)
    ensures ClosedImages(p, i + 1, c + 1, stemImages + [p.images[p.order[i]]])
  {
    var closed := stemImages + [p.images[p.order[i]]];
    forall s | 0 < s < c + 1
      ensures AscendsAt(p.cmp, closed, s)
    {
      if s < c {
        assert AscendsAt(p.cmp, stemImages, s);
      }
    }
  }

  lemma {:induction false} ImageNext(p: Pass, i: int, c: int, stemImages: seq<Image>)
    requires PassShape(p) && PassSorted(p) && 0 <= i < |p.order| - 1 && |stemImages| == c
    requires p.images[p.order[i]] != p.images[p.order[i + 1]]
    ensures CurrentImage(p, i + 1, c + 1, stemImages + [p.images[p.order[i]]])
  {
    NextCompare(p, i);
  }

  // ---------------------------------------------------------------- tf

  /** Each closed stem's tf is the sum over its positions below `k`. */
  ghost predicate ClosedTf(p: Pass, k: int, c: int, stemTf: seq<int>)
    requires PassShape(p) && 0 <= k <= |p.order|
  {
    && |stemTf| == c
    && forall s :: 0 <= s < c ==> stemTf[s] == GroupSumTo(p.orderedTf, p.groups, s, k)
  }

  /** The running total is the current stem's sum over the positions up to `i`. */
  ghost predicate CurrentTf(p: Pass, i: int, stemIndex: int, totalTf: int)
    requires PassShape(p) && 0 <= i < |p.order|
  {
    totalTf == GroupSumTo(p.orderedTf, p.groups, stemIndex, i + 1)
  }

  lemma {:induction false} TfStart(p: Pass, t: int)
    requires PassShape(p) && 0 <= t < |p.order|
    requires forall j :: 0 <= j < t ==> p.groups[j] < p.groups[t]
    ensures CurrentTf(p, t, p.groups[t], p.tf[p.order[t]])
  {
    GroupSumToNone(p.orderedTf, p.groups, p.groups[t], t);
  }

  lemma {:induction false} TfExtend(p: Pass, i: int, stemIndex: int, totalTf: int)
    requires PassShape(p) && 0 <= i < |p.order| - 1 && CurrentTf(p, i, stemIndex, totalTf)
    requires p.groups[i + 1] == stemIndex
    ensures CurrentTf(p, i + 1, stemIndex, totalTf + p.tf[p.order[i + 1]])
  {
  }

  lemma {:induction false} TfClose(p: Pass, i: int, c: int, stemTf: seq<int>, totalTf: int)
    requires PassShape(p) && 0 <= i < |p.order|
    requires ClosedTf(p, i + 1, c, stemTf) && CurrentTf(p, i, c, totalTf)
    ensures ClosedTf(p, i + 1, c + 1, stemTf + [totalTf])
  {
  }

  lemma {:induction false} TfAdvance(p: Pass, i: int, c: int, stemTf: seq<int>)
    requires PassShape(p) && 0 <= i < |p.order| - 1 && ClosedTf(p, i + 1, c, stemTf)
    requires p.groups[i + 1] >= c
    ensures ClosedTf(p, i + 2, c, stemTf)
  {
  }

  // ---------------------------------------------------------------- documents

  /** Each closed stem's sparse counts are canonical and record its sums below `k`. */
  ghost predicate ClosedDocs(p: Pass, k: int, c: int, stemTfByDocument: seq<seq<DocCount>>)
    requires PassShape(p) && 0 <= k <= |p.order|
  {
    && |stemTfByDocument| == c
    && (forall s :: 0 <= s < c ==> WellFormed(stemTfByDocument[s], p.documentCount))
    && (forall s, d :: 0 <= s < c && 0 <= d < p.documentCount ==>
          CountOf(stemTfByDocument[s], d) == GroupSumTo(OrderedCounts(p.tfByDocument, p.order, d), p.groups, s, k))
  }

  /** The dense buffer holds the current stem's per-document sums up to position `i`. */
  ghost predicate CurrentDocs(p: Pass, i: int, stemIndex: int, dense: seq<int>)
    requires PassShape(p) && 0 <= i < |p.order|
  {
    && |dense| == p.documentCount
    && forall d :: 0 <= d < p.documentCount ==>
         dense[d] == GroupSumTo(OrderedCounts(p.tfByDocument, p.order, d), p.groups, stemIndex, i + 1)
  }

  lemma {:induction false} DocsStart(p: Pass, t: int, dense: seq<int>)
    requires PassShape(p) && 0 <= t < |p.order|
    requires forall j :: 0 <= j < t ==> p.groups[j] < p.groups[t]
    requires |dense| == p.documentCount
    requires forall d :: 0 <= d < p.documentCount ==> dense[d] == CountOf(p.tfByDocument[p.order[t]], d)
    ensures CurrentDocs(p, t, p.groups[t], dense)
  {
    forall d | 0 <= d < p.documentCount
      ensures dense[d] == GroupSumTo(OrderedCounts(p.tfByDocument, p.order, d), p.groups, p.groups[t], t + 1)
    {
      GroupSumToNone(OrderedCounts(p.tfByDocument, p.order, d), p.groups, p.groups[t], t);
    }
  }

  lemma {:induction false} DocsExtend(p: Pass, i: int, stemIndex: int, dense: seq<int>, dense': seq<int>)
    requires PassShape(p) && 0 <= i < |p.order| - 1 && CurrentDocs(p, i, stemIndex, dense)
    requires p.groups[i + 1] == stemIndex
    requires |dense'| == p.documentCount
    requires forall d :: 0 <= d < p.documentCount ==> dense'[d] == dense[d] + CountOf(p.tfByDocument[p.order[i + 1]], d)
    ensures CurrentDocs(p, i + 1, stemIndex, dense')
  {
  }

  lemma {:induction false} DocsClose(p: Pass, i: int, c: int, stemTfByDocument: seq<seq<DocCount>>, dense: seq<int>)
    requires PassShape(p) && 0 <= i < |p.order|
    requires ClosedDocs(p, i + 1, c, stemTfByDocument) && CurrentDocs(p, i, c, dense)
    ensures ClosedDocs(p, i + 1, c + 1, stemTfByDocument + [ToSparseEncoding(dense)])
  {
    var sp := ToSparseEncoding(dense);
    ToSparseEncodingDecodes(dense);
    forall d | 0 <= d < p.documentCount
      ensures CountOf(sp, d) == dense[d]
    {
      assert Decode(sp, |dense|)[d] == dense[d];
    }
  }

  lemma {:induction false} DocsAdvance(p: Pass, i: int, c: int, stemTfByDocument: seq<seq<DocCount>>)
    requires PassShape(p) && 0 <= i < |p.order| - 1 && ClosedDocs(p, i + 1, c, stemTfByDocument)
    requires p.groups[i + 1] >= c
    ensures ClosedDocs(p, i + 2, c, stemTfByDocument)
  {
  }

  // ---------------------------------------------------------------- most frequent word

  /**
   * Each closed stem's representative is one of its positions below `start`
   * with the largest tf, and every earlier position of the stem has a strictly
   * smaller tf.
   */
  ghost predicate ClosedBest(p: Pass, start: int, c: int, mostFrequent: seq<int>, bestOf: seq<int>)
    requires PassShape(p) && 0 <= start <= |p.order|
  {
    && |mostFrequent| == c && |bestOf| == c
    && (forall s :: 0 <= s < c ==>
          0 <= bestOf[s] < start && p.groups[bestOf[s]] == s && mostFrequent[s] == p.order[bestOf[s]])
    && (forall j :: 0 <= j < start && p.groups[j] < c ==> p.orderedTf[j] <= p.orderedTf[bestOf[p.groups[j]]])
    && (forall j :: 0 <= j < start && p.groups[j] < c && j < bestOf[p.groups[j]] ==>
          p.orderedTf[j] < p.orderedTf[bestOf[p.groups[j]]])
  }

  /** The current representative, position `best`, is the first position of `start .. i` with the largest tf. */
  ghost predicate CurrentBest(p: Pass, i: int, start: int, best: int, mostFrequentIndex: int, mostFrequentFrequency: int)
    requires PassShape(p) && 0 <= i < |p.order|
  {
    && 0 <= start <= best <= i
    && mostFrequentIndex == p.order[best] && mostFrequentFrequency == p.orderedTf[best]
    && (forall j :: start <= j <= i ==> p.orderedTf[j] <= p.orderedTf[best])
    && (forall j :: start <= j < best ==> p.orderedTf[j] < p.orderedTf[best])
  }

  lemma {:induction false} BestStart(p: Pass, t: int)
    requires PassShape(p) && 0 <= t < |p.order|
    ensures CurrentBest(p, t, t, t, p.order[t], p.tf[p.order[t]])
  {
  }

  /** The next position becomes the representative only when its tf is strictly larger. */
  lemma {:induction false} BestExtend(p: Pass, i: int, start: int, best: int, mostFrequentIndex: int, mostFrequentFrequency: int)
    requires PassShape(p) && 0 <= i < |p.order| - 1
    requires CurrentBest(p, i, start, best, mostFrequentIndex, mostFrequentFrequency)
    ensures mostFrequentFrequency < p.tf[p.order[i + 1]] ==>
      CurrentBest(p, i + 1, start, i + 1, p.order[i + 1], p.tf[p.order[i + 1]])
    ensures mostFrequentFrequency >= p.tf[p.order[i + 1]] ==>
      CurrentBest(p, i + 1, start, best, mostFrequentIndex, mostFrequentFrequency)
  {
  }

  lemma {:induction false} BestClose(p: Pass, i: int, start: int, c: int, best: int, mostFrequentIndex: int, mostFrequentFrequency: int,
                  mostFrequent: seq<int>, bestOf: seq<int>)
    requires PassShape(p) && CurrentRun(p, i, start, c)
    requires ClosedBest(p, start, c, mostFrequent, bestOf)
    requires CurrentBest(p, i, start, best, mostFrequentIndex, mostFrequentFrequency)
    ensures ClosedBest(p, i + 1, c + 1, mostFrequent + [mostFrequentIndex], bestOf + [best])
  {
    var mostFrequent', bestOf' := mostFrequent + [mostFrequentIndex], bestOf + [best];
    forall j | 0 <= j < i + 1 && p.groups[j] < c + 1
      ensures p.orderedTf[j] <= p.orderedTf[bestOf'[p.groups[j]]]
      ensures j < bestOf'[p.groups[j]] ==> p.orderedTf[j] < p.orderedTf[bestOf'[p.groups[j]]]
    {
      if j < start {
        assert bestOf'[p.groups[j]] == bestOf[p.groups[j]];
      } else {
        assert bestOf'[p.groups[j]] == best;
      }
    }
  }

  // ---------------------------------------------------------------- fields

  /** Each closed stem's field list is ascending and holds its seed and the fields of its positions below `k`. */
  ghost predicate ClosedFields(p: Pass, k: int, c: int, fieldIndexList: seq<seq<int>>)
    requires PassShape(p) && 0 <= k <= |p.order|
  {
    && |fieldIndexList| == c
    && forall s :: 0 <= s < c ==>
         && StrictlyIncreasing(fieldIndexList[s])
         && Elements(fieldIndexList[s]) == FieldSeed(p.fieldIndices, s) + FieldsTo(p.orderedFields, p.groups, s, k)
  }

  /** The bit set holds the current stem's seed and the fields of its positions up to `i`. */
  ghost predicate CurrentFields(p: Pass, i: int, stemIndex: int, members: set<int>)
    requires PassShape(p) && 0 <= i < |p.order|
  {
    members == FieldSeed(p.fieldIndices, stemIndex) + FieldsTo(p.orderedFields, p.groups, stemIndex, i + 1)
  }

  /**
   * A stem starts with the fields of word 0 when it is the first stem, and
   * with those of its own first word otherwise.
   */
  lemma {:induction false} FieldsStart(p: Pass, t: int, members: set<int>)
    requires PassShape(p) && 0 <= t < |p.order|
    requires forall j :: 0 <= j < t ==> p.groups[j] < p.groups[t]
    requires members == if t == 0 then Elements(p.fieldIndices[0]) else Elements(p.fieldIndices[p.order[t]])
    ensures CurrentFields(p, t, p.groups[t], members)
  {
    if t > 0 {
      assert p.groups[0] < p.groups[t];
      FieldsToNone(p.orderedFields, p.groups, p.groups[t], t);
    }
  }

  lemma {:induction false} FieldsExtend(p: Pass, i: int, stemIndex: int, members: set<int>, members': set<int>)
    requires PassShape(p) && 0 <= i < |p.order| - 1 && CurrentFields(p, i, stemIndex, members)
    requires p.groups[i + 1] == stemIndex
    requires members' == members + Elements(p.fieldIndices[p.order[i + 1]])
    ensures CurrentFields(p, i + 1, stemIndex, members')
  {
  }

  lemma {:induction false} FieldsClose(p: Pass, i: int, c: int, fieldIndexList: seq<seq<int>>, members: set<int>, r: seq<int>)
    requires PassShape(p) && 0 <= i < |p.order|
    requires ClosedFields(p, i + 1, c, fieldIndexList) && CurrentFields(p, i, c, members)
    requires StrictlyIncreasing(r) && Elements(r) == members
    ensures ClosedFields(p, i + 1, c + 1, fieldIndexList + [r])
  {
  }

  lemma {:induction false} FieldsAdvance(p: Pass, i: int, c: int, fieldIndexList: seq<seq<int>>)
    requires PassShape(p) && 0 <= i < |p.order| - 1 && ClosedFields(p, i + 1, c, fieldIndexList)
    requires p.groups[i + 1] >= c
    ensures ClosedFields(p, i + 2, c, fieldIndexList)
  {
  }

  // ---------------------------------------------------------------- the whole pass

  /**
   * The state of the pass after it has visited the positions `0 .. i`: the
   * current stem's run, the closed stems' lists, and the three buffers
   * (stem indexes of the words, dense per-document counts, field bits).
   */
  datatype Progress = Progress(
    i: int, start: int, best: int, bestOf: seq<int>,
    stemIndex: int,
    stemImages: seq<Image>, stemTf: seq<int>, mostFrequent: seq<int>,
    stemTfByDocument: seq<seq<DocCount>>, fieldIndexList: seq<seq<int>>,
    totalTf: int, mostFrequentIndex: int, mostFrequentFrequency: int,
    stemIndexes: seq<int>, dense: seq<int>, members: set<int>)

  /** The run, the words' stem indexes and the stem images are up to date. */
  ghost predicate RunPart(p: Pass, g: Progress)
    requires PassShape(p)
  {
    && CurrentRun(p, g.i, g.start, g.stemIndex)
    && IndexedTo(p, g.i, g.stemIndexes)
    && ClosedImages(p, g.start, g.stemIndex, g.stemImages) && CurrentImage(p, g.i, g.stemIndex, g.stemImages)
  }

  /** The tf totals and the per-document counts are up to date. */
  ghost predicate TotalsPart(p: Pass, g: Progress)
    requires PassShape(p) && 0 <= g.i < |p.order|
  {
    && ClosedTf(p, g.i + 1, g.stemIndex, g.stemTf) && CurrentTf(p, g.i, g.stemIndex, g.totalTf)
    && ClosedDocs(p, g.i + 1, g.stemIndex, g.stemTfByDocument) && CurrentDocs(p, g.i, g.stemIndex, g.dense)
  }

  /** The representatives are up to date. */
  ghost predicate BestPart(p: Pass, g: Progress)
    requires PassShape(p) && 0 <= g.start <= g.i < |p.order|
  {
    && ClosedBest(p, g.start, g.stemIndex, g.mostFrequent, g.bestOf)
    && CurrentBest(p, g.i, g.start, g.best, g.mostFrequentIndex, g.mostFrequentFrequency)
  }

  /** The field sets are up to date. */
  ghost predicate FieldsPart(p: Pass, g: Progress)
    requires PassShape(p) && 0 <= g.i < |p.order|
  {
    ClosedFields(p, g.i + 1, g.stemIndex, g.fieldIndexList) && CurrentFields(p, g.i, g.stemIndex, g.members)
  }

  /** Every concern of the pass is up to date at position `g.i`. */
  ghost predicate PassInvariant(p: Pass, g: Progress)
  {
    && PassShape(p)
    && RunPart(p, g) && TotalsPart(p, g) && BestPart(p, g) && FieldsPart(p, g)
  }

  /** The pass starts at position 0 with the first word's statistics and no closed stem. */
  lemma {:induction false} PassBegin(p: Pass, g: Progress)
    requires PassShape(p)
    requires g.i == 0 && g.start == 0 && g.best == 0 && g.bestOf == [] && g.stemIndex == 0
    requires g.stemImages == [] && g.stemTf == [] && g.mostFrequent == []
    requires g.stemTfByDocument == [] && g.fieldIndexList == []
    requires g.totalTf == p.tf[p.order[0]] && g.mostFrequentIndex == p.order[0]
    requires g.mostFrequentFrequency == p.tf[p.order[0]]
    requires |g.stemIndexes| == |p.order|
    requires |g.dense| == p.documentCount
    requires forall d :: 0 <= d < p.documentCount ==> g.dense[d] == CountOf(p.tfByDocument[p.order[0]], d)
    requires g.members == Elements(p.fieldIndices[0])
    ensures PassInvariant(p, g)
  {
    RunStart(p, 0);
    TfStart(p, 0);
    DocsStart(p, 0, g.dense);
    BestStart(p, 0);
    FieldsStart(p, 0, g.members);
  }

  // ---- the next position has the current stem's image

  /**
   * The move to a next position with the current stem's image: the position
   * joins the current stem, and becomes its representative only with a
   * strictly larger tf.
   */
  ghost predicate SameStemStep(p: Pass, g: Progress, g': Progress)
    requires PassShape(p) && 0 <= g.i < |p.order| - 1
  {
    var next := p.order[g.i + 1];
    && g'.i == g.i + 1 && g'.start == g.start && g'.stemIndex == g.stemIndex
    && g'.bestOf == g.bestOf && g'.stemImages == g.stemImages && g'.stemTf == g.stemTf
    && g'.mostFrequent == g.mostFrequent && g'.stemTfByDocument == g.stemTfByDocument
    && g'.fieldIndexList == g.fieldIndexList
    && g'.totalTf == g.totalTf + p.tf[next]
    && (g.mostFrequentFrequency < p.tf[next] ==>
          g'.best == g.i + 1 && g'.mostFrequentIndex == next && g'.mostFrequentFrequency == p.tf[next])
    && (g.mostFrequentFrequency >= p.tf[next] ==>
          g'.best == g.best && g'.mostFrequentIndex == g.mostFrequentIndex
          && g'.mostFrequentFrequency == g.mostFrequentFrequency)
    && |g.stemIndexes| == |p.order| && g'.stemIndexes == g.stemIndexes[p.order[g.i] := g.stemIndex]
    && |g.dense| == p.documentCount && |g'.dense| == p.documentCount
    && (forall d :: 0 <= d < p.documentCount ==> g'.dense[d] == g.dense[d] + CountOf(p.tfByDocument[next], d))
    && g'.members == g.members + Elements(p.fieldIndices[next])
  }

  lemma {:induction false} SameStemRun(p: Pass, g: Progress, g': Progress)
    requires PassInvariant(p, g) && g.i < |p.order| - 1
    requires p.images[p.order[g.i]] == p.images[p.order[g.i + 1]] && SameStemStep(p, g, g')
    ensures RunPart(p, g')
  {
    IndexStep(p, g.i, g.stemIndexes);
    NextGroup(p, g.i);
    RunExtend(p, g.i, g.start, g.stemIndex);
  }

  lemma {:induction false} SameStemTotals(p: Pass, g: Progress, g': Progress)
    requires PassInvariant(p, g) && g.i < |p.order| - 1
    requires p.images[p.order[g.i]] == p.images[p.order[g.i + 1]] && SameStemStep(p, g, g')
    ensures TotalsPart(p, g')
  {
    NextGroup(p, g.i);
    TfExtend(p, g.i, g.stemIndex, g.totalTf);
    TfAdvance(p, g.i, g.stemIndex, g.stemTf);
    DocsAdvance(p, g.i, g.stemIndex, g.stemTfByDocument);
    DocsExtend(p, g.i, g.stemIndex, g.dense, g'.dense);
  }

  lemma {:induction false} SameStemBest(p: Pass, g: Progress, g': Progress)
    requires PassInvariant(p, g) && g.i < |p.order| - 1
    requires p.images[p.order[g.i]] == p.images[p.order[g.i + 1]] && SameStemStep(p, g, g')
    ensures BestPart(p, g')
  {
    BestExtend(p, g.i, g.start, g.best, g.mostFrequentIndex, g.mostFrequentFrequency);
  }

  lemma {:induction false} SameStemFields(p: Pass, g: Progress, g': Progress)
    requires PassInvariant(p, g) && g.i < |p.order| - 1
    requires p.images[p.order[g.i]] == p.images[p.order[g.i + 1]] && SameStemStep(p, g, g')
    ensures FieldsPart(p, g')
  {
    NextGroup(p, g.i);
    FieldsAdvance(p, g.i, g.stemIndex, g.fieldIndexList);
    FieldsExtend(p, g.i, g.stemIndex, g.members, g'.members);
  }

  /** Joining the current stem keeps the pass up to date. */
  lemma {:induction false} PassSameStem(p: Pass, g: Progress, g': Progress)
    requires PassInvariant(p, g) && g.i < |p.order| - 1
    requires p.images[p.order[g.i]] == p.images[p.order[g.i + 1]] && SameStemStep(p, g, g')
    ensures PassInvariant(p, g')
  {
    SameStemRun(p, g, g');
    SameStemTotals(p, g, g');
    SameStemBest(p, g, g');
    SameStemFields(p, g, g');
  }

  // ---- the next position has another image

  /**
   * The move to a next position with another image: the current stem is
   * closed with its image, totals, representative and the sorted fields `r`
   * of its bit set, and a new stem starts with the next word alone.
   */
  ghost predicate NewStemStep(p: Pass, g: Progress, g': Progress, r: seq<int>)
    requires PassShape(p) && 0 <= g.i < |p.order| - 1
  {
    var next := p.order[g.i + 1];
    && StrictlyIncreasing(r) && Elements(r) == g.members
    && g'.i == g.i + 1 && g'.start == g.i + 1 && g'.best == g.i + 1 && g'.stemIndex == g.stemIndex + 1
    && g'.bestOf == g.bestOf + [g.best]
    && g'.stemImages == g.stemImages + [p.images[p.order[g.i]]]
    && g'.stemTf == g.stemTf + [g.totalTf]
    && g'.mostFrequent == g.mostFrequent + [g.mostFrequentIndex]
    && g'.stemTfByDocument == g.stemTfByDocument + [ToSparseEncoding(g.dense)]
    && g'.fieldIndexList == g.fieldIndexList + [r]
    && g'.totalTf == p.tf[next] && g'.mostFrequentIndex == next && g'.mostFrequentFrequency == p.tf[next]
    && |g.stemIndexes| == |p.order| && g'.stemIndexes == g.stemIndexes[p.order[g.i] := g.stemIndex]
    && |g'.dense| == p.documentCount
    && (forall d :: 0 <= d < p.documentCount ==> g'.dense[d] == CountOf(p.tfByDocument[next], d))
    && g'.members == Elements(p.fieldIndices[next])
  }

  lemma {:induction false} NewStemRun(p: Pass, g: Progress, g': Progress, r: seq<int>)
    requires PassInvariant(p, g) && PassSorted(p) && g.i < |p.order| - 1
    requires p.images[p.order[g.i]] != p.images[p.order[g.i + 1]] && NewStemStep(p, g, g', r)
    ensures RunPart(p, g')
  {
    IndexStep(p, g.i, g.stemIndexes);
    RunNext(p, g.i, g.start, g.stemIndex);
    ImageClose(p, g.i, g.start, g.stemIndex, g.stemImages);
    ImageNext(p, g.i, g.stemIndex, g.stemImages);
  }

  lemma {:induction false} NewStemTotals(p: Pass, g: Progress, g': Progress, r: seq<int>)
    requires PassInvariant(p, g) && g.i < |p.order| - 1
    requires p.images[p.order[g.i]] != p.images[p.order[g.i + 1]] && NewStemStep(p, g, g', r)
    ensures TotalsPart(p, g')
  {
    var i, c := g.i, g.stemIndex;
    RunNext(p, i, g.start, c);
    TfClose(p, i, c, g.stemTf, g.totalTf);
    TfAdvance(p, i, c + 1, g'.stemTf);
    TfStart(p, i + 1);
    DocsClose(p, i, c, g.stemTfByDocument, g.dense);
    DocsAdvance(p, i, c + 1, g'.stemTfByDocument);
    DocsStart(p, i + 1, g'.dense);
  }

  lemma {:induction false} NewStemBest(p: Pass, g: Progress, g': Progress, r: seq<int>)
    requires PassInvariant(p, g) && g.i < |p.order| - 1
    requires p.images[p.order[g.i]] != p.images[p.order[g.i + 1]] && NewStemStep(p, g, g', r)
    ensures BestPart(p, g')
  {
    BestClose(p, g.i, g.start, g.stemIndex, g.best, g.mostFrequentIndex, g.mostFrequentFrequency,
              g.mostFrequent, g.bestOf);
    BestStart(p, g.i + 1);
  }

  lemma {:induction false} NewStemFields(p: Pass, g: Progress, g': Progress, r: seq<int>)
    requires PassInvariant(p, g) && g.i < |p.order| - 1
    requires p.images[p.order[g.i]] != p.images[p.order[g.i + 1]] && NewStemStep(p, g, g', r)
    ensures FieldsPart(p, g')
  {
    var i, c := g.i, g.stemIndex;
    RunNext(p, i, g.start, c);
    FieldsClose(p, i, c, g.fieldIndexList, g.members, r);
    FieldsAdvance(p, i, c + 1, g'.fieldIndexList);
    FieldsStart(p, i + 1, g'.members);
  }

  /** Closing the current stem and starting the next keeps the pass up to date. */
  lemma {:induction false} PassNewStem(p: Pass, g: Progress, g': Progress, r: seq<int>)
    requires PassInvariant(p, g) && PassSorted(p) && g.i < |p.order| - 1
    requires p.images[p.order[g.i]] != p.images[p.order[g.i + 1]] && NewStemStep(p, g, g', r)
    ensures PassInvariant(p, g')
  {
    NewStemRun(p, g, g', r);
    NewStemTotals(p, g, g', r);
    NewStemBest(p, g, g', r);
    NewStemFields(p, g, g', r);
  }

  /** The lists the pass holds once the stem open at the last position is closed too. */
  datatype Closing = Closing(
    stemIndexes: seq<int>, stemImages: seq<Image>, stemTf: seq<int>, mostFrequent: seq<int>,
    stemTfByDocument: seq<seq<DocCount>>, fieldIndexList: seq<seq<int>>, bestOf: seq<int>)

  /** Closes the stem open at `g`, as the code after the loop does. */
  ghost function Close(p: Pass, g: Progress): Closing
    requires PassShape(p) && 0 <= g.i < |p.order| && |g.stemIndexes| == |p.order|
  {
    Closing(g.stemIndexes[p.order[g.i] := g.stemIndex],
            g.stemImages + [p.images[p.order[g.i]]], g.stemTf + [g.totalTf],
            g.mostFrequent + [g.mostFrequentIndex],
            g.stemTfByDocument + [ToSparseEncoding(g.dense)],
            g.fieldIndexList + [AscendingBelow(g.members, p.fieldCount)],
            g.bestOf + [g.best])
  }

  /**
   * The closing lists `c` account for the whole order: every word has its
   * stem index and the lists cover all `StemCount` stems.
   */
  ghost predicate Closed(p: Pass, c: Closing)
    requires PassShape(p)
  {
    var n, m := |p.order|, StemCount(p.images, p.order);
    && IndexedTo(p, n, c.stemIndexes)
    && ClosedImages(p, n, m, c.stemImages)
    && ClosedTf(p, n, m, c.stemTf)
    && ClosedDocs(p, n, m, c.stemTfByDocument)
    && ClosedBest(p, n, m, c.mostFrequent, c.bestOf)
    && ClosedFields(p, n, m, c.fieldIndexList)
  }

  /** After the last position, closing the current stem closes every stem. */
  lemma {:induction false} PassEnd(p: Pass, g: Progress, c: Closing)
    requires PassInvariant(p, g) && g.i == |p.order| - 1 && |g.stemIndexes| == |p.order|
    requires MembersUnder(g.members, p.fieldCount)
    requires c == Close(p, g)
    ensures StemCount(p.images, p.order) == g.stemIndex + 1
    ensures Closed(p, c)
  {
    var i, start, s := g.i, g.start, g.stemIndex;
    var r := AscendingBelow(g.members, p.fieldCount);
    AscendingBelowLists(g.members, p.fieldCount);
    assert Elements(r) == g.members;
    ImageClose(p, i, start, s, g.stemImages);
    TfClose(p, i, s, g.stemTf, g.totalTf);
    DocsClose(p, i, s, g.stemTfByDocument, g.dense);
    BestClose(p, i, start, s, g.best, g.mostFrequentIndex, g.mostFrequentFrequency, g.mostFrequent, g.bestOf);
    FieldsClose(p, i, s, g.fieldIndexList, g.members, r);
    IndexStep(p, i, g.stemIndexes);
  }

  // ---------------------------------------------------------------- the pass as a function

  /** `dense` with the counts that `sp` records added at every document. */
  ghost function AddCounts(dense: seq<int>, sp: seq<DocCount>): (r: seq<int>)
    ensures |r| == |dense|
    ensures forall d :: 0 <= d < |dense| ==> r[d] == dense[d] + CountOf(sp, d)
  {
    seq(|dense|, d requires 0 <= d < |dense| => dense[d] + CountOf(sp, d))
  }

  /** The state before the loop: the first sorted word opens stem 0, whose fields are seeded from word 0. */
  ghost function Begin(p: Pass): (g: Progress)
    requires PassShape(p)
    ensures g.i == 0 && |g.stemIndexes| == |p.order| && |g.dense| == p.documentCount
  {
    var first := p.order[0];
    Progress(0, 0, 0, [], 0, [], [], [], [], [], p.tf[first], first, p.tf[first],
             seq(|p.order|, _ => 0), Decode(p.tfByDocument[first], p.documentCount),
             Elements(p.fieldIndices[0]))
  }

  /**
   * One iteration of the loop at position `g.i`: the word there gets the
   * current stem index; the next word either joins the current stem or, when
   * the comparator tells the images apart, closes it and opens the next one.
   */
  ghost function Advance(p: Pass, g: Progress): (g': Progress)
    requires PassShape(p) && 0 <= g.i < |p.order| - 1
    requires |g.stemIndexes| == |p.order| && |g.dense| == p.documentCount
    ensures g'.i == g.i + 1 && |g'.stemIndexes| == |p.order| && |g'.dense| == p.documentCount
  {
    var next := p.order[g.i + 1];
    var stemIndexes := g.stemIndexes[p.order[g.i] := g.stemIndex];
    if p.cmp(p.images[p.order[g.i]], p.images[next]) == 0 then
      var larger := g.mostFrequentFrequency < p.tf[next];
      g.(i := g.i + 1,
         best := if larger then g.i + 1 else g.best,
         totalTf := g.totalTf + p.tf[next],
         mostFrequentIndex := if larger then next else g.mostFrequentIndex,
         mostFrequentFrequency := if larger then p.tf[next] else g.mostFrequentFrequency,
         stemIndexes := stemIndexes,
         dense := AddCounts(g.dense, p.tfByDocument[next]),
         members := g.members + Elements(p.fieldIndices[next]))
    else
      Progress(g.i + 1, g.i + 1, g.i + 1, g.bestOf + [g.best], g.stemIndex + 1,
               g.stemImages + [p.images[p.order[g.i]]], g.stemTf + [g.totalTf],
               g.mostFrequent + [g.mostFrequentIndex],
               g.stemTfByDocument + [ToSparseEncoding(g.dense)],
               g.fieldIndexList + [AscendingBelow(g.members, p.fieldCount)],
               p.tf[next], next, p.tf[next], stemIndexes,
               Decode(p.tfByDocument[next], p.documentCount), Elements(p.fieldIndices[next]))
  }

  /** The state of the pass when the loop reaches position `i`. */
  ghost function StateAt(p: Pass, i: nat): (g: Progress)
    requires PassShape(p) && i < |p.order|
    ensures g.i == i && |g.stemIndexes| == |p.order| && |g.dense| == p.documentCount
  {
    if i == 0 then Begin(p) else Advance(p, StateAt(p, i - 1))
  }

  /** Every member of `members` is a field index below `fieldCount`. */
  ghost predicate MembersUnder(members: set<int>, fieldCount: int)
  {
    forall f :: f in members ==> 0 <= f < fieldCount
  }

  /** The field bit set only ever holds fields below the number of fields. */
  lemma {:induction false} MembersBelow(p: Pass, i: nat)
    requires PassShape(p) && FieldsBelow(p) && i < |p.order|
    ensures MembersUnder(StateAt(p, i).members, p.fieldCount)
  {
    if i > 0 {
      MembersBelow(p, i - 1);
    }
  }

  lemma {:induction false} AdvanceSameStem(p: Pass, g: Progress)
    requires PassInvariant(p, g) && PassSorted(p) && g.i < |p.order| - 1
    requires |g.stemIndexes| == |p.order| && |g.dense| == p.documentCount
    requires p.images[p.order[g.i]] == p.images[p.order[g.i + 1]]
    ensures PassInvariant(p, Advance(p, g))
  {
    NextGroup(p, g.i);
    NextCompare(p, g.i);
    PassSameStem(p, g, Advance(p, g));
  }

  lemma {:induction false} AdvanceNewStem(p: Pass, g: Progress)
    requires PassInvariant(p, g) && PassSorted(p) && g.i < |p.order| - 1
    requires |g.stemIndexes| == |p.order| && |g.dense| == p.documentCount
    requires MembersUnder(g.members, p.fieldCount)
    requires p.images[p.order[g.i]] != p.images[p.order[g.i + 1]]
    ensures PassInvariant(p, Advance(p, g))
  {
    NextGroup(p, g.i);
    NextCompare(p, g.i);
    var r := AscendingBelow(g.members, p.fieldCount);
    AscendingBelowLists(g.members, p.fieldCount);
    assert Elements(r) == g.members;
    PassNewStem(p, g, Advance(p, g), r);
  }

  // The `== true` comparisons in the next two lemmas keep the verifier from
  // unfolding these large predicates into one proof goal per conjunct.

  /** Every state the loop reaches keeps the pass up to date. */
  lemma {:induction false} StateInvariant(p: Pass, i: nat)
    requires PassShape(p) == true && PassSorted(p) == true && FieldsBelow(p) == true && i < |p.order|
    ensures PassInvariant(p, StateAt(p, i)) == true
  {
    if i == 0 {
      assert StateAt(p, 0) == Begin(p);
      PassBegin(p, Begin(p));
    } else {
      StateInvariant(p, i - 1);
      var g := StateAt(p, i - 1);
      assert StateAt(p, i) == Advance(p, g);
      if p.images[p.order[g.i]] == p.images[p.order[g.i + 1]] {
        AdvanceSameStem(p, g);
      } else {
        MembersBelow(p, i - 1);
        AdvanceNewStem(p, g);
      }
    }
  }

  /** The state after the loop, with the last stem closed. */
  ghost function Finish(p: Pass): Closing
    requires PassShape(p)
  {
    Close(p, StateAt(p, |p.order| - 1))
  }

  /** The finished pass has closed every stem and given every word its stem index. */
  lemma {:induction false} PassFinish(p: Pass)
    requires PassShape(p) == true && PassSorted(p) == true && FieldsBelow(p) == true
    ensures Closed(p, Finish(p)) == true
  {
    var n := |p.order|;
    StateInvariant(p, n - 1);
    MembersBelow(p, n - 1);
    PassEnd(p, StateAt(p, n - 1), Finish(p));
  }
}
