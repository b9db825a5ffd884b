// LanguageModelStemmer: computes a stem image for every word and then, in
// one pass over the words sorted by stem image, the statistics of every
// stem (LanguageModelStemmer.java).
module LanguageModelStemmer {
  import opened Sums
  import opened SparseCodec
  import opened ByteBitSets
  import opened Ordering
  import opened StemPass

  datatype Option<T> = None | Some(value: T)

  /** The language's stemmer: a stem, or `None` where Java returns `null`. */
  type Stemmer = Image -> Option<Image>

  /** `CharArrayUtils.toLowerCase`. */
  type LowerCase = Image -> Image

  /** The word table of the context, `PreprocessingContext.AllWords`, as parallel sequences. */
  datatype AllWords = AllWords(
    image: seq<Image>,
    tf: seq<int>,
    tfByDocument: seq<seq<DocCount>>,
    fieldIndices: seq<seq<int>>,
    stemIndex: seq<int>)

  /** The stem table of the context, `PreprocessingContext.AllStems`, as parallel sequences. */
  datatype AllStems = AllStems(
    image: seq<Image>,
    mostFrequentOriginalWordIndex: seq<int>,
    tf: seq<int>,
    tfByDocument: seq<seq<DocCount>>,
    fieldIndices: seq<seq<int>>)

  /**
   * The parts of `PreprocessingContext` the stemmer reads and writes: the two
   * tables, the number of documents and the number of registered fields.
   */
  class PreprocessingContext {
    var allWords: AllWords
    var allStems: AllStems
    const documentCount: nat
    const fieldCount: nat

    constructor (words: AllWords, documentCount: nat, fieldCount: nat)
      ensures allWords == words && allStems == AllStems([], [], [], [], [])
      ensures this.documentCount == documentCount && this.fieldCount == fieldCount
    {
      allWords := words;
      allStems := AllStems([], [], [], [], []);
      this.documentCount := documentCount;
      this.fieldCount := fieldCount;
    }
  }

  /**
   * What the earlier preprocessing stages guarantee about the word table:
   * parallel sequences of one length, document indices below the number of
   * documents, field indices below the number of fields, and a number of
   * fields that survives the `(byte)` cast of line 116.
   */
  ghost predicate WordTableShape(words: AllWords, documentCount: nat, fieldCount: nat)
  {
    var n := |words.image|;
    && |words.tf| == n && |words.tfByDocument| == n && |words.fieldIndices| == n
    && (forall w :: 0 <= w < n ==> InBounds(words.tfByDocument[w], documentCount))
    && (forall w, k :: 0 <= w < n && 0 <= k < |words.fieldIndices[w]| ==> 0 <= words.fieldIndices[w][k] < fieldCount)
    && fieldCount < 128
  }

  /** The stem image of one word: the stemmer's result, or the lower-cased word when there is none. */
  function StemImageOf(image: Image, lower: LowerCase, stemmer: Stemmer): Image
  {
    match stemmer(lower(image))
    case Some(stem) => stem
    case None => lower(image)
  }

  /** The stem images of all words, in word order. */
  function StemImages(images: seq<Image>, lower: LowerCase, stemmer: Stemmer): (r: seq<Image>)
    ensures |r| == |images|
    ensures forall w :: 0 <= w < |images| ==> r[w] == StemImageOf(images[w], lower, stemmer)
  {
    seq(|images|, w requires 0 <= w < |images| => StemImageOf(images[w], lower, stemmer))
  }


  /** The count of document `d` in each word's sparse frequencies, in word order. */
  ghost function DocColumn(tfByDocument: seq<seq<DocCount>>, d: int): (c: seq<int>)
    ensures |c| == |tfByDocument|
    ensures forall w :: 0 <= w < |c| ==> c[w] == CountOf(tfByDocument[w], d)
  {
    seq(|tfByDocument|, w requires 0 <= w < |tfByDocument| => CountOf(tfByDocument[w], d))
  }

  /** The fields of the words of stem `s`, leaving out word `excluded`. */
  ghost function MemberFields(fieldIndices: seq<seq<int>>, stemIndex: seq<int>, s: int, excluded: int): set<int>
    requires |stemIndex| == |fieldIndices|
  {
    set w, f | 0 <= w < |fieldIndices| && stemIndex[w] == s && w != excluded && f in fieldIndices[w] :: f
  }

  // ---------------------------------------------------------------- what the stemmer publishes
  // The stem statistics below are stated for stem images `images` visited in
  // the sorted order `order`; the number of stems is StemCount(images, order).

  /** Both tables have their columns of matching lengths: one entry per word, one per stem. */
  ghost predicate TableLengths(words: AllWords, stems: AllStems, images: seq<Image>, order: seq<int>)
  {
    var n := |order|;
    && |images| == n && IsPermutation(order, n)
    && |words.image| == n && |words.tf| == n && |words.tfByDocument| == n
    && |words.fieldIndices| == n && |words.stemIndex| == n
    && var m := StemCount(images, order);
    && |stems.image| == m && |stems.tf| == m && |stems.mostFrequentOriginalWordIndex| == m
    && |stems.tfByDocument| == m && |stems.fieldIndices| == m
  }

  /** Every word points at a stem; the word at sorted position `j` at the stem of that position. */
  ghost predicate IndexesStems(words: AllWords, stems: AllStems, images: seq<Image>, order: seq<int>)
    requires TableLengths(words, stems, images, order)
  {
    && (forall w :: 0 <= w < |order| ==> 0 <= words.stemIndex[w] < |stems.image|)
    && (forall j {:trigger words.stemIndex[order[j]]} :: 0 <= j < |order| ==> words.stemIndex[order[j]] == GroupOf(images, order, j))
  }

  /** A stem's image is the stem image of each of its words, and stem images strictly ascend. */
  ghost predicate ImagesOfStems(words: AllWords, stems: AllStems, images: seq<Image>, order: seq<int>, cmp: Comparator)
    requires TableLengths(words, stems, images, order) && IndexesStems(words, stems, images, order)
  {
    && (forall w {:trigger words.stemIndex[w]} :: 0 <= w < |order| ==> stems.image[words.stemIndex[w]] == images[w])
    && (forall s :: 0 < s < |stems.image| ==> AscendsAt(cmp, stems.image, s))
  }

  /** A stem's tf and per-document counts are the sums of its words'; its counts are canonical. */
  ghost predicate SumsOfStems(words: AllWords, stems: AllStems, images: seq<Image>, order: seq<int>, documentCount: nat)
    requires TableLengths(words, stems, images, order)
  {
    && (forall s :: 0 <= s < |stems.tf| ==> stems.tf[s] == GroupSum(words.tf, words.stemIndex, s))
    && (forall s :: 0 <= s < |stems.tf| ==> WellFormed(stems.tfByDocument[s], documentCount))
    && (forall s, d :: 0 <= s < |stems.tf| && 0 <= d < documentCount ==>
          CountOf(stems.tfByDocument[s], d) == GroupSum(DocColumn(words.tfByDocument, d), words.stemIndex, s))
  }

  /**
   * A stem's representative word is one of its words with the largest tf;
   * every word of the stem visited before it has a strictly smaller tf.
   */
  ghost predicate RepresentativesOfStems(words: AllWords, stems: AllStems, images: seq<Image>, order: seq<int>)
    requires TableLengths(words, stems, images, order) && IndexesStems(words, stems, images, order)
  {
    var rep := stems.mostFrequentOriginalWordIndex;
    && (forall s :: 0 <= s < |rep| ==> 0 <= rep[s] < |order| && words.stemIndex[rep[s]] == s)
    && (forall w :: 0 <= w < |order| ==> words.tf[w] <= words.tf[rep[words.stemIndex[w]]])
    && (forall j, k {:trigger words.stemIndex[order[j]], words.stemIndex[order[k]]} ::
          (0 <= j < k < |order| && order[k] == rep[words.stemIndex[order[k]]]
           && words.stemIndex[order[j]] == words.stemIndex[order[k]]) ==> words.tf[order[j]] < words.tf[order[k]])
  }

  /**
   * A stem's field indices ascend and are the fields of its words other than
   * the first word visited, plus, for the first stem only, the fields of word 0.
   */
  ghost predicate FieldsOfStems(words: AllWords, stems: AllStems, images: seq<Image>, order: seq<int>)
    requires TableLengths(words, stems, images, order)
  {
    forall s :: 0 <= s < |stems.fieldIndices| ==>
      && StrictlyIncreasing(stems.fieldIndices[s])
      && Elements(stems.fieldIndices[s])
         == FieldSeed(words.fieldIndices, s) + MemberFields(words.fieldIndices, words.stemIndex, s, order[0])
  }

  /** All of the above. */
  ghost predicate IsStemStatistics(words: AllWords, stems: AllStems, documentCount: nat,
                                   images: seq<Image>, order: seq<int>, cmp: Comparator)
  {
    && TableLengths(words, stems, images, order)
    && IndexesStems(words, stems, images, order)
    && ImagesOfStems(words, stems, images, order, cmp)
    && SumsOfStems(words, stems, images, order, documentCount)
    && RepresentativesOfStems(words, stems, images, order)
    && FieldsOfStems(words, stems, images, order)
  }

  // ---------------------------------------------------------------- the operations

  /**
   * `stem`: computes the stem image of every word (lines 46-62), then the
   * stem statistics (line 64).
   */
  method Stem(context: PreprocessingContext, lower: LowerCase, stemmer: Stemmer,
              cmp: Comparator, sorter: Sorter)
    requires WordTableShape(context.allWords, context.documentCount, context.fieldCount)
    requires IsComparator(cmp) && SorterContract(sorter, cmp)
    modifies context
    ensures var images := StemImages(old(context.allWords.image), lower, stemmer);
      && context.allWords == old(context.allWords).(stemIndex := StemIndexesOf(old(context.allWords), images, sorter(images),
                                                                               context.documentCount, context.fieldCount, cmp))
      && context.allStems == StemTableOf(old(context.allWords), images, sorter(images),
                                         context.documentCount, context.fieldCount, cmp)
  {
    var wordImages := context.allWords.image;
    var stemImages := new Image[|wordImages|];
    for i := 0 to |wordImages|
      modifies stemImages
      invariant forall w :: 0 <= w < i ==> stemImages[w] == StemImageOf(wordImages[w], lower, stemmer)
    {
      var lowerCaseWord := lower(wordImages[i]);
      var stemmed := stemmer(lowerCaseWord);
      if stemmed.Some? {
        stemImages[i] := stemmed.value;
      } else {
        stemImages[i] := lowerCaseWord;
      }
    }
    assert stemImages[..] == StemImages(wordImages, lower, stemmer);
    AddStemStatistics(context, stemImages, cmp, sorter);
  }

  /**
   * `addStemStatistics` (lines 70-189): sorts the words by stem image and,
   * unless there are none, makes one pass over them in that order.
   */
  method AddStemStatistics(context: PreprocessingContext, wordStemImages: array<Image>,
                           cmp: Comparator, sorter: Sorter)
    requires WordTableShape(context.allWords, context.documentCount, context.fieldCount)
    requires wordStemImages.Length == |context.allWords.image|
    requires IsComparator(cmp) && SorterContract(sorter, cmp)
    modifies context
    ensures var images := wordStemImages[..];
      && context.allWords == old(context.allWords).(stemIndex := StemIndexesOf(old(context.allWords), images, sorter(images),
                                                                               context.documentCount, context.fieldCount, cmp))
      && context.allStems == StemTableOf(old(context.allWords), images, sorter(images),
                                         context.documentCount, context.fieldCount, cmp)
  {
    var stemImagesOrder := sorter(wordStemImages[..]);
    ghost var images, order := wordStemImages[..], stemImagesOrder;
    assert IsPermutation(order, |images|);

    if |stemImagesOrder| == 0 {
      context.allStems := AllStems([], [], [], [], []);
      var emptyIndexes := new int[|context.allWords.image|];
      context.allWords := context.allWords.(stemIndex := emptyIndexes[..]);
      return;
    }

    PassOfShape(context.allWords, context.documentCount, context.fieldCount, images, order, cmp);
    SortedPass(context, wordStemImages[..], stemImagesOrder, cmp);
  }

  /**
   * The stem indexes `addStemStatistics` gives the words: none when there
   * are no words (line 94), otherwise those of the pass over `order`.
   */
  ghost function StemIndexesOf(words: AllWords, images: seq<Image>, order: seq<int>,
                               documentCount: nat, fieldCount: nat, cmp: Comparator): seq<int>
    requires WordTableShape(words, documentCount, fieldCount) && |images| == |words.image|
    requires IsPermutation(order, |images|)
  {
    if |order| == 0 then []
    else
      PassOfShape(words, documentCount, fieldCount, images, order, cmp);
      Finish(PassOf(words, images, order, documentCount, fieldCount, cmp)).stemIndexes
  }

  /**
   * The stem table `addStemStatistics` builds: empty when there are no
   * words (lines 87-91), otherwise the one the pass over `order` closes.
   */
  ghost function StemTableOf(words: AllWords, images: seq<Image>, order: seq<int>,
                             documentCount: nat, fieldCount: nat, cmp: Comparator): AllStems
    requires WordTableShape(words, documentCount, fieldCount) && |images| == |words.image|
    requires IsPermutation(order, |images|)
  {
    if |order| == 0 then AllStems([], [], [], [], [])
    else
      PassOfShape(words, documentCount, fieldCount, images, order, cmp);
      StemsOf(Finish(PassOf(words, images, order, documentCount, fieldCount, cmp)))
  }

  /**
   * The tables `stem` leaves behind hold the stem statistics of the stem
   * images it computed, visited in the order the sorter gives.
   */
  lemma {:induction false} StemGivesStatistics(words: AllWords, documentCount: nat, fieldCount: nat,
                                               lower: LowerCase, stemmer: Stemmer, cmp: Comparator, sorter: Sorter)
    requires WordTableShape(words, documentCount, fieldCount)
    requires IsComparator(cmp) && SorterContract(sorter, cmp)
    ensures var images := StemImages(words.image, lower, stemmer);
      IsStemStatistics(words.(stemIndex := StemIndexesOf(words, images, sorter(images), documentCount, fieldCount, cmp)),
                       StemTableOf(words, images, sorter(images), documentCount, fieldCount, cmp),
                       documentCount, images, sorter(images), cmp)
  {
    var images := StemImages(words.image, lower, stemmer);
    StatisticsOfSortedOrder(words, documentCount, fieldCount, images, sorter(images), cmp);
  }

  /**
   * For any sorted permutation of the words, the tables `addStemStatistics`
   * builds hold the stem statistics.
   */
  lemma {:induction false} StatisticsOfSortedOrder(words: AllWords, documentCount: nat, fieldCount: nat,
                                                   images: seq<Image>, order: seq<int>, cmp: Comparator)
    requires WordTableShape(words, documentCount, fieldCount) && |images| == |words.image|
    requires IsComparator(cmp) && IsPermutation(order, |images|) && SortedBy(images, order, cmp)
    ensures IsStemStatistics(words.(stemIndex := StemIndexesOf(words, images, order, documentCount, fieldCount, cmp)),
                             StemTableOf(words, images, order, documentCount, fieldCount, cmp),
                             documentCount, images, order, cmp)
  {
    var words' := words.(stemIndex := StemIndexesOf(words, images, order, documentCount, fieldCount, cmp));
    var stems := StemTableOf(words, images, order, documentCount, fieldCount, cmp);
    if |order| == 0 {
      NoStemStatistics(words', stems, documentCount, images, order, cmp);
    } else {
      var p := PassOf(words, images, order, documentCount, fieldCount, cmp);
      PassOfShape(words, documentCount, fieldCount, images, order, cmp);
      SortedPassShape(words, documentCount, fieldCount, images, order, cmp);
      FinishedState(p, words', stems);
    }
  }

  // ---------------------------------------------------------------- consequences of the statistics

  /** Two words point at the same stem exactly when their stem images are equal. */
  lemma {:induction false} SameStemIffSameImage(words: AllWords, stems: AllStems, documentCount: nat,
                                                images: seq<Image>, order: seq<int>, cmp: Comparator, w: int, v: int)
    requires IsStemStatistics(words, stems, documentCount, images, order, cmp)
    requires IsComparator(cmp) && SortedBy(images, order, cmp)
    requires 0 <= w < |order| && 0 <= v < |order|
    ensures words.stemIndex[w] == words.stemIndex[v] <==> images[w] == images[v]
  {
    var jw := PositionOf(order, |order|, w);
    var jv := PositionOf(order, |order|, v);
    assert words.stemIndex[order[jw]] == GroupOf(images, order, jw);
    assert words.stemIndex[order[jv]] == GroupOf(images, order, jv);
    SameGroupIffSameImage(images, order, cmp, jw, jv);
  }

  /** The stems' tf values add up to the words' tf values: no occurrence is lost or counted twice. */
  lemma {:induction false} TotalTfConserved(words: AllWords, stems: AllStems, documentCount: nat,
                                            images: seq<Image>, order: seq<int>, cmp: Comparator)
    requires IsStemStatistics(words, stems, documentCount, images, order, cmp)
    ensures Sum(stems.tf) == Sum(words.tf)
  {
    var m := |stems.tf|;
    assert stems.tf == GroupSums(words.tf, words.stemIndex, m);
    SumOfGroupSums(words.tf, words.stemIndex, m);
  }

  /** In every document, the stems' counts add up to the words' counts. */
  lemma {:induction false} DocumentTfConserved(words: AllWords, stems: AllStems, documentCount: nat,
                                               images: seq<Image>, order: seq<int>, cmp: Comparator, d: int)
    requires IsStemStatistics(words, stems, documentCount, images, order, cmp)
    requires 0 <= d < documentCount
    ensures Sum(DocColumn(stems.tfByDocument, d)) == Sum(DocColumn(words.tfByDocument, d))
  {
    var m := |stems.tfByDocument|;
    var column := DocColumn(words.tfByDocument, d);
    assert DocColumn(stems.tfByDocument, d) == GroupSums(column, words.stemIndex, m);
    SumOfGroupSums(column, words.stemIndex, m);
  }

  /** With non-negative tf values, a stem's tf is at least the tf of each of its words. */
  lemma {:induction false} StemTfCoversWord(words: AllWords, stems: AllStems, documentCount: nat,
                                            images: seq<Image>, order: seq<int>, cmp: Comparator, w: int)
    requires IsStemStatistics(words, stems, documentCount, images, order, cmp)
    requires forall v :: 0 <= v < |words.tf| ==> words.tf[v] >= 0
    requires 0 <= w < |order|
    ensures stems.tf[words.stemIndex[w]] >= words.tf[w]
  {
    GroupSumToCoversMember(words.tf, words.stemIndex, w, |words.tf|);
  }

  /** With non-negative counts, a stem's count in a document is at least each of its words' counts there. */
  lemma {:induction false} StemCountsCoverWord(words: AllWords, stems: AllStems, documentCount: nat,
                                               images: seq<Image>, order: seq<int>, cmp: Comparator, w: int, d: int)
    requires IsStemStatistics(words, stems, documentCount, images, order, cmp)
    requires 0 <= d < documentCount
    requires forall v :: 0 <= v < |words.tfByDocument| ==> CountOf(words.tfByDocument[v], d) >= 0
    requires 0 <= w < |order|
    ensures CountOf(stems.tfByDocument[words.stemIndex[w]], d) >= CountOf(words.tfByDocument[w], d)
  {
    var column := DocColumn(words.tfByDocument, d);
    GroupSumToCoversMember(column, words.stemIndex, w, |column|);
  }

  /**
   * When the sorter puts word 0 first, seeding the first stem's fields from
   * word 0 (line 117) does no harm: every stem's fields are exactly the
   * fields of all its words.
   */
  lemma {:induction false} FieldsWhenWordZeroFirst(words: AllWords, stems: AllStems, documentCount: nat,
                                                   images: seq<Image>, order: seq<int>, cmp: Comparator, s: int)
    requires IsStemStatistics(words, stems, documentCount, images, order, cmp)
    requires 0 < |order| && order[0] == 0 && 0 <= s < |stems.fieldIndices|
    ensures Elements(stems.fieldIndices[s])
         == set w, f | 0 <= w < |order| && words.stemIndex[w] == s && f in words.fieldIndices[w] :: f
  {
    assert words.stemIndex[order[0]] == GroupOf(images, order, 0);
    var all := set w, f | 0 <= w < |order| && words.stemIndex[w] == s && f in words.fieldIndices[w] :: f;
    var seed := FieldSeed(words.fieldIndices, s);
    var rest := MemberFields(words.fieldIndices, words.stemIndex, s, 0);
    forall f
      ensures f in all <==> f in seed + rest
    {
      if f in all {
        var w :| 0 <= w < |order| && words.stemIndex[w] == s && f in words.fieldIndices[w];
        if w != 0 {
          assert f in rest;
        }
      }
      if f in rest {
        var w :| 0 <= w < |order| && words.stemIndex[w] == s && w != 0 && f in words.fieldIndices[w];
        assert f in all;
      }
    }
  }

  /** Without words there are no stems, and the empty tables satisfy the statistics. */
  lemma {:induction false} NoStemStatistics(words: AllWords, stems: AllStems, documentCount: nat,
                                             images: seq<Image>, order: seq<int>, cmp: Comparator)
    requires |order| == 0 && |images| == 0
    requires |words.image| == 0 && |words.tf| == 0 && |words.tfByDocument| == 0
    requires |words.fieldIndices| == 0 && |words.stemIndex| == 0
    requires stems == AllStems([], [], [], [], [])
    ensures IsStemStatistics(words, stems, documentCount, images, order, cmp)
  {
    NoStemLengths(words, stems, images, order);
    NoStemIndexes(words, stems, images, order);
    NoStemImages(words, stems, images, order, cmp);
    NoStemSums(words, stems, images, order, documentCount);
    NoStemRepresentatives(words, stems, images, order);
    NoStemFields(words, stems, images, order);
  }

  lemma {:induction false} NoStemLengths(words: AllWords, stems: AllStems, images: seq<Image>, order: seq<int>)
    requires |order| == 0 && |images| == 0
    requires |words.image| == 0 && |words.tf| == 0 && |words.tfByDocument| == 0
    requires |words.fieldIndices| == 0 && |words.stemIndex| == 0
    requires stems == AllStems([], [], [], [], [])
    ensures TableLengths(words, stems, images, order)
  {
  }

  lemma {:induction false} NoStemIndexes(words: AllWords, stems: AllStems, images: seq<Image>, order: seq<int>)
    requires TableLengths(words, stems, images, order) && |order| == 0
    ensures IndexesStems(words, stems, images, order)
  {
  }

  lemma {:induction false} NoStemImages(words: AllWords, stems: AllStems, images: seq<Image>, order: seq<int>, cmp: Comparator)
    requires TableLengths(words, stems, images, order) && |order| == 0 && IndexesStems(words, stems, images, order)
    ensures ImagesOfStems(words, stems, images, order, cmp)
  {
  }

  lemma {:induction false} NoStemSums(words: AllWords, stems: AllStems, images: seq<Image>, order: seq<int>, documentCount: nat)
    requires TableLengths(words, stems, images, order) && |order| == 0
    ensures SumsOfStems(words, stems, images, order, documentCount)
  {
  }

  lemma {:induction false} NoStemRepresentatives(words: AllWords, stems: AllStems, images: seq<Image>, order: seq<int>)
    requires TableLengths(words, stems, images, order) && |order| == 0 && IndexesStems(words, stems, images, order)
    ensures RepresentativesOfStems(words, stems, images, order)
  {
  }

  lemma {:induction false} NoStemFields(words: AllWords, stems: AllStems, images: seq<Image>, order: seq<int>)
    requires TableLengths(words, stems, images, order) && |order| == 0
    ensures FieldsOfStems(words, stems, images, order)
  {
  }

  /** The pass over the words of `words` in the order `order` of their stem images `images`. */
  ghost function PassOf(words: AllWords, images: seq<Image>, order: seq<int>,
                        documentCount: nat, fieldCount: nat, cmp: Comparator): Pass
    requires |words.tf| == |images| && |words.fieldIndices| == |images| && InRange(order, |images|)
  {
    Pass(images, order, GroupIds(images, order), words.tf, words.tfByDocument, words.fieldIndices,
         Permuted(words.tf, order), Permuted(words.fieldIndices, order), documentCount, fieldCount, cmp)
  }

  /** A permutation of a well-formed word table gives a consistent pass. */
  lemma {:induction false} PassOfShape(words: AllWords, documentCount: nat, fieldCount: nat,
                                       images: seq<Image>, order: seq<int>, cmp: Comparator)
    requires WordTableShape(words, documentCount, fieldCount) && |images| == |words.image|
    requires IsPermutation(order, |images|) && |order| > 0
    ensures PassShape(PassOf(words, images, order, documentCount, fieldCount, cmp))
    ensures FieldsBelow(PassOf(words, images, order, documentCount, fieldCount, cmp))
  {
  }

  /** A permutation sorted under a comparator gives a sorted pass. */
  lemma {:induction false} SortedPassShape(words: AllWords, documentCount: nat, fieldCount: nat,
                                           images: seq<Image>, order: seq<int>, cmp: Comparator)
    requires WordTableShape(words, documentCount, fieldCount) && |images| == |words.image|
    requires IsComparator(cmp) && IsPermutation(order, |images|) && SortedBy(images, order, cmp)
    requires |order| > 0
    ensures PassShape(PassOf(words, images, order, documentCount, fieldCount, cmp))
    ensures PassSorted(PassOf(words, images, order, documentCount, fieldCount, cmp))
  {
  }

  /**
   * The pass of `addStemStatistics` over a non-empty sorted order (lines
   * 76-83 and 98-188): extends the current stem while the stem image stays
   * the same and closes it where the image changes.  The loop follows
   * `StateAt` position by position.
   */
  method SortedPass(context: PreprocessingContext, wordStemImages: seq<Image>,
                    stemImagesOrder: seq<int>, cmp: Comparator)
    requires |context.allWords.tf| == |wordStemImages|
    requires |context.allWords.fieldIndices| == |wordStemImages|
    requires |context.allWords.image| == |wordStemImages|
    requires InRange(stemImagesOrder, |wordStemImages|)
    requires var p := PassOf(context.allWords, wordStemImages, stemImagesOrder,
                             context.documentCount, context.fieldCount, cmp);
      PassShape(p) && FieldsBelow(p)
    modifies context
    ensures var p := PassOf(old(context.allWords), wordStemImages, stemImagesOrder,
                            context.documentCount, context.fieldCount, cmp);
      && context.allWords == old(context.allWords).(stemIndex := Finish(p).stemIndexes)
      && context.allStems == StemsOf(Finish(p))
  {
    ghost var p := PassOf(context.allWords, wordStemImages, stemImagesOrder,
                          context.documentCount, context.fieldCount, cmp);
    var wordTfArray := context.allWords.tf;
    var wordTfByDocumentArray := context.allWords.tfByDocument;
    var wordsFieldIndices := context.allWords.fieldIndices;
    var allWordsCount := |wordTfArray|;
    var stemIndexesArray := new int[allWordsCount](_ => 0);

    var stemIndex, totalTf, mostFrequentWordFrequency, mostFrequentWordIndex, stemTfByDocument, fieldIndices :=
      StartPass(p, context.documentCount, context.fieldCount, stemImagesOrder[0], wordTfArray[stemImagesOrder[0]],
                wordTfByDocumentArray[stemImagesOrder[0]], wordsFieldIndices[0]);
    var stemImages: seq<Image>, stemTf: seq<int>, stemMostFrequentWordIndexes: seq<int>;
    var stemTfByDocumentList: seq<seq<DocCount>>, fieldIndexList: seq<seq<int>>;
    ghost var g;
    g, stemImages, stemTf, stemMostFrequentWordIndexes, stemTfByDocumentList, fieldIndexList,
      stemIndex, totalTf, mostFrequentWordFrequency, mostFrequentWordIndex :=
      RunPass(p, wordStemImages, stemImagesOrder, wordTfArray, wordTfByDocumentArray, wordsFieldIndices, cmp,
              stemIndex, totalTf, mostFrequentWordFrequency, mostFrequentWordIndex,
              stemIndexesArray, stemTfByDocument, fieldIndices);

    stemImages, stemTf, stemMostFrequentWordIndexes, stemTfByDocumentList, fieldIndexList :=
      CloseLastStem(p, g, wordStemImages[stemImagesOrder[|stemImagesOrder| - 1]], stemImagesOrder[|stemImagesOrder| - 1],
                    stemImages, stemTf, stemMostFrequentWordIndexes, stemTfByDocumentList, fieldIndexList,
                    stemIndex, totalTf, mostFrequentWordFrequency, mostFrequentWordIndex,
                    stemIndexesArray, stemTfByDocument, fieldIndices);

    context.allStems := AllStems(stemImages, stemMostFrequentWordIndexes, stemTf,
                                 stemTfByDocumentList, fieldIndexList);
    context.allWords := context.allWords.(stemIndex := stemIndexesArray[..]);
  }

  /**
   * The counters and buffers before the loop (lines 106-117): the first
   * word in the order opens the first stem.  The field set is seeded with
   * the fields of word 0 rather than of that first word, as line 117 does.
   */
  method StartPass(ghost p: Pass, documentCount: nat, fieldCount: nat, firstInOrderIndex: int, firstTf: int, firstCounts: seq<DocCount>, wordZeroFields: seq<int>)
    returns (stemIndex: int, totalTf: int, mostFrequentWordFrequency: int, mostFrequentWordIndex: int,
             stemTfByDocument: array<int>, fieldIndices: ByteBitSet)
    requires PassShape(p) && FieldsBelow(p)
    requires documentCount == p.documentCount && fieldCount == p.fieldCount
    requires firstInOrderIndex == p.order[0] && firstTf == p.tf[firstInOrderIndex]
    requires firstCounts == p.tfByDocument[firstInOrderIndex] && wordZeroFields == p.fieldIndices[0]
    ensures fresh(stemTfByDocument) && fresh(fieldIndices) && fresh(fieldIndices.bits)
    ensures stemTfByDocument.Length == p.documentCount && fieldIndices.bits.Length == p.fieldCount
    ensures var g := Begin(p);
      && stemIndex == g.stemIndex && totalTf == g.totalTf
      && mostFrequentWordFrequency == g.mostFrequentFrequency && mostFrequentWordIndex == g.mostFrequentIndex
      && stemTfByDocument[..] == g.dense && fieldIndices.Members() == g.members
  {
    totalTf := firstTf;
    mostFrequentWordFrequency := firstTf;
    mostFrequentWordIndex := firstInOrderIndex;
    stemIndex := 0;
    stemTfByDocument := new int[documentCount](_ => 0);
    AddAllFromSparselyEncoded(stemTfByDocument, firstCounts);
    fieldIndices := new ByteBitSet(fieldCount);
    AddAll(fieldIndices, wordZeroFields);
  }

  /**
   * The loop over the sorted order (lines 119-167): every position but the
   * last gets its stem index, and the next word joins or closes the current
   * stem.  The loop follows `StateAt` position by position.
   */
  method RunPass(ghost p: Pass, wordStemImages: seq<Image>, stemImagesOrder: seq<int>, wordTfArray: seq<int>,
                 wordTfByDocumentArray: seq<seq<DocCount>>, wordsFieldIndices: seq<seq<int>>, cmp: Comparator,
                 firstStemIndex: int, firstTotalTf: int, firstFrequency: int, firstIndex: int,
                 stemIndexesArray: array<int>, stemTfByDocument: array<int>, fieldIndices: ByteBitSet)
    returns (ghost g: Progress, stemImages: seq<Image>, stemTf: seq<int>, stemMostFrequentWordIndexes: seq<int>,
             stemTfByDocumentList: seq<seq<DocCount>>, fieldIndexList: seq<seq<int>>,
             stemIndex: int, totalTf: int, mostFrequentWordFrequency: int, mostFrequentWordIndex: int)
    requires PassShape(p) && FieldsBelow(p)
    requires p.images == wordStemImages && p.order == stemImagesOrder && p.tf == wordTfArray && p.cmp == cmp
    requires p.tfByDocument == wordTfByDocumentArray && p.fieldIndices == wordsFieldIndices
    requires stemIndexesArray != stemTfByDocument
    requires stemTfByDocument.Length == p.documentCount && fieldIndices.bits.Length == p.fieldCount
    requires Holds(Begin(p), [], [], [], [], [], firstStemIndex, firstTotalTf, firstFrequency, firstIndex,
                   stemIndexesArray, stemTfByDocument, fieldIndices)
    modifies stemIndexesArray, stemTfByDocument, fieldIndices.bits
    ensures g == StateAt(p, |p.order| - 1)
    ensures Holds(g, stemImages, stemTf, stemMostFrequentWordIndexes, stemTfByDocumentList, fieldIndexList,
                  stemIndex, totalTf, mostFrequentWordFrequency, mostFrequentWordIndex,
                  stemIndexesArray, stemTfByDocument, fieldIndices)
  {
    g := Begin(p);
    stemImages, stemTf, stemMostFrequentWordIndexes, stemTfByDocumentList, fieldIndexList := [], [], [], [], [];
    stemIndex, totalTf, mostFrequentWordFrequency, mostFrequentWordIndex := firstStemIndex, firstTotalTf, firstFrequency, firstIndex;

    for i := 0 to |stemImagesOrder| - 1
      invariant g == StateAt(p, i)
      invariant Holds(g, stemImages, stemTf, stemMostFrequentWordIndexes, stemTfByDocumentList, fieldIndexList,
                      stemIndex, totalTf, mostFrequentWordFrequency, mostFrequentWordIndex,
                      stemIndexesArray, stemTfByDocument, fieldIndices)
    {
      stemImages, stemTf, stemMostFrequentWordIndexes, stemTfByDocumentList, fieldIndexList,
        stemIndex, totalTf, mostFrequentWordFrequency, mostFrequentWordIndex :=
        PassStep(p, g, i, wordStemImages, stemImagesOrder, wordTfArray, wordTfByDocumentArray, wordsFieldIndices, cmp,
                 stemImages, stemTf, stemMostFrequentWordIndexes, stemTfByDocumentList, fieldIndexList,
                 stemIndex, totalTf, mostFrequentWordFrequency, mostFrequentWordIndex,
                 stemIndexesArray, stemTfByDocument, fieldIndices);
      g := Advance(p, g);
    }
  }

  /**
   * The locals and buffers of the pass hold the state `g`: the lists of the
   * closed stems, the counters of the open stem, the stem indexes given so
   * far, and the open stem's dense counts and field set.
   */
  ghost predicate Holds(g: Progress, stemImages: seq<Image>, stemTf: seq<int>, stemMostFrequentWordIndexes: seq<int>,
                        stemTfByDocumentList: seq<seq<DocCount>>, fieldIndexList: seq<seq<int>>,
                        stemIndex: int, totalTf: int, mostFrequentWordFrequency: int, mostFrequentWordIndex: int,
                        stemIndexesArray: array<int>, stemTfByDocument: array<int>, fieldIndices: ByteBitSet)
    reads stemIndexesArray, stemTfByDocument, fieldIndices.bits
  {
    && stemImages == g.stemImages && stemTf == g.stemTf && stemMostFrequentWordIndexes == g.mostFrequent
    && stemTfByDocumentList == g.stemTfByDocument && fieldIndexList == g.fieldIndexList
    && stemIndex == g.stemIndex && totalTf == g.totalTf
    && mostFrequentWordFrequency == g.mostFrequentFrequency && mostFrequentWordIndex == g.mostFrequentIndex
    && stemIndexesArray[..] == g.stemIndexes && stemTfByDocument[..] == g.dense
    && fieldIndices.Members() == g.members
  }

  /**
   * One iteration of the loop (lines 121-166): the word at position `i` gets
   * the current stem index, and the next word joins the current stem or, when
   * the comparator tells their images apart, starts a new one.
   */
  method PassStep(ghost p: Pass, ghost g: Progress, i: int, wordStemImages: seq<Image>, stemImagesOrder: seq<int>,
                  wordTfArray: seq<int>, wordTfByDocumentArray: seq<seq<DocCount>>, wordsFieldIndices: seq<seq<int>>,
                  cmp: Comparator,
                  stemImages: seq<Image>, stemTf: seq<int>, stemMostFrequentWordIndexes: seq<int>,
                  stemTfByDocumentList: seq<seq<DocCount>>, fieldIndexList: seq<seq<int>>,
                  stemIndex: int, totalTf: int, mostFrequentWordFrequency: int, mostFrequentWordIndex: int,
                  stemIndexesArray: array<int>, stemTfByDocument: array<int>, fieldIndices: ByteBitSet)
    returns (stemImages': seq<Image>, stemTf': seq<int>, stemMostFrequentWordIndexes': seq<int>,
             stemTfByDocumentList': seq<seq<DocCount>>, fieldIndexList': seq<seq<int>>,
             stemIndex': int, totalTf': int, mostFrequentWordFrequency': int, mostFrequentWordIndex': int)
    requires PassShape(p) && FieldsBelow(p)
    requires p.images == wordStemImages && p.order == stemImagesOrder && p.tf == wordTfArray && p.cmp == cmp
    requires p.tfByDocument == wordTfByDocumentArray && p.fieldIndices == wordsFieldIndices
    requires g.i == i && 0 <= i < |p.order| - 1 && |g.stemIndexes| == |p.order| && |g.dense| == p.documentCount
    requires stemIndexesArray != stemTfByDocument
    requires stemTfByDocument.Length == p.documentCount && fieldIndices.bits.Length == p.fieldCount
    requires Holds(g, stemImages, stemTf, stemMostFrequentWordIndexes, stemTfByDocumentList, fieldIndexList,
                   stemIndex, totalTf, mostFrequentWordFrequency, mostFrequentWordIndex,
                   stemIndexesArray, stemTfByDocument, fieldIndices)
    modifies stemIndexesArray, stemTfByDocument, fieldIndices.bits
    ensures Holds(Advance(p, g), stemImages', stemTf', stemMostFrequentWordIndexes', stemTfByDocumentList', fieldIndexList',
                  stemIndex', totalTf', mostFrequentWordFrequency', mostFrequentWordIndex',
                  stemIndexesArray, stemTfByDocument, fieldIndices)
  {
    stemImages', stemTf', stemMostFrequentWordIndexes', stemTfByDocumentList', fieldIndexList' :=
      stemImages, stemTf, stemMostFrequentWordIndexes, stemTfByDocumentList, fieldIndexList;
    stemIndex', totalTf', mostFrequentWordFrequency', mostFrequentWordIndex' :=
      stemIndex, totalTf, mostFrequentWordFrequency, mostFrequentWordIndex;
    var stem := wordStemImages[stemImagesOrder[i]];
    var nextInOrderIndex := stemImagesOrder[i + 1];
    var nextStem := wordStemImages[nextInOrderIndex];

    if cmp(stem, nextStem) == 0 {
      totalTf', mostFrequentWordFrequency', mostFrequentWordIndex' :=
        JoinStem(p, g, stemImagesOrder[i], nextInOrderIndex, wordTfArray[nextInOrderIndex],
                 wordTfByDocumentArray[nextInOrderIndex], wordsFieldIndices[nextInOrderIndex],
                 stemImages, stemTf, stemMostFrequentWordIndexes, stemTfByDocumentList, fieldIndexList,
                 stemIndex, totalTf, mostFrequentWordFrequency, mostFrequentWordIndex,
                 stemIndexesArray, stemTfByDocument, fieldIndices);
    } else {
      stemImages', stemTf', stemMostFrequentWordIndexes', stemTfByDocumentList', fieldIndexList',
        stemIndex', totalTf', mostFrequentWordFrequency', mostFrequentWordIndex' :=
        CloseStem(p, g, stem, stemImagesOrder[i], nextInOrderIndex, wordTfArray[nextInOrderIndex],
                  wordTfByDocumentArray[nextInOrderIndex], wordsFieldIndices[nextInOrderIndex],
                  stemImages, stemTf, stemMostFrequentWordIndexes, stemTfByDocumentList, fieldIndexList,
                  stemIndex, totalTf, mostFrequentWordFrequency, mostFrequentWordIndex,
                  stemIndexesArray, stemTfByDocument, fieldIndices);
    }
  }

  /**
   * The word at the current position gets the current stem index (line 126)
   * and the next word joins the current stem (lines 133-143): its tf is added
   * to the stem's total, its counts and fields to the buffers, and it becomes
   * the stem's most frequent word when its tf is strictly larger.
   */
  method JoinStem(ghost p: Pass, ghost g: Progress, inOrderIndex: int, nextInOrderIndex: int, nextTf: int,
                  nextCounts: seq<DocCount>, nextFields: seq<int>,
                  stemImages: seq<Image>, stemTf: seq<int>, stemMostFrequentWordIndexes: seq<int>,
                  stemTfByDocumentList: seq<seq<DocCount>>, fieldIndexList: seq<seq<int>>,
                  stemIndex: int, totalTf: int, mostFrequentWordFrequency: int, mostFrequentWordIndex: int,
                  stemIndexesArray: array<int>, stemTfByDocument: array<int>, fieldIndices: ByteBitSet)
    returns (totalTf': int, mostFrequentWordFrequency': int, mostFrequentWordIndex': int)
    requires PassShape(p) && FieldsBelow(p)
    requires 0 <= g.i < |p.order| - 1 && |g.stemIndexes| == |p.order| && |g.dense| == p.documentCount
    requires inOrderIndex == p.order[g.i]
    requires nextInOrderIndex == p.order[g.i + 1] && nextTf == p.tf[nextInOrderIndex]
    requires nextCounts == p.tfByDocument[nextInOrderIndex] && nextFields == p.fieldIndices[nextInOrderIndex]
    requires p.cmp(p.images[inOrderIndex], p.images[nextInOrderIndex]) == 0
    requires stemIndexesArray != stemTfByDocument
    requires stemTfByDocument.Length == p.documentCount && fieldIndices.bits.Length == p.fieldCount
    requires Holds(g, stemImages, stemTf, stemMostFrequentWordIndexes, stemTfByDocumentList, fieldIndexList,
                   stemIndex, totalTf, mostFrequentWordFrequency, mostFrequentWordIndex,
                   stemIndexesArray, stemTfByDocument, fieldIndices)
    modifies stemIndexesArray, stemTfByDocument, fieldIndices.bits
    ensures Holds(Advance(p, g), stemImages, stemTf, stemMostFrequentWordIndexes, stemTfByDocumentList, fieldIndexList,
                  stemIndex, totalTf', mostFrequentWordFrequency', mostFrequentWordIndex',
                  stemIndexesArray, stemTfByDocument, fieldIndices)
  {
    stemIndexesArray[inOrderIndex] := stemIndex;
    totalTf' := totalTf + nextTf;
    AddWord(stemTfByDocument, fieldIndices, nextCounts, nextFields);
    mostFrequentWordFrequency', mostFrequentWordIndex' := mostFrequentWordFrequency, mostFrequentWordIndex;
    if mostFrequentWordFrequency < nextTf {
      mostFrequentWordFrequency' := nextTf;
      mostFrequentWordIndex' := nextInOrderIndex;
    }
  }

  /**
   * The word at the current position gets the current stem index (line 126)
   * and the next word starts a new stem (lines 146-166): the current stem's
   * image, tf, most frequent word, sparse counts and ascending fields are
   * appended to the lists, and the counters and buffers restart with the
   * next word.
   */
  method CloseStem(ghost p: Pass, ghost g: Progress, stem: Image, inOrderIndex: int, nextInOrderIndex: int, nextTf: int,
                   nextCounts: seq<DocCount>, nextFields: seq<int>,
                   stemImages: seq<Image>, stemTf: seq<int>, stemMostFrequentWordIndexes: seq<int>,
                   stemTfByDocumentList: seq<seq<DocCount>>, fieldIndexList: seq<seq<int>>,
                   stemIndex: int, totalTf: int, mostFrequentWordFrequency: int, mostFrequentWordIndex: int,
                   stemIndexesArray: array<int>, stemTfByDocument: array<int>, fieldIndices: ByteBitSet)
    returns (stemImages': seq<Image>, stemTf': seq<int>, stemMostFrequentWordIndexes': seq<int>,
             stemTfByDocumentList': seq<seq<DocCount>>, fieldIndexList': seq<seq<int>>,
             stemIndex': int, totalTf': int, mostFrequentWordFrequency': int, mostFrequentWordIndex': int)
    requires PassShape(p) && FieldsBelow(p)
    requires 0 <= g.i < |p.order| - 1 && |g.stemIndexes| == |p.order| && |g.dense| == p.documentCount
    requires inOrderIndex == p.order[g.i] && stem == p.images[inOrderIndex]
    requires nextInOrderIndex == p.order[g.i + 1] && nextTf == p.tf[nextInOrderIndex]
    requires nextCounts == p.tfByDocument[nextInOrderIndex] && nextFields == p.fieldIndices[nextInOrderIndex]
    requires p.cmp(stem, p.images[nextInOrderIndex]) != 0
    requires stemIndexesArray != stemTfByDocument
    requires stemTfByDocument.Length == p.documentCount && fieldIndices.bits.Length == p.fieldCount
    requires Holds(g, stemImages, stemTf, stemMostFrequentWordIndexes, stemTfByDocumentList, fieldIndexList,
                   stemIndex, totalTf, mostFrequentWordFrequency, mostFrequentWordIndex,
                   stemIndexesArray, stemTfByDocument, fieldIndices)
    modifies stemIndexesArray, stemTfByDocument, fieldIndices.bits
    ensures Holds(Advance(p, g), stemImages', stemTf', stemMostFrequentWordIndexes', stemTfByDocumentList', fieldIndexList',
                  stemIndex', totalTf', mostFrequentWordFrequency', mostFrequentWordIndex',
                  stemIndexesArray, stemTfByDocument, fieldIndices)
  {
    stemIndexesArray[inOrderIndex] := stemIndex;
    stemImages' := stemImages + [stem];
    stemTf' := stemTf + [totalTf];
    stemMostFrequentWordIndexes' := stemMostFrequentWordIndexes + [mostFrequentWordIndex];
    stemTfByDocumentList' := stemTfByDocumentList + [ToSparseEncoding(stemTfByDocument[..])];
    var fieldArray := fieldIndices.ToArray();
    fieldIndexList' := fieldIndexList + [fieldArray];

    stemIndex' := stemIndex + 1;
    totalTf' := nextTf;
    mostFrequentWordFrequency' := nextTf;
    mostFrequentWordIndex' := nextInOrderIndex;
    RestartStem(stemTfByDocument, fieldIndices, nextCounts, nextFields);
  }

  /**
   * Closes the stem open after the loop (lines 170-175): appends its image,
   * tf, most frequent word, sparse counts and ascending fields to the lists,
   * and gives the last word in the order its stem index.
   */
  method CloseLastStem(ghost p: Pass, ghost g: Progress, stem: Image, lastInOrderIndex: int,
                       stemImages: seq<Image>, stemTf: seq<int>, stemMostFrequentWordIndexes: seq<int>,
                       stemTfByDocumentList: seq<seq<DocCount>>, fieldIndexList: seq<seq<int>>,
                       stemIndex: int, totalTf: int, mostFrequentWordFrequency: int, mostFrequentWordIndex: int,
                       stemIndexesArray: array<int>, stemTfByDocument: array<int>, fieldIndices: ByteBitSet)
    returns (stemImages': seq<Image>, stemTf': seq<int>, stemMostFrequentWordIndexes': seq<int>,
             stemTfByDocumentList': seq<seq<DocCount>>, fieldIndexList': seq<seq<int>>)
    requires PassShape(p)
    requires g == StateAt(p, |p.order| - 1)
    requires lastInOrderIndex == p.order[g.i] && stem == p.images[lastInOrderIndex]
    requires stemIndexesArray != stemTfByDocument && fieldIndices.bits.Length == p.fieldCount
    requires Holds(g, stemImages, stemTf, stemMostFrequentWordIndexes, stemTfByDocumentList, fieldIndexList,
                   stemIndex, totalTf, mostFrequentWordFrequency, mostFrequentWordIndex,
                   stemIndexesArray, stemTfByDocument, fieldIndices)
    modifies stemIndexesArray
    ensures var c := Finish(p);
      && stemImages' == c.stemImages && stemTf' == c.stemTf && stemMostFrequentWordIndexes' == c.mostFrequent
      && stemTfByDocumentList' == c.stemTfByDocument && fieldIndexList' == c.fieldIndexList
      && stemIndexesArray[..] == c.stemIndexes
  {
    stemImages' := stemImages + [stem];
    stemTf' := stemTf + [totalTf];
    stemMostFrequentWordIndexes' := stemMostFrequentWordIndexes + [mostFrequentWordIndex];
    stemIndexesArray[lastInOrderIndex] := stemIndex;
    stemTfByDocumentList' := stemTfByDocumentList + [ToSparseEncoding(stemTfByDocument[..])];
    var fieldArray := fieldIndices.ToArray();
    fieldIndexList' := fieldIndexList + [fieldArray];
  }

  /**
   * Adds one word to the buffers of the current stem: its sparse
   * per-document counts to the dense counts (lines 113-114 and 135-136) and
   * its field indices to the field bit set (lines 117 and 137).
   */
  method AddWord(stemTfByDocument: array<int>, fieldIndices: ByteBitSet,
                 counts: seq<DocCount>, fields: seq<int>)
    requires InBounds(counts, stemTfByDocument.Length)
    requires forall k :: 0 <= k < |fields| ==> 0 <= fields[k] < fieldIndices.bits.Length
    modifies stemTfByDocument, fieldIndices.bits
    ensures stemTfByDocument[..] == AddCounts(old(stemTfByDocument[..]), counts)
    ensures fieldIndices.Members() == old(fieldIndices.Members()) + Elements(fields)
  {
    AddAllFromSparselyEncoded(stemTfByDocument, counts);
    AddAll(fieldIndices, fields);
  }

  /**
   * Starts the buffers of a new stem with one word (lines 160-166): clears
   * the field bit set and adds the word's fields, zeroes the dense counts and
   * adds the word's per-document counts.
   */
  method RestartStem(stemTfByDocument: array<int>, fieldIndices: ByteBitSet,
                     counts: seq<DocCount>, fields: seq<int>)
    requires InBounds(counts, stemTfByDocument.Length)
    requires forall k :: 0 <= k < |fields| ==> 0 <= fields[k] < fieldIndices.bits.Length
    modifies stemTfByDocument, fieldIndices.bits
    ensures stemTfByDocument[..] == Decode(counts, stemTfByDocument.Length)
    ensures fieldIndices.Members() == Elements(fields)
  {
    fieldIndices.Clear();
    AddAll(fieldIndices, fields);
    forall d | 0 <= d < stemTfByDocument.Length {
      stemTfByDocument[d] := 0;
    }
    AddAllFromSparselyEncoded(stemTfByDocument, counts);
  }

  // ---------------------------------------------------------------- from sorted positions to words

  /** The stem table that the closing lists of a pass make up. */
  ghost function StemsOf(c: Closing): AllStems
  {
    AllStems(c.stemImages, c.mostFrequent, c.stemTf, c.stemTfByDocument, c.fieldIndexList)
  }

  /** The tables the pass leaves behind once it has closed the last stem. */
  lemma {:induction false} FinishedState(p: Pass, words: AllWords, stems: AllStems)
    requires PassShape(p) && PassSorted(p) && FieldsBelow(p)
    requires words.tf == p.tf && words.tfByDocument == p.tfByDocument && words.fieldIndices == p.fieldIndices
    requires |words.image| == |p.order|
    requires words.stemIndex == Finish(p).stemIndexes && stems == StemsOf(Finish(p))
    ensures IsStemStatistics(words, stems, p.documentCount, p.images, p.order, p.cmp)
  {
    PassFinish(p);
    PassStatistics(p, words, stems, Finish(p));
  }

  /**
   * The position-by-position account of a finished pass gives the word-level
   * statistics: `stems` closes every stem and `words.stemIndex` covers every position.
   */
  lemma {:induction false} PassStatistics(p: Pass, words: AllWords, stems: AllStems, c: Closing)
    requires PassShape(p)
    requires words.tf == p.tf && words.tfByDocument == p.tfByDocument && words.fieldIndices == p.fieldIndices
    requires |words.image| == |p.order|
    requires words.stemIndex == c.stemIndexes && stems == StemsOf(c)
    requires Closed(p, c)
    ensures IsStemStatistics(words, stems, p.documentCount, p.images, p.order, p.cmp)
  {
    var n, m := |p.order|, StemCount(p.images, p.order);
    assert TableLengths(words, stems, p.images, p.order);
    IndexesFromPass(p, words, stems);
    assert Permuted(words.stemIndex, p.order) == p.groups;
    ImagesFromPass(p, words, stems);
    SumsFromPass(p, words, stems);
    RepresentativesFromPass(p, words, stems, c.bestOf);
    FieldsFromPass(p, words, stems);
  }

  lemma {:induction false} IndexesFromPass(p: Pass, words: AllWords, stems: AllStems)
    requires PassShape(p) && TableLengths(words, stems, p.images, p.order)
    requires IndexedTo(p, |p.order|, words.stemIndex)
    ensures IndexesStems(words, stems, p.images, p.order)
    ensures Permuted(words.stemIndex, p.order) == p.groups
  {
    forall w | 0 <= w < |p.order|
      ensures 0 <= words.stemIndex[w] < |stems.image|
    {
      var j := PositionOf(p.order, |p.order|, w);
      GroupBelowStemCount(p.images, p.order, j);
    }
  }

  lemma {:induction false} ImagesFromPass(p: Pass, words: AllWords, stems: AllStems)
    requires PassShape(p) && TableLengths(words, stems, p.images, p.order)
    requires IndexedTo(p, |p.order|, words.stemIndex) && IndexesStems(words, stems, p.images, p.order)
    requires ClosedImages(p, |p.order|, StemCount(p.images, p.order), stems.image)
    ensures ImagesOfStems(words, stems, p.images, p.order, p.cmp)
  {
    forall w | 0 <= w < |p.order|
      ensures stems.image[words.stemIndex[w]] == p.images[w]
    {
      var j := PositionOf(p.order, |p.order|, w);
    }
  }

  lemma {:induction false} SumsFromPass(p: Pass, words: AllWords, stems: AllStems)
    requires PassShape(p) && TableLengths(words, stems, p.images, p.order)
    requires words.tf == p.tf && words.tfByDocument == p.tfByDocument
    requires Permuted(words.stemIndex, p.order) == p.groups
    requires ClosedTf(p, |p.order|, StemCount(p.images, p.order), stems.tf)
    requires ClosedDocs(p, |p.order|, StemCount(p.images, p.order), stems.tfByDocument)
    ensures SumsOfStems(words, stems, p.images, p.order, p.documentCount)
  {
    TfSums(p.tf, words.stemIndex, p.order, p.groups, stems.tf);
    DocSums(p.tfByDocument, words.stemIndex, p.order, p.groups, stems.tfByDocument, p.documentCount);
  }

  /** Sums over the sorted positions of a stem are the sums over its words. */
  lemma {:induction false} TfSums(tf: seq<int>, stemIndex: seq<int>, order: seq<int>, groups: seq<int>, stemTf: seq<int>)
    requires |stemIndex| == |tf| && IsPermutation(order, |tf|) && Permuted(stemIndex, order) == groups
    requires forall s :: 0 <= s < |stemTf| ==> stemTf[s] == GroupSumTo(Permuted(tf, order), groups, s, |order|)
    ensures forall s :: 0 <= s < |stemTf| ==> stemTf[s] == GroupSum(tf, stemIndex, s)
  {
    forall s | 0 <= s < |stemTf|
      ensures stemTf[s] == GroupSum(tf, stemIndex, s)
    {
      GroupSumPermuted(tf, stemIndex, s, order);
    }
  }

  /** A document's counts in sorted order are its column read through the order. */
  lemma {:induction false} DocColumnPermuted(tfByDocument: seq<seq<DocCount>>, order: seq<int>, d: int)
    requires InRange(order, |tfByDocument|)
    ensures OrderedCounts(tfByDocument, order, d) == Permuted(DocColumn(tfByDocument, d), order)
  {
  }

  /** Per-document sums over the sorted positions of a stem are the sums over its words. */
  lemma {:induction false} DocSums(tfByDocument: seq<seq<DocCount>>, stemIndex: seq<int>, order: seq<int>,
                                   groups: seq<int>, stemDocs: seq<seq<DocCount>>, documentCount: nat)
    requires |stemIndex| == |tfByDocument| && IsPermutation(order, |tfByDocument|) && Permuted(stemIndex, order) == groups
    requires forall s, d :: 0 <= s < |stemDocs| && 0 <= d < documentCount ==>
      CountOf(stemDocs[s], d) == GroupSumTo(OrderedCounts(tfByDocument, order, d), groups, s, |order|)
    ensures forall s, d :: 0 <= s < |stemDocs| && 0 <= d < documentCount ==>
      CountOf(stemDocs[s], d) == GroupSum(DocColumn(tfByDocument, d), stemIndex, s)
  {
    forall s, d | 0 <= s < |stemDocs| && 0 <= d < documentCount
      ensures CountOf(stemDocs[s], d) == GroupSum(DocColumn(tfByDocument, d), stemIndex, s)
    {
      DocColumnPermuted(tfByDocument, order, d);
      GroupSumPermuted(DocColumn(tfByDocument, d), stemIndex, s, order);
    }
  }

  lemma {:induction false} RepresentativesFromPass(p: Pass, words: AllWords, stems: AllStems, bestOf: seq<int>)
    requires PassShape(p) && TableLengths(words, stems, p.images, p.order)
    requires words.tf == p.tf
    requires IndexedTo(p, |p.order|, words.stemIndex) && IndexesStems(words, stems, p.images, p.order)
    requires ClosedBest(p, |p.order|, StemCount(p.images, p.order), stems.mostFrequentOriginalWordIndex, bestOf)
    ensures RepresentativesOfStems(words, stems, p.images, p.order)
  {
    MaximaFromPass(p, words, stems, bestOf);
    TiesFromPass(p, words, stems, bestOf);
  }

  lemma {:induction false} MaximaFromPass(p: Pass, words: AllWords, stems: AllStems, bestOf: seq<int>)
    requires PassShape(p) && TableLengths(words, stems, p.images, p.order)
    requires words.tf == p.tf
    requires IndexedTo(p, |p.order|, words.stemIndex) && IndexesStems(words, stems, p.images, p.order)
    requires ClosedBest(p, |p.order|, StemCount(p.images, p.order), stems.mostFrequentOriginalWordIndex, bestOf)
    ensures var rep := stems.mostFrequentOriginalWordIndex;
      && (forall s :: 0 <= s < |rep| ==> 0 <= rep[s] < |p.order| && words.stemIndex[rep[s]] == s)
      && (forall w :: 0 <= w < |p.order| ==> words.tf[w] <= words.tf[rep[words.stemIndex[w]]])
  {
    var rep := stems.mostFrequentOriginalWordIndex;
    forall s | 0 <= s < |rep|
      ensures 0 <= rep[s] < |p.order| && words.stemIndex[rep[s]] == s
    {
      assert rep[s] == p.order[bestOf[s]];
    }
    forall w | 0 <= w < |p.order|
      ensures words.tf[w] <= words.tf[rep[words.stemIndex[w]]]
    {
      var j := PositionOf(p.order, |p.order|, w);
      var s := p.groups[j];
      assert words.stemIndex[w] == s && s < |rep|;
      assert rep[s] == p.order[bestOf[s]];
      assert p.orderedTf[j] <= p.orderedTf[bestOf[s]];
    }
  }

  lemma {:induction false} TiesFromPass(p: Pass, words: AllWords, stems: AllStems, bestOf: seq<int>)
    requires PassShape(p) && TableLengths(words, stems, p.images, p.order)
    requires words.tf == p.tf
    requires IndexedTo(p, |p.order|, words.stemIndex) && IndexesStems(words, stems, p.images, p.order)
    requires ClosedBest(p, |p.order|, StemCount(p.images, p.order), stems.mostFrequentOriginalWordIndex, bestOf)
    ensures forall j, k {:trigger words.stemIndex[p.order[j]], words.stemIndex[p.order[k]]} ::
      (0 <= j < k < |p.order| && p.order[k] == stems.mostFrequentOriginalWordIndex[words.stemIndex[p.order[k]]]
       && words.stemIndex[p.order[j]] == words.stemIndex[p.order[k]]) ==> words.tf[p.order[j]] < words.tf[p.order[k]]
  {
    var rep := stems.mostFrequentOriginalWordIndex;
    forall j, k | 0 <= j < k < |p.order| && p.order[k] == rep[words.stemIndex[p.order[k]]]
        && words.stemIndex[p.order[j]] == words.stemIndex[p.order[k]]
      ensures words.tf[p.order[j]] < words.tf[p.order[k]]
    {
      GroupBelowStemCount(p.images, p.order, k);
      TieFromPass(p, words, stems, bestOf, j, k);
    }
  }

  lemma {:induction false} TieFromPass(p: Pass, words: AllWords, stems: AllStems, bestOf: seq<int>, j: int, k: int)
    requires PassShape(p) && TableLengths(words, stems, p.images, p.order)
    requires words.tf == p.tf
    requires IndexedTo(p, |p.order|, words.stemIndex)
    requires ClosedBest(p, |p.order|, StemCount(p.images, p.order), stems.mostFrequentOriginalWordIndex, bestOf)
    requires 0 <= j < k < |p.order|
    requires words.stemIndex[p.order[j]] == words.stemIndex[p.order[k]]
    requires p.groups[k] < StemCount(p.images, p.order)
    requires p.order[k] == stems.mostFrequentOriginalWordIndex[p.groups[k]]
    ensures words.tf[p.order[j]] < words.tf[p.order[k]]
  {
    var s := p.groups[k];
    PermutationInjective(p.order, |p.order|, k, bestOf[s]);
    assert p.orderedTf[j] < p.orderedTf[bestOf[s]];
  }

  lemma {:induction false} FieldsFromPass(p: Pass, words: AllWords, stems: AllStems)
    requires PassShape(p) && TableLengths(words, stems, p.images, p.order)
    requires words.fieldIndices == p.fieldIndices
    requires IndexedTo(p, |p.order|, words.stemIndex)
    requires ClosedFields(p, |p.order|, StemCount(p.images, p.order), stems.fieldIndices)
    ensures FieldsOfStems(words, stems, p.images, p.order)
  {
    forall s | 0 <= s < |stems.fieldIndices|
      ensures FieldsTo(p.orderedFields, p.groups, s, |p.order|)
           == MemberFields(words.fieldIndices, words.stemIndex, s, p.order[0])
    {
      FieldsToIsMemberFields(p.orderedFields, p.groups, words.fieldIndices, words.stemIndex, p.order, s);
    }
  }

  /** Read through the order, the fields a stem collects after its first position are its other words' fields. */
  lemma {:induction false} FieldsToIsMemberFields(orderedFields: seq<seq<int>>, groups: seq<int>, fieldIndices: seq<seq<int>>,
                               stemIndex: seq<int>, order: seq<int>, s: int)
    requires 0 < |order| && IsPermutation(order, |order|)
    requires |orderedFields| == |groups| == |fieldIndices| == |stemIndex| == |order|
    requires forall j :: 0 <= j < |order| ==> orderedFields[j] == fieldIndices[order[j]]
    requires forall j :: 0 <= j < |order| ==> stemIndex[order[j]] == groups[j]
    ensures FieldsTo(orderedFields, groups, s, |order|) == MemberFields(fieldIndices, stemIndex, s, order[0])
  {
    var n := |order|;
    var members := MemberFields(fieldIndices, stemIndex, s, order[0]);
    forall f
      ensures f in FieldsTo(orderedFields, groups, s, n) <==> f in members
    {
      FieldsToMembers(orderedFields, groups, s, n, f);
      if f in FieldsTo(orderedFields, groups, s, n) {
        var j :| 0 < j < n && groups[j] == s && f in orderedFields[j];
        if order[j] == order[0] {
          PermutationInjective(order, n, j, 0);
        }
        assert f in members;
      }
      if f in members {
        var w :| 0 <= w < n && stemIndex[w] == s && w != order[0] && f in fieldIndices[w];
        var j := PositionOf(order, n, w);
        assert f in orderedFields[j];
      }
    }
  }
}
