# LanguageModelStemmer, modelled in Dafny

Carrot2's preprocessing pipeline keeps one `PreprocessingContext`. It holds
a word table `AllWords`, with parallel columns `image`, `tf`,
`tfByDocument`, `fieldIndices` and `stemIndex`, and a stem table
`AllStems`. `LanguageModelStemmer.stem` computes a stem image for every
word. The image is the language stemmer's result on the lower-cased word,
or the lower-cased word itself when the stemmer returns `null`. Then
`addStemStatistics` sorts the words by stem image with an indirect sort. In
one pass over that order it builds the stem table: one stem per run of equal
images. The pass records each stem's:

- image;
- total tf;
- most frequent word;
- sparse per-document frequencies;
- ascending field indices.

It also gives every word the index of its stem.

This project models that class and proves what its outputs mean.

- **The context** is the class `PreprocessingContext`. Its fields
  `allWords` and `allStems` are records (`AllWords`, `AllStems`) of
  parallel sequences, and the stemmer replaces them.
- **`Stem` and `AddStemStatistics`** are methods that follow the Java
  code statement by statement:
  - the stemming loop fills an `array` of stem images;
  - the pass writes the stem indexes into an `array<int>`;
  - it accumulates per-document counts in a dense `array<int>`;
  - it collects field indices in a `ByteBitSet` class over an `array<bool>`;
  - the growing result lists are `seq` locals.
- **Collaborators** are parameters:
  - the lower-casing function;
  - the language stemmer, which returns `Option` where Java returns `null`;
  - the comparator `FAST_CHAR_ARRAY_COMPARATOR`;
  - the indirect sorter.

  The comparator and the sorter come with the contracts the stemmer relies
  on:
  - `IsComparator`: zero exactly for equal images, antisymmetric sign;
  - `SorterContract`: a permutation that visits the images in
    non-decreasing order.
- **The reference for the pass** is the ghost function `StemPass.StateAt`.
  It gives the state of the loop at every position, from `Begin` (lines
  105-117) and `Advance` (one iteration, lines 121-166). `Finish`
  closes the last stem (lines 169-175). The methods' postconditions tie the
  arrays, lists and counters to that state. `StateInvariant` and
  `PassFinish` prove what the state means position by position. The lemmas
  in `LanguageModelStemmer` translate that into word-level facts.
- **What `stem` publishes** is `IsStemStatistics`. Its parts:
  - `TableLengths`: every column of both tables has one entry per word or
    per stem, and there are `StemCount` stems.
  - `IndexesStems`: the word at sorted position `j` points at stem
    `GroupOf(j)`, the number of image changes before `j`.
  - `ImagesOfStems`: a word's stem has the word's stem image, and stem
    images strictly ascend under the comparator.
  - `SumsOfStems`: a stem's tf and per-document counts are the sums over
    its words, and its sparse counts are canonical.
  - `RepresentativesOfStems`: the most frequent word belongs to the stem
    and has the largest tf. Every word of the stem before it in sorted order
    has a strictly smaller tf, so ties go to the earliest word.
  - `FieldsOfStems`: the stem's field indices ascend and are the union of
    its words' fields, with the exception below.

  `StemGivesStatistics` proves `IsStemStatistics` for the tables that
  `Stem` leaves behind.

**The first stem's field set.** Line 117 seeds the first stem's field set
with the fields of word 0 (`wordsFieldIndices[0]`). The word at the first
sorted position (`stemImagesOrder[0]`) is not used. The model keeps this as
written: `FieldsOfStems` states that a stem's fields are:

- the fields of its words other than the first sorted word;
- plus, for stem 0 only, the fields of word 0.

When the sorter puts word 0 first, this is the plain union of the fields of
the stem's words. Otherwise stem 0 can hold fields of a word of another stem,
and can lack fields that only the first sorted word has.

The Java method is one block. The model spreads its statements over the
helper methods `SortedPass`, `StartPass`, `RunPass`, `PassStep`,
`JoinStem`, `CloseStem`, `CloseLastStem`, `AddWord` and
`RestartStem`. Three groups of statements change place, and none of the moves
changes what is computed:

- The local references, `allWordsCount` and `stemIndexesArray` (lines
  76-83) come before the empty check of line 85 in Java. The model sets them
  up in `SortedPass`, after the check.
- Java creates the five result lists (lines 99-103) before the counters
  (lines 105-117). The model starts the lists as empty sequences in
  `RunPass`, after `StartPass` has set the counters.
- Line 126 runs before the branch in Java. The model performs it first thing
  in both `JoinStem` and `CloseStem`.

## Model

| member | source | states |
|---|---|---|
| LanguageModelStemmer.Stem | core/carrot2-util-text/src/org/carrot2/text/preprocessing/LanguageModelStemmer.java:38-65 | Each word's stem image is the stemmer's result on the lower-cased word, or the lower-cased word when the stemmer has none. The word and stem tables then are those `addStemStatistics` builds from these images in the sorter's order, and no other word column changes. |
| LanguageModelStemmer.StemImageOf | core/carrot2-util-text/src/org/carrot2/text/preprocessing/LanguageModelStemmer.java:48-61 | The stem image of one word: the stemmer's result on the lower-cased word, or the lower-cased word when the stemmer returns nothing. It is a definition without a contract of its own; `Stem` is proved to store it for every word. |
| LanguageModelStemmer.AddStemStatistics | core/carrot2-util-text/src/org/carrot2/text/preprocessing/LanguageModelStemmer.java:70-189 | Without words, the stem table is empty and the words get no stem indexes. Otherwise the tables are those of the pass over the sorter's order. Only `stemIndex` of the word table changes. |
| LanguageModelStemmer.StemGivesStatistics | core/carrot2-util-text/src/org/carrot2/text/preprocessing/LanguageModelStemmer.java:38-65 | The tables `stem` leaves behind satisfy `IsStemStatistics` for the computed stem images in the sorter's order. |
| LanguageModelStemmer.StatisticsOfSortedOrder | core/carrot2-util-text/src/org/carrot2/text/preprocessing/LanguageModelStemmer.java:70-189 | For every sorted permutation of the words, the tables satisfy all stem statistics. |
| LanguageModelStemmer.NoStemStatistics | core/carrot2-util-text/src/org/carrot2/text/preprocessing/LanguageModelStemmer.java:85-96 | Without words, the empty stem table and the empty stem indexes satisfy the stem statistics. |
| LanguageModelStemmer.SameStemIffSameImage | core/carrot2-util-text/src/org/carrot2/text/preprocessing/LanguageModelStemmer.java:126-131 | Two words get the same stem index exactly when their stem images are equal. |
| LanguageModelStemmer.TotalTfConserved | core/carrot2-util-text/src/org/carrot2/text/preprocessing/LanguageModelStemmer.java:134-171 | The stems' tf values add up to the sum of the words' tf values. |
| LanguageModelStemmer.DocumentTfConserved | core/carrot2-util-text/src/org/carrot2/text/preprocessing/LanguageModelStemmer.java:135-174 | In every document, the stems' counts add up to the words' counts. |
| LanguageModelStemmer.StemTfCoversWord | core/carrot2-util-text/src/org/carrot2/text/preprocessing/LanguageModelStemmer.java:134 | With non-negative tf values, a stem's tf is at least the tf of each of its words. |
| LanguageModelStemmer.StemCountsCoverWord | core/carrot2-util-text/src/org/carrot2/text/preprocessing/LanguageModelStemmer.java:135-165 | With non-negative counts, a stem's count in each document is at least the count of each of its words there. |
| LanguageModelStemmer.FieldsWhenWordZeroFirst | core/carrot2-util-text/src/org/carrot2/text/preprocessing/LanguageModelStemmer.java:115-117 | When the sorted order starts with word 0, every stem's fields are exactly the union of the fields of all its words. |
| LanguageModelStemmer.SortedPass | core/carrot2-util-text/src/org/carrot2/text/preprocessing/LanguageModelStemmer.java:98-188 | For a non-empty order, the new word table is the old one with the stem indexes of the finished pass, and the stem table holds the lists of the finished pass, in the Java column layout. |
| LanguageModelStemmer.StartPass | core/carrot2-util-text/src/org/carrot2/text/preprocessing/LanguageModelStemmer.java:105-117 | Before the loop, the counters hold the first sorted word's tf and index, and stem index 0. The fresh dense buffer holds the first sorted word's per-document counts. The fresh field set holds the fields of word 0. Together this is `Begin`. |
| LanguageModelStemmer.RunPass | core/carrot2-util-text/src/org/carrot2/text/preprocessing/LanguageModelStemmer.java:119-167 | After the loop, the locals and buffers hold the pass state at the last position. |
| LanguageModelStemmer.PassStep | core/carrot2-util-text/src/org/carrot2/text/preprocessing/LanguageModelStemmer.java:121-166 | One iteration moves the locals and buffers from the state at position `i` to the state at `i + 1`. |
| LanguageModelStemmer.JoinStem | core/carrot2-util-text/src/org/carrot2/text/preprocessing/LanguageModelStemmer.java:126-143 | When the comparator calls the next image equal, the current word gets the stem index, and the next word's tf, counts and fields join the current stem. The next word becomes the most frequent word only with a strictly larger tf. The closed lists do not change. |
| LanguageModelStemmer.CloseStem | core/carrot2-util-text/src/org/carrot2/text/preprocessing/LanguageModelStemmer.java:145-166 | When the next image differs, the current stem's image, tf, most frequent word, canonical sparse counts and ascending fields are appended. The stem index goes up by one, and the counters and buffers restart with the next word alone. |
| LanguageModelStemmer.CloseLastStem | core/carrot2-util-text/src/org/carrot2/text/preprocessing/LanguageModelStemmer.java:169-175 | The stem open after the loop is appended like the others. The last sorted word gets its stem index; the result is `Finish`. |
| LanguageModelStemmer.AddWord | core/carrot2-util-text/src/org/carrot2/text/preprocessing/LanguageModelStemmer.java:135-137 | The dense buffer gains the word's sparse counts at each document, and the field set gains exactly the word's fields. |
| LanguageModelStemmer.RestartStem | core/carrot2-util-text/src/org/carrot2/text/preprocessing/LanguageModelStemmer.java:160-165 | The dense buffer holds exactly the word's counts and the field set exactly the word's fields. |
| LanguageModelStemmer.FinishedState | core/carrot2-util-text/src/org/carrot2/text/preprocessing/LanguageModelStemmer.java:98-188 | The tables made from the finished pass over a sorted order satisfy `IsStemStatistics`. |
| LanguageModelStemmer.PassStatistics | core/carrot2-util-text/src/org/carrot2/text/preprocessing/LanguageModelStemmer.java:98-188 | Closing lists that account for every sorted position give the word-level statistics. |
| LanguageModelStemmer.IndexesFromPass | core/carrot2-util-text/src/org/carrot2/text/preprocessing/LanguageModelStemmer.java:126-173 | Assigning `GroupOf` position by position gives every word a stem index below the number of stems, and the one of its sorted position. |
| LanguageModelStemmer.ImagesFromPass | core/carrot2-util-text/src/org/carrot2/text/preprocessing/LanguageModelStemmer.java:147-170 | The stem of every word has that word's stem image, and stem images strictly ascend. |
| LanguageModelStemmer.SumsFromPass | core/carrot2-util-text/src/org/carrot2/text/preprocessing/LanguageModelStemmer.java:134-174 | Tf totals and per-document counts summed over sorted positions equal the sums over each stem's words. The sparse lists are canonical. |
| LanguageModelStemmer.RepresentativesFromPass | core/carrot2-util-text/src/org/carrot2/text/preprocessing/LanguageModelStemmer.java:138-157 | The most frequent word of every stem belongs to it, has the largest tf, and is the earliest sorted word with that tf. |
| LanguageModelStemmer.MaximaFromPass | core/carrot2-util-text/src/org/carrot2/text/preprocessing/LanguageModelStemmer.java:138-157 | The most frequent word of every stem lies in the stem and has the stem's largest tf. |
| LanguageModelStemmer.TiesFromPass | core/carrot2-util-text/src/org/carrot2/text/preprocessing/LanguageModelStemmer.java:138-142 | Every word of a stem sorted before its most frequent word has a strictly smaller tf. |
| LanguageModelStemmer.FieldsFromPass | core/carrot2-util-text/src/org/carrot2/text/preprocessing/LanguageModelStemmer.java:115-175 | Every stem's field list ascends and holds its words' fields, except the first sorted word's. Stem 0 also holds word 0's fields. |
| StemPass.PassBegin | core/carrot2-util-text/src/org/carrot2/text/preprocessing/LanguageModelStemmer.java:105-117 | The state before the loop satisfies every part of the pass invariant. |
| StemPass.Begin | core/carrot2-util-text/src/org/carrot2/text/preprocessing/LanguageModelStemmer.java:105-117 | Reference definition of the state before the loop. The first sorted word opens stem 0, and the field set is seeded from word 0. Its contract states that the buffers have one entry per word and per document; `PassBegin` proves the invariant for it. |
| StemPass.Advance | core/carrot2-util-text/src/org/carrot2/text/preprocessing/LanguageModelStemmer.java:121-166 | Reference definition of one loop iteration. The current word gets the stem index, and the next word joins the stem when the comparator returns zero; otherwise the stem is closed and a new one opens. Its contract states that the position advances by one and the buffer lengths stay; `AdvanceSameStem` and `AdvanceNewStem` prove it keeps the invariant. |
| StemPass.PassSameStem | core/carrot2-util-text/src/org/carrot2/text/preprocessing/LanguageModelStemmer.java:132-144 | Joining the current stem keeps the pass invariant. |
| StemPass.PassNewStem | core/carrot2-util-text/src/org/carrot2/text/preprocessing/LanguageModelStemmer.java:145-166 | Closing the current stem and opening the next keeps the pass invariant, given a sorted order. |
| StemPass.AdvanceSameStem | core/carrot2-util-text/src/org/carrot2/text/preprocessing/LanguageModelStemmer.java:129-144 | One iteration on equal images keeps the invariant. |
| StemPass.AdvanceNewStem | core/carrot2-util-text/src/org/carrot2/text/preprocessing/LanguageModelStemmer.java:145-166 | One iteration on different images keeps the invariant. |
| StemPass.StateInvariant | core/carrot2-util-text/src/org/carrot2/text/preprocessing/LanguageModelStemmer.java:119-167 | Every state the loop reaches satisfies the pass invariant. It covers the current run, the stem indexes given so far, the closed lists, and the counters and buffers of the open stem. |
| StemPass.MembersBelow | core/carrot2-util-text/src/org/carrot2/text/preprocessing/LanguageModelStemmer.java:115-161 | The field set only ever holds indices below the number of fields. |
| StemPass.PassEnd | core/carrot2-util-text/src/org/carrot2/text/preprocessing/LanguageModelStemmer.java:169-175 | Closing the stem open at the last position closes every stem. The number of stems is the final stem index plus one. |
| StemPass.PassFinish | core/carrot2-util-text/src/org/carrot2/text/preprocessing/LanguageModelStemmer.java:98-188 | The finished pass gives every word its stem index and closes all `StemCount` stems with their statistics. |
| StemPass.Finish | core/carrot2-util-text/src/org/carrot2/text/preprocessing/LanguageModelStemmer.java:169-175 | Reference definition of the lists after the loop: the state at the last position with its open stem closed. It is a definition without a contract of its own; `PassFinish` proves what it holds. |
| Ordering.SameGroupIffSameImage | core/carrot2-util-text/src/org/carrot2/text/preprocessing/LanguageModelStemmer.java:129-131 | In an order sorted under a comparator whose zero means equality, two positions lie in the same run exactly when their images are equal. |
| Ordering.GroupBelowStemCount | core/carrot2-util-text/src/org/carrot2/text/preprocessing/LanguageModelStemmer.java:154 | Every position's stem index is below the number of stems. |
| Ordering.GroupOfMonotone | core/carrot2-util-text/src/org/carrot2/text/preprocessing/LanguageModelStemmer.java:154 | Stem indexes never decrease along the sorted order. |
| ByteBitSets.ByteBitSet.constructor | core/carrot2-util-text/src/org/carrot2/text/preprocessing/LanguageModelStemmer.java:115-116 | A new field set has capacity equal to the number of fields and no members. |
| ByteBitSets.ByteBitSet.Add | core/carrot2-util-text/src/org/carrot2/text/preprocessing/LanguageModelStemmer.java:195 | Adding an index inside the capacity adds exactly that member. |
| ByteBitSets.ByteBitSet.Clear | core/carrot2-util-text/src/org/carrot2/text/preprocessing/LanguageModelStemmer.java:160 | Clearing leaves no members. |
| ByteBitSets.ByteBitSet.ToArray | core/carrot2-util-text/src/org/carrot2/text/preprocessing/LanguageModelStemmer.java:152 | The array lists the members in strictly ascending order, each once. |
| ByteBitSets.AddAll | core/carrot2-util-text/src/org/carrot2/text/preprocessing/LanguageModelStemmer.java:191-197 | The set gains exactly the values of the array. |
| ByteBitSets.AscendingBelowLists | core/carrot2-util-text/src/org/carrot2/text/preprocessing/LanguageModelStemmer.java:175 | The ascending listing below a bound is strictly increasing and lists exactly the members below the bound. |
| SparseCodec.AddAllFromSparselyEncoded | core/carrot2-util-text/src/org/carrot2/text/preprocessing/LanguageModelStemmer.java:113-114 | Each document's dense count grows by the count the sparse list records for it. |
| SparseCodec.ToSparseEncodingDecodes | core/carrot2-util-text/src/org/carrot2/text/preprocessing/LanguageModelStemmer.java:151 | The sparse form of a dense array is canonical: in bounds, ascending by document, no zeros. It decodes back to the array. |
| SparseCodec.ToSparseEncoding | core/carrot2-util-text/src/org/carrot2/text/preprocessing/LanguageModelStemmer.java:151 | The sparse form of a dense count array. It is a definition without a contract of its own; `ToSparseEncodingDecodes` and `SparseRoundTrip` prove that it is canonical and inverse to decoding. |
| SparseCodec.SparseRoundTrip | core/carrot2-util-text/src/org/carrot2/text/preprocessing/LanguageModelStemmer.java:174 | Encoding the decoding of a canonical sparse list gives the list back. |
| SparseCodec.WellFormedUnique | core/carrot2-util-text/src/org/carrot2/text/preprocessing/LanguageModelStemmer.java:174 | Two canonical sparse lists recording the same counts are equal, so a stem's sparse counts are determined by its dense counts. |
| SparseCodec.EncodePrefixCounts | core/carrot2-util-text/src/org/carrot2/text/preprocessing/LanguageModelStemmer.java:151 | Encoding a prefix of a dense array gives a canonical list of that prefix's documents, with the prefix's counts. |
| Sums.SumOfGroupSums | core/carrot2-util-text/src/org/carrot2/text/preprocessing/LanguageModelStemmer.java:134-171 | When every word belongs to one stem, the per-stem sums add up to the total. |
| Sums.PermutationInjective | core/carrot2-util-text/src/org/carrot2/text/preprocessing/LanguageModelStemmer.java:72-73 | The sorted order lists each word at one position only. |

## Left out

- Lower-casing (`CharArrayUtils.toLowerCase`) and the language stemmer are function parameters. The `MutableCharArray` buffer reused across calls (lines 40 and 49) is not modelled. Converting the stemmer's `CharSequence` to a `char[]` (line 54) is the identity on images.
- `FAST_CHAR_ARRAY_COMPARATOR` and `IndirectSorter.sort` are parameters. They are described only by the contracts above: a zero result means equal images, the sign is antisymmetric, and the sort returns a sorted permutation. Their algorithms are not modelled.
- The sparse encoding of `IntArrayUtils` is modelled as an ascending list of (document, count) pairs without zeros. Its `int[]` layout is not modelled, and neither are the internals of `toSparseEncoding` and `addAllFromSparselyEncoded` beyond their effect on counts.
- `originalWordIndexesSet` (lines 109-110, 143, 158-159) is written but never read, so it is not modelled.
- 32-bit overflow is not modelled: tf totals and counts are unbounded integers. Java's `int` sums would wrap.
- The `(byte)` cast of the field count (line 116) is not modelled. The precondition `WordTableShape` demands fewer than 128 fields, which the cast leaves unchanged. Field indices are `int` values below that count rather than `byte`s.
- Converting the result lists to arrays (lines 178-185) is modelled as storing the sequences.
- `SortedPass` reads the stem images as a sequence snapshot. Nothing writes to the image array during the pass, so aliasing is not modelled.
- The empty case's `new int[context.allWords.image.length]` (line 93) is modelled as the empty sequence. The sorter's permutation has one entry per word, so an empty order means no words.
- Malformed word tables are not modelled. `WordTableShape` demands that the columns have one length and that document and field indices are in range. Java would throw an exception on such input, and those error paths are not modelled.
