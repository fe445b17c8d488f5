# Movie search engine core, modelled in Dafny

This project models the indexing and retrieval core of a small IMDb movie search engine written in Python, and proves properties of it:

- **Inverted index** (`Indexer`, `Postings`). The index has a document table keyed by id and three postings dictionaries `term -> {id -> tf}`, one each for stars, genres and summaries. It supports batch build, in-place add and remove, posting lookup and the built-in add/remove self-check.
  - Star and summary entries are split on whitespace before indexing.
  - Genre entries are indexed whole.
- **Scorer** (`Scorer`): the candidate documents of a query, the memoised document frequency with its 0.1 fallback, Okapi BM25, and the vector-space model under a scheme such as `ltc.lnc`. That covers the scheme read by position, the idf loop, the filling of the document matrix and the query vector, idf scaling, cosine normalisation and the final product.
- **Search** (`Search`). Search computes one score dictionary per weighted field, merges them weighted into `final_scores`, sorts stably by descending score and truncates to `max_results`.
- **MinHash/LSH** (`Lsh`): word shingles, the characteristic matrix, min-position signatures under given permutations, banded buckets and Jaccard similarity.
- **Retrieval metrics** (`Evaluation`): precision, recall, F1, AP, MAP, rate score, RR and MRR.
- **Spell correction** (`SpellCorrection`): `$`-padded bigrams, the corpus word counter, the top-5 candidate choice and the frequency re-ranking.
- **Snippets** (`Snippet`): a ±n token window around the first occurrence of each query word, with that word marked `***w***`.
- **Text preprocessing** (`Preprocess`): tokenising, stop-word filtering, punctuation replacement and link removal.
- **Crawler URL helpers** (`Crawler`): the id ↔ title-URL round trip and the plot-summary and review links.

Helper modules:
- `Wrappers` holds `Option`, `Result` and the Python exceptions the core can raise (`KeyError`, `IndexError`, `ZeroDivisionError`, `ValueError`, `AssertionError`).
- `Seqs`, `Text` and `Reals` hold sequence, whitespace-split and real-arithmetic facts.

Modelling conventions:
- Python dictionaries whose insertion order matters are a pair of an order sequence and a map:
  - `Search.Scores` for the score dictionaries;
  - `SpellCorrection.Vocabulary` for the word counter.
- Floats are `real`. The natural logarithm is a parameter `ln`.
- The vector-space scorer takes a `Scorer.VectorSpace` value with two parts. `termOrder` is the order in which an index dictionary yields its terms (its insertion order, which a map does not keep). `inverseNorm` is the reciprocal of a vector's Euclidean norm, by which `v / np.linalg.norm(v)` multiplies.
- Where the source would raise an exception, the model returns it as a `Failure`.
- The crawler's docstring offers `https://www.imdb.com/title/tt0111161/?ref_=chttp_t_1` as an example with id `tt0111161`, but the anchored pattern rejects it. The model follows the code (`Crawler.RefLinkRejected`).

## Model

Source paths are relative to the repository root.

| member | source | states |
|---|---|---|
| Postings.AddTermDoc | Logic/core/indexer/index.py:122-127 | the term becomes a key; the (term, id) count rises by exactly 1; every other count is unchanged; tf ≥ 1 and no empty posting is kept |
| Postings.AddTerms | Logic/core/indexer/index.py:141-150 | adding a token list makes each token a key and raises each (token, id) count by the token's number of occurrences; other ids are untouched |
| Postings.AddTermsPostingIds | Logic/core/indexer/index.py:139-150 | for an id not yet posted, a term's posting gains exactly that id if the term is among the added tokens, and is unchanged otherwise |
| Postings.RemoveTermDoc | Logic/core/indexer/index.py:168-170 | `del` raises KeyError exactly when the term or the id is missing. Otherwise the (term, id) entry is gone, an emptied posting is dropped, and every other entry is unchanged |
| Postings.RemoveTerms | Logic/core/indexer/index.py:166-182 | finishing implies the tokens were distinct. When it finishes, exactly the id's counts for those tokens become 0. Distinct tokens that are all posted for the id always finish |
| Postings.AddRemoveTermsRoundTrip | Logic/core/indexer/index.py:141-182 | removing distinct tokens just added for an unposted id restores the postings exactly |
| Postings.AddRemoveEachTermRoundTrip | Logic/core/indexer/index.py:166-182 | removing each added term's entry once restores the postings for any token list, repeats included |
| Indexer.DocumentTableContents | Logic/core/indexer/index.py:41-45 | the table's keys are exactly the ids of the input documents; each maps to a document with that id, the last one with the id winning |
| Indexer.BuildPostingsCounts | Logic/core/indexer/index.py:57-99 | a field's postings are well-formed, and each (term, id) count is the term's number of occurrences in that field over the documents with that id (stars and summaries split, genres whole) |
| Indexer.BuildIsConsistent | Logic/core/indexer/index.py:16-28 | when the ids are distinct, the built index is consistent: each field counts exactly the field terms of the stored documents |
| Indexer.AddPreservesConsistency | Logic/core/indexer/index.py:139-150 | adding a document keeps the index consistent |
| Indexer.AddGainsExactlyTheId | Logic/core/indexer/index.py:139-150 | after adding a new document, each of its field terms' postings gains exactly its id, and every other term keeps its posting |
| Indexer.StoredTermsPosted | Logic/core/indexer/index.py:122-127 | in a consistent index, every field term of a stored document is posted for it with tf ≥ 1 |
| Indexer.RemoveSucceedsIffNoRepeats | Logic/core/indexer/index.py:161-184 | removing a stored document finishes without KeyError exactly when none of its three fields repeats a term |
| Indexer.RemovePreservesConsistency | Logic/core/indexer/index.py:161-184 | a removal that finishes leaves the index consistent |
| Indexer.AddRemoveRoundTrip | Logic/core/indexer/index.py:198-238 | adding a new document whose fields repeat no term, then removing it, restores the whole index and reports success |
| Indexer.RepeatedSummaryWordBreaksRoundTrip | Logic/core/indexer/index.py:166-170 | as written: after adding a document with summary `good good` to an empty index, its removal raises KeyError |
| Indexer.AddRemoveCorrectedRoundTrip | Logic/core/indexer/index.py:161-184 | with each term's entry deleted once, removing any newly added document restores the index exactly |
| Indexer.RemoveCorrectedPreservesConsistency | Logic/core/indexer/index.py:161-184 | the corrected removal keeps the index consistent for every id |
| Indexer.FirstAddMismatch | Logic/core/indexer/index.py:206-228 | the add check finds no mismatch exactly when every checked term is posted after the add and its posting gained exactly the dummy id |
| Indexer.AddChecksPass | Logic/core/indexer/index.py:206-228 | after adding a new document to a consistent index, every check on one of its field terms passes |
| Indexer.AddCheckPasses | Logic/core/indexer/index.py:206-208 | one such check: the term is posted after the add, and the ids gained are exactly the new id |
| Indexer.CheckPassesOnFreshIndex | Logic/core/indexer/index.py:186-238 | on a consistent index without id `100`, every add check on the dummy document passes, and removing it restores the index |
| Indexer.Index.constructor | Logic/core/indexer/index.py:16-28 | the four tables are those built from the documents; the state is consistent when ids are distinct |
| Indexer.Index.IndexDocuments | Logic/core/indexer/index.py:41-45 | the loop builds the document table described by DocumentTableContents |
| Indexer.Index.IndexField | Logic/core/indexer/index.py:57-99 | the nested loops build the field postings described by BuildPostingsCounts |
| Indexer.Index.AddEachTerm | Logic/core/indexer/index.py:149-150 | the token loop yields the postings AddTerms describes |
| Indexer.Index.AddSplitTerms | Logic/core/indexer/index.py:141-147 | the loop over entries, each split on whitespace, yields AddTerms of the flattened tokens |
| Indexer.Index.RemoveEachTerm | Logic/core/indexer/index.py:179-182 | the `del` loop reports KeyError and the postings exactly as RemoveTerms does |
| Indexer.Index.RemoveSplitTerms | Logic/core/indexer/index.py:166-176 | the same, for entries split on whitespace |
| Indexer.Index.AddDocument | Logic/core/indexer/index.py:139-150 | a stored id leaves the index unchanged. Otherwise the record is stored, and each field gains the document's terms |
| Indexer.Index.RemoveDocument | Logic/core/indexer/index.py:161-184 | an absent id changes nothing. A removal that finishes deletes the record. A KeyError leaves the record and keeps the partly updated postings |
| Indexer.Index.GetPostingList | Logic/core/indexer/index.py:117-120 | for a field: exactly the ids with tf ≥ 1 for the word. For `documents`: all keys of the stored record, its three indexed fields, `id` and its other fields. Nothing for an unknown word or index type, and it never fails |
| Indexer.Index.CheckAddRemoveIsCorrect | Logic/core/indexer/index.py:186-238 | on a consistent index without id `100` it reports that remove is correct and leaves the index as it was. When `100` holds another document it reports the document mismatch. When `100` already holds the test document the add changes nothing, so it reports `tim`, or raises KeyError when `tim` is not posted |
| Scorer.CandidatesMembership | Logic/core/scorer.py:43-47 | an id is a candidate exactly when a query term present in the index posts it |
| Scorer.Scorer.GetListOfDocuments | Logic/core/scorer.py:43-47 | the list has no duplicates and holds exactly the ids posted under a query term present in the index |
| Scorer.Scorer.GetIdf | Logic/core/scorer.py:67-75 | returns the cached value if there is one. Otherwise it returns the posting length of an indexed term or 0.1, and caches it. The returned value is positive for a well-formed index |
| Scorer.OkapiBounds | Logic/core/scorer.py:186-187 | for tf > 0, a non-negative length ratio, 0 ≤ b < 1 and k1 > 0, the saturated tf is defined and lies strictly between 0 and k1 + 1 |
| Scorer.OkapiIncreasing | Logic/core/scorer.py:186-187 | under the same conditions the saturated tf strictly increases with tf |
| Scorer.Scorer.ComputeScoresWithOkapiBm25 | Logic/core/scorer.py:209-227 | succeeds exactly when no entry raises. The keys are then exactly the candidate documents, and each value is the BM25 sum over query positions. Failures are KeyError for a candidate without a length, or ZeroDivisionError |
| Scorer.ColumnScoreIsBm25 | Logic/core/scorer.py:223-225 | the column sum of the idf-weighted matrix equals the per-document BM25 sum over query positions |
| Scorer.Bm25Append | Logic/core/scorer.py:223-225 | the BM25 score of a concatenated query is the sum of the two queries' scores |
| Scorer.Bm25Repeated | Logic/core/scorer.py:211-225 | a term repeated k times in the query contributes k times its single contribution |
| Scorer.Bm25IgnoresAbsentTerms | Logic/core/scorer.py:216-218 | dropping the query terms missing from the index leaves every score unchanged |
| Scorer.ParseSchemeByPosition | Logic/core/scorer.py:118-152 | character 3 is never read; the document side depends only on characters 0-2, and the query side only on characters 4-6 |
| Scorer.SideWeights | Logic/core/scorer.py:124-134 | `n` weighs by the raw tf (the raw count in the query), `l` by log + 1 of it, any other letter by 0, and an unposted document by 0. `t` multiplies the weight by `log(N / df)` |
| Scorer.Scorer.FillDocumentWeights | Logic/core/scorer.py:123-130 | the nested loops fill one row per index term and one column per candidate with the tf weight of the letter, 0 where the document is not posted |
| Scorer.Scorer.FillQueryWeights | Logic/core/scorer.py:141-147 | the loop fills the query weight of each index term, 0 for a term absent from the query |
| Scorer.Scorer.CombineWeights | Logic/core/scorer.py:132-158 | idf scaling, column and query normalisation (the query only when its sum is positive) and the product give, for each candidate, its `VsmScore` |
| Scorer.Scorer.ComputeScoresWithVectorSpaceModel | Logic/core/scorer.py:116-158 | the method, including its early exits, computes exactly `VsmScores`, and keeps the idf cache valid |
| Scorer.VsmScoresOutcome | Logic/core/scorer.py:116-158 | the scores are keyed exactly by the ids posted under a query term in the index. The only failures are IndexError, which always happens for a scheme shorter than 7 characters, and ZeroDivisionError, which needs an empty posting. A well-formed index fails exactly for a short scheme |
| Scorer.VsmSchemeByPosition | Logic/core/scorer.py:118-152 | two schemes of at least 7 characters that agree at positions 0-2 and 4-6 give the same outcome |
| Scorer.RawSchemeScores | Logic/core/scorer.py:123-158 | under `nn?.nn?` without `t` or `c` each score is the sum over index terms of query count times tf. If the term order lists every index term, each candidate scores at least 1 |
| Search.MergeScoresMeaning | Logic/core/search.py:157-160 | after a merge each key's score is its old score (0 if absent) plus the new score times the weight. The keys are the union, new keys are appended in their order, and other keys are unchanged |
| Search.MergeScores | Logic/core/search.py:157-160 | the loop keeps the dictionary well-formed and reaches the merge MergeScoresMeaning describes |
| Search.AggregateMeaning | Logic/core/search.py:90-91 | aggregation succeeds exactly when every weighted field has scores, and raises KeyError otherwise. On success each document's score is the weighted sum over fields, counting 0 where it is unscored, and the keys are the documents scored in some field |
| Search.AggregateScores | Logic/core/search.py:90-91 | the loop over weights gives that result |
| Search.SortDescending | Logic/core/search.py:71 | the sort is a permutation of the items in non-increasing score order |
| Search.SortIsStable | Logic/core/search.py:71 | items of equal score keep their `final_scores` insertion order |
| Search.SliceEnd | Logic/core/search.py:72-73 | `[:m]` keeps everything for None, `min(m, len)` items for m ≥ 0, and `max(len + m, 0)` items for negative m |
| Search.TruncateKeepsBest | Logic/core/search.py:72-73 | truncating a descending list keeps it descending, and no dropped item outscores a kept one |
| Search.TruncateBounds | Logic/core/search.py:72-73 | `max_results = 0` gives no results, and None gives all |
| Search.RankingScaleInvariant | Logic/core/search.py:69-73 | scaling every weight by c > 0 scales every returned score by c and returns the same documents in the same order |
| Search.RankIsRanking | Logic/core/search.py:71-73 | the result has distinct documents, each with its final score, best first, the slice length; no unreturned document outscores a returned one |
| Search.RankKeepsBest | Logic/core/search.py:71-73 | no document left out outscores one returned |
| Search.NothingScored | Logic/core/search.py:111-114 | with unsafe ranking no field is scored, so aggregation succeeds only for empty weights |
| Search.SearchEngine.FindScoresWithSafeRanking | Logic/core/search.py:132-137 | succeeds exactly when every weighted field's scorer succeeds. It then holds one score map per weighted field, keyed by that field's candidate documents: BM25 exactly for `OkapiBM25`, `VsmScores` otherwise. Every failure is KeyError, IndexError or ZeroDivisionError, and a BM25 failure is KeyError or ZeroDivisionError |
| Search.SearchEngine.FieldMapKeys | Logic/core/search.py:132-137 | under either scorer, a field's score map is keyed by the documents posted in that field under a query term |
| Search.SearchEngine.VsmFieldsOk | Logic/core/search.py:132-137 | for a vector-space scheme over well-formed field indexes, every weighted field scores exactly when the scheme has at least 7 characters or no field is weighted |
| Search.SearchEngine.Search | Logic/core/search.py:58-75 | unsafe ranking returns `[]` for empty weights and KeyError otherwise. Safe ranking succeeds exactly when every field scores, and then returns a ranking of a `final_scores` keyed by the union of the field maps whose values are the weighted sums. With FieldMapKeys, those keys are the candidates of the weighted fields |
| Search.ScoredKeys | Logic/core/search.py:90-91 | the documents scored by aggregation are exactly those keyed in some weighted field's scores |
| Search.SearchEngine.ScoredIsUnion | Logic/core/search.py:90-91 | the documents scored by aggregation are exactly the union of the field score maps' keys |
| Search.SearchEngine.TotalIsWeightedSum | Logic/core/search.py:90-91 | each aggregated score is the weighted sum of the field scores |
| Lsh.ShingleBounds | Logic/core/LSH.py:39-44 | a document of n words has at most n - k + 1 shingles, and none exactly when n < k |
| Lsh.ShingleSplitsToWindow | Logic/core/LSH.py:41-43 | every shingle splits back into k consecutive words of the document |
| Lsh.ShingleDocument | Logic/core/LSH.py:39-44 | the loop builds exactly the set of k-word windows joined by single spaces |
| Lsh.AllShinglesMembership | Logic/core/LSH.py:59-64 | a shingle is in the corpus set exactly when some document has it |
| Lsh.MinHashLsh.BuildCharacteristicMatrix | Logic/core/LSH.py:59-75 | one row per distinct corpus shingle and one column per document, with a 1 exactly where the document has the shingle |
| Lsh.FirstOneIsMinHash | Logic/core/LSH.py:94-96 | the first 1 in a column, in permutation order, is the MinHash of that document's shingle set |
| Lsh.MinHashInfinity | Logic/core/LSH.py:89-96 | under a permutation of the rows, the signature stays ∞ exactly for a document without shingles |
| Lsh.MinHashAgreement | Logic/core/LSH.py:92-96 | two shingle sets get the same finite MinHash exactly when the first row of their union, in permutation order, lies in their intersection |
| Lsh.MinHashLsh.MinHashSignature | Logic/core/LSH.py:87-98 | `sig[h, d]` is the least position whose permuted row is in document d's shingle set, or ∞. Documents with equal shingle sets get equal columns |
| Lsh.BucketsMembership | Logic/core/LSH.py:120-127 | a document is in the bucket keyed (slice, band) exactly when the band is in range and its signature slice for that band is that slice |
| Lsh.OneBucketPerBand | Logic/core/LSH.py:121-125 | for each band every document is listed exactly once, in exactly one bucket |
| Lsh.SameBucketIff | Logic/core/LSH.py:122-125 | two documents share a bucket of a band exactly when their signature slices for that band are equal |
| Lsh.BandPastEndJoinsAll | Logic/core/LSH.py:122 | a band lying past the last signature row puts every document in the same bucket, the one with the empty slice |
| Lsh.MinHashLsh.LshBuckets | Logic/core/LSH.py:120-127 | the band and document loops build exactly the bucket map the lemmas above describe, each list ascending |
| Lsh.MinHashLsh.PerformLsh | Logic/core/LSH.py:138-139 | the buckets are those of the MinHash signature of the documents under the given permutations, with 10 bands of 10 rows |
| Lsh.JaccardProperties | Logic/core/LSH.py:157-160 | the score lies in [0, 1] and is symmetric; it is 1 exactly for equal non-empty sets, and 0 exactly for disjoint sets (including two empty ones) |
| Evaluation.Precision | Logic/core/utility/evaluation.py:30 | defined exactly when `predicted` is non-empty (ZeroDivisionError otherwise) |
| Evaluation.PrecisionBounds | Logic/core/utility/evaluation.py:30 | precision lies in [0, 1]. It is 0 exactly when no prediction is relevant, and 1 exactly when the predictions are distinct and all relevant |
| Evaluation.Recall | Logic/core/utility/evaluation.py:51-56 | None exactly when `actual` is empty |
| Evaluation.RecallBounds | Logic/core/utility/evaluation.py:54-56 | recall lies in [0, 1]. It is 0 exactly when no relevant id is predicted, and 1 exactly when the relevant ids are distinct and all predicted |
| Evaluation.HarmonicMeanBetween | Logic/core/utility/evaluation.py:78 | `2pr/(p+r)` lies between p and r |
| Evaluation.F1Outcome | Logic/core/utility/evaluation.py:74-81 | F1 raises (ZeroDivisionError) exactly for empty `predicted`. It is None exactly when `actual` is empty or no prediction is relevant |
| Evaluation.F1Bounds | Logic/core/utility/evaluation.py:74-81 | a defined F1 lies in (0, 1], between precision and recall |
| Evaluation.AveragePrecisionBounds | Logic/core/utility/evaluation.py:99-113 | AP lies in [0, 1], and is positive exactly when some prediction is relevant |
| Evaluation.CalculateAp | Logic/core/utility/evaluation.py:99-113 | the accumulator loop computes the mean of precision at each relevant rank (0 without hits) |
| Evaluation.MeanAveragePrecisionBounds | Logic/core/utility/evaluation.py:131-139 | MAP succeeds exactly when both lists have the same non-zero length, and then lies in [0, 1] |
| Evaluation.CalculateMap | Logic/core/utility/evaluation.py:131-139 | the loop computes MAP with the source's errors: IndexError for a shorter `actual`, the length assertion, and ZeroDivisionError for empty lists |
| Evaluation.RateScore | Logic/core/utility/evaluation.py:164-169 | 0 for an absent id, otherwise in (0, 1], and 1 exactly for the first relevant id |
| Evaluation.RateScoreDecreasing | Logic/core/utility/evaluation.py:164-169 | over distinct relevant ids the rate score strictly decreases with position |
| Evaluation.ReciprocalRankBounds | Logic/core/utility/evaluation.py:232-239 | RR lies in [0, 1]. It is 1 exactly when the first prediction is relevant, and 0 exactly when none is |
| Evaluation.CalculateRr | Logic/core/utility/evaluation.py:232-239 | the loop with `break` computes `1/(i+1)` for the first relevant position i, or 0 |
| Evaluation.CalculateMrr | Logic/core/utility/evaluation.py:257-265 | the loop computes MRR as written: RR with the two lists of each pair swapped, divided by `len(predicted)` |
| Evaluation.MrrSwapCounterexample | Logic/core/utility/evaluation.py:260-261 | as written, MRR of actual `[["b"]]` and predicted `[["a","b"]]` is 1.0, while the intended value is 0.5 |
| Evaluation.MeanReciprocalRankBounds | Logic/core/utility/evaluation.py:257-265 | corrected MRR lies in [0, 1]. It is 1 exactly when every query's first prediction is relevant |
| SpellCorrection.BigramsFacts | Logic/core/spell_correction.py:31-35 | the shingle set is never empty and has at most L + 1 two-character elements. It holds `$` + first letter and last letter + `$`, and is `{"$$"}` for the empty word |
| SpellCorrection.ShingleWord | Logic/core/spell_correction.py:31-35 | the loop collects exactly the bigrams of the `$`-padded word |
| SpellCorrection.JaccardOnShingles | Logic/core/spell_correction.py:55 | on two shingle sets the unguarded Jaccard never divides by zero. It lies in [0, 1], and is 1 exactly for equal shingle sets |
| SpellCorrection.AddTermsMeaning | Logic/core/spell_correction.py:77-83 | the counter's keys are the tokens and each count is the token's number of occurrences; the shingle dictionary has the same keys and maps each word to its bigrams |
| SpellCorrection.CountTerms | Logic/core/spell_correction.py:78-83 | the inner loop updates both dictionaries as AddTerms describes |
| SpellCorrection.ShinglingAndCounting | Logic/core/spell_correction.py:73-85 | the document loop builds the vocabulary of all whitespace tokens of the corpus |
| SpellCorrection.SpellCorrection.constructor | Logic/core/spell_correction.py:13 | `word_counter[t]` is the number of occurrences of t among all tokens, for exactly the tokens that occur |
| SpellCorrection.TopIndices | Logic/core/spell_correction.py:108-109 | `min(5, n)` distinct indices, none outscored by an index left out |
| SpellCorrection.NearestFromIndices | Logic/core/spell_correction.py:102-113 | the words at those indices are `min(5, size)` distinct vocabulary words, none less similar than a word left out |
| SpellCorrection.SortByWeight | Logic/core/spell_correction.py:119 | the result is a permutation in non-increasing weight order |
| SpellCorrection.NearestPermutation | Logic/core/spell_correction.py:117-119 | reordering the candidates keeps them the nearest words |
| SpellCorrection.RerankByFrequency | Logic/core/spell_correction.py:111-119 | the candidates are reordered by similarity times relative corpus frequency |
| SpellCorrection.SpellCorrection.FindNearestWords | Logic/core/spell_correction.py:102-119 | it fails with ValueError exactly on an empty vocabulary. Otherwise it returns the `min(5, size)` nearest distinct vocabulary words, ordered by frequency-weighted similarity |
| SpellCorrection.SpellCorrection.SpellCheck | Logic/core/spell_correction.py:136-138 | returns that list of words, not a single string |
| Snippet.QueryWords | Logic/core/snippet.py:28-34 | splitting the cleaned query gives back exactly its non-stop-word tokens in order |
| Snippet.MarkedWindowFacts | Logic/core/snippet.py:67-76 | the window has at most 2n + 1 tokens: `min(n, i)` before the first occurrence i and `min(n, len - i - 1)` after it. It holds the mark at the occurrence, and copies every other token unchanged |
| Snippet.Snippet.MarkWindow | Logic/core/snippet.py:67-76 | the three slicing cases and the re-found index give exactly that marked window |
| Snippet.ExtractPartition | Logic/core/snippet.py:66-79 | every query word gives either one window or one entry in `not_exist_words`, which holds exactly the words absent from the document |
| Snippet.FindSnippetFacts | Logic/core/snippet.py:56-82 | None exactly for documents of fewer than 2n + 1 tokens. Otherwise the missing words are the non-stop query words absent from the document, and the snippet is empty exactly when none occurs |
| Snippet.Snippet.FindSnippet | Logic/core/snippet.py:56-82 | the query loop returns exactly the extraction FindSnippetFacts describes |
| Preprocess.RemoveStopwordsFacts | Logic/core/preprocess.py:141-142 | the result keeps, in order and with their multiplicity, exactly the tokens whose lower-case form is not a stop word |
| Preprocess.RemovePunctuationsFacts | Logic/core/preprocess.py:107-108 | length is kept, word and space characters stay, every other character becomes a space, and a second pass changes nothing |
| Preprocess.RemoveLinks | Logic/core/preprocess.py:84-90 | the loop applies the six substitutions in order |
| Preprocess.SubSplit | Logic/core/preprocess.py:88 | one substitution removes exactly the whitespace-delimited runs its pattern matches |
| Preprocess.RemoveLinksFacts | Logic/core/preprocess.py:84-90 | the remaining tokens are those no pattern matches, in order; none contains `http`, `www` or `@` |
| Crawler.MatchPatternIff | Logic/core/crawler.py:37 | the pattern matches with group `id` exactly when `id` is `tt` + 4 to 8 digits and the URL is its title URL, optionally followed by one newline |
| Crawler.UrlIdRoundTrip | Logic/core/crawler.py:57-62 | reading the id back from its URL gives the id for a well-formed id, and fails the assertion otherwise |
| Crawler.IdFromUrl | Logic/core/crawler.py:57-59 | every id read from a URL is well-formed, and the URL is its title URL (up to a final newline) |
| Crawler.QueryStringRejected | Logic/core/crawler.py:57-58 | a URL ending in neither `/` nor a newline is rejected |
| Crawler.RefLinkRejected | Logic/core/crawler.py:45-46 | the docstring's `?ref_=` example URL is rejected by the code |
| Crawler.LinksOfTitle | Logic/core/crawler.py:299-317 | both links exist exactly for URLs an id can be read from. For a title URL they are that URL plus `plotsummary` and `reviews` |
| Crawler.TrailingNewlineAccepted | Logic/core/crawler.py:18 | since `$` also matches before a final newline, a title URL with one trailing newline is accepted, and the summary link keeps the newline |

## Left out

- Indexer.Index.GetPostingList: returns the posting as a set of ids. The order of the Python list (dictionary insertion order) is not modelled.
- Indexer.Document: the values of a record's other fields are not modelled, only their names. Every record has its `stars`, `genres` and `summaries` lists. `add_document_to_index` stores the record and then raises KeyError for a missing one of those fields; that case is not modelled.
- SpellCorrection.SpellCorrection.FindNearestWords: the contract states which words come back and that they are ordered by weighted similarity. numpy's `argsort` is not stable, so which of several equally scored words it picks, and how it orders ties, is left open.
- Lsh.MinHashLsh.LshBuckets: bucket keys are the (band slice, band) pairs themselves rather than Python's `hash` of them, so hash collisions that would merge buckets are not modelled.
- Lsh.MinHashLsh.MinHashSignature: the random permutations of `np.random.permutation` are a parameter, and `∞` is a separate value instead of a float.
- Search.SearchEngine.Search: starts from the query tokens. The query preprocessing calls `Preprocessor.preprocess`, which reads attributes that do not exist (`self.docs`, `remove_puctuations`).
- Search.MergeScores: works on values and returns the merged dictionary. Aliasing of the caller's dictionary is not modelled.
- Scorer.VsmScore: the Euclidean norm is the parameter `inverseNorm`, so numpy's NaN entries for a zero vector and its float rounding are not modelled. The index's term order is the parameter `termOrder`, because a map does not keep insertion order.
- Scorer.Scorer.CombineWeights: numpy's whole-matrix operations are written column by column, which gives the same values. A shape mismatch cannot arise.
- Floating point in general: floats are reals. The natural logarithm is a parameter `ln`, so no property of the logarithm is used.
- `get_query_tfs` builds a dictionary and returns nothing; it has no caller in the core.
- The unsafe tiered ranking is an empty loop: no field gets scores, so aggregation raises KeyError for the first weighted field. The tiered, length and metadata index modules are not part of this model.
- DCG and NDCG (with `log2`), the printing and wandb logging of evaluation results, and `calculate_evaluation`.
- `Preprocessor.preprocess`: it reads attributes that do not exist (`self.docs`, `remove_puctuations`).
- `Preprocessor.normalize`: it lower-cases, removes stop words and then calls NLTK's `WordNetLemmatizer`, a foreign library outside this model. Stop-word removal is modelled on its own (`Preprocess.RemoveStopwordsFacts`).
- Character classes: `\w`, `\d` and `str.lower` are modelled on ASCII. Unicode letters and digits are not.
- The stop-word files are not read. The stop-word list is a parameter of `Snippet.FindSnippet` and `Preprocess.RemoveStopwords`.
- Printing: the messages of `check_add_remove_is_correct` become a returned report, and the messages of the link helpers are dropped.
- The network, HTML parsing, threads and locks of the crawler. Storing and loading the index, and the index readers of `SearchEngine.__init__`.
- `jaccard_similarity_test` is a randomised statistical check, not a contract.
- The module-level scripts, the UI, `Logic/utils.py`, `index_builder.py`, `crawl_search.py` and `prep.py`.
- Snippet.Snippet.constructor: `number_of_words_on_each_side` is a `nat`. Python would also accept a negative value, and its slices would then count from the end; that case is not modelled.

## Findings

| source | as written | input that shows it | evidently intended | confidence | as-written member | corrected member |
|---|---|---|---|---|---|---|
| Logic/core/indexer/index.py:166-182 | removal runs `del index[field][term][id]` once per occurrence of a term, so a term repeated within one field raises KeyError at its second occurrence and leaves the index half-removed | add `{id: "100", stars: [], genres: [], summaries: ["good good"]}` to an empty index, then remove `"100"` | each term's entry for the document is deleted once, so removal undoes the add | not executed | Indexer.RepeatedSummaryWordBreaksRoundTrip | Indexer.AddRemoveCorrectedRoundTrip |
| Logic/core/utility/evaluation.py:260-261 | `calculate_MRR` calls `calculate_RR(pred, real)`, but the signature is `(actual, predicted)`, so each list is scored against the other | actual `[["b"]]`, predicted `[["a", "b"]]` gives MRR 1.0 | RR of each predicted list against its actual list, here 0.5 | not executed | Evaluation.MrrSwapCounterexample | Evaluation.MeanReciprocalRankBounds |

The class methods follow the code as written (`Indexer.Index.RemoveDocument`, `Evaluation.CalculateMrr`). The corrected definitions are `Indexer.RemoveDocumentCorrected` and `Evaluation.MeanReciprocalRank`, and the proved properties sit beside them. The index's own self-check adds a document whose fields repeat no term, so both removals agree on it (`Indexer.CheckPassesOnFreshIndex`).
