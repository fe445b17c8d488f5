/**
 * Spelling correction by character bigrams (`Logic/core/spell_correction.py`):
 * each word is padded as `$word$` and shingled into its 2-character
 * substrings; the corpus vocabulary is counted; a query word is compared with
 * every vocabulary word by the Jaccard score of their shingle sets and the five
 * closest words are returned.
 */
module SpellCorrection {
  import opened Wrappers
  import opened Seqs
  import opened Reals
  import opened Text

  /** How many candidates `find_nearest_words` keeps. */
  const TopK: nat := 5

  // ---------------------------------------------------------------------------
  // Word shingles.

  /** The 2-character windows of `w`, in order. */
  function Windows2(w: string): (ws: seq<string>)
    requires |w| >= 1
    ensures |ws| == |w| - 1
  {
    seq(|w| - 1, i requires 0 <= i < |w| - 1 => w[i..i + 2])
  }

  function Padded(word: string): string {
    "$" + word + "$"
  }

  /** The shingle set of a word: the bigrams of `$word$`. */
  function Bigrams(word: string): set<string> {
    Elems(Windows2(Padded(word)))
  }

  /**
   * A word's shingle set is never empty, has at most `|word| + 1` members,
   * all of length 2, holds the marked first and last letters, and is `{"$$"}`
   * for the empty word.
   */
  lemma BigramsFacts(word: string)
    ensures Bigrams(word) != {}
    ensures |Bigrams(word)| <= |word| + 1
    ensures forall s :: s in Bigrams(word) ==> |s| == 2
    ensures word != [] ==> "$" + [word[0]] in Bigrams(word) && [word[|word| - 1]] + "$" in Bigrams(word)
    ensures word == [] ==> Bigrams(word) == {"$$"}
  {
    var w := Padded(word);
    var ws := Windows2(w);
    ElemsCard(ws);
    assert ws[0] in Bigrams(word);
    if word != [] {
      assert ws[0] == "$" + [word[0]];
      assert ws[|w| - 2] == [word[|word| - 1]] + "$";
      assert ws[|w| - 2] in Bigrams(word);
    } else {
      assert w == "$$";
      assert |ws| == 1 && ws[0] == "$$";
      assert ws == ["$$"];
    }
  }

  /** `shingle_word`: add `word[i:i+2]` of the padded word for every start `i`. */
  method ShingleWord(word: string) returns (shingles: set<string>)
    ensures shingles == Bigrams(word)
  {
    var w := "$" + word + "$";
    ghost var ws := Windows2(w);
    shingles := {};
    for i := 0 to |w| - 1
      invariant shingles == Elems(ws[..i])
    {
      assert ws[..i + 1] == ws[..i] + [ws[i]];
      shingles := shingles + {w[i..i + 2]};
    }
    assert ws[..|w| - 1] == ws;
  }

  /** `jaccard_score`: there is no guard, so an empty union divides by zero. */
  function Jaccard(a: set<string>, b: set<string>): Result<real> {
    if |a + b| == 0 then Failure(ZeroDivisionError)
    else Success((|a * b| as real) / (|a + b| as real))
  }

  /**
   * On word shingles the score is always defined, lies in `[0, 1]`, and is
   * `1` exactly when the two shingle sets coincide.
   */
  lemma JaccardOnShingles(w1: string, w2: string)
    ensures Jaccard(Bigrams(w1), Bigrams(w2)).Success?
    ensures 0.0 <= Jaccard(Bigrams(w1), Bigrams(w2)).value <= 1.0
    ensures Jaccard(Bigrams(w1), Bigrams(w2)).value == 1.0 <==> Bigrams(w1) == Bigrams(w2)
  {
    var a, b := Bigrams(w1), Bigrams(w2);
    BigramsFacts(w1);
    var x :| x in a;
    assert x in a + b;
    SubsetCard(a * b, a + b);
    FracBounds(|a * b| as real, |a + b| as real);
    if a * b == a + b {
      assert a <= a + b && b <= a + b;
    }
  }

  /** The score `find_nearest_words` gives `term` for the query `word`. */
  function Similarity(term: string, word: string): real {
    JaccardOnShingles(term, word);
    Jaccard(Bigrams(term), Bigrams(word)).value
  }

  // ---------------------------------------------------------------------------
  // Corpus counting.

  /**
   * The two dictionaries of `shingling_and_counting`: `word_counter` as its
   * keys in insertion order with their counts, and `all_shingled_words`.
   */
  datatype Vocabulary = Vocabulary(order: seq<string>, counts: map<string, nat>, shingles: map<string, set<string>>)

  const EmptyVocabulary := Vocabulary([], map[], map[])

  /** One token of the inner loop: shingle it if new, then count it. */
  function AddTerm(v: Vocabulary, term: string): Vocabulary {
    Vocabulary(
      if term in v.counts then v.order else v.order + [term],
      v.counts[term := (if term in v.counts then v.counts[term] else 0) + 1],
      if term in v.shingles then v.shingles else v.shingles[term := Bigrams(term)])
  }

  function AddTerms(v: Vocabulary, terms: seq<string>): Vocabulary {
    if terms == [] then v else AddTerm(AddTerms(v, terms[..|terms| - 1]), terms[|terms| - 1])
  }

  lemma AddTermsSnoc(v: Vocabulary, terms: seq<string>, term: string)
    ensures AddTerms(v, terms + [term]) == AddTerm(AddTerms(v, terms), term)
  {
    assert (terms + [term])[..|terms|] == terms;
  }

  /** Every whitespace token of the corpus, document after document. */
  function Tokens(documents: seq<string>): seq<string> {
    if documents == [] then [] else Tokens(documents[..|documents| - 1]) + Split(documents[|documents| - 1])
  }

  /** The vocabulary `shingling_and_counting` builds from a corpus. */
  function Corpus(documents: seq<string>): Vocabulary {
    AddTerms(EmptyVocabulary, Tokens(documents))
  }

  /**
   * The word keys are the distinct tokens in order of first occurrence, the
   * two dictionaries have the same keys, and each word maps to its shingle set.
   */
  predicate WellFormed(v: Vocabulary) {
    && Distinct(v.order)
    && Elems(v.order) == v.counts.Keys == v.shingles.Keys
    && (forall t :: t in v.counts ==> v.counts[t] >= 1)
    && (forall t :: t in v.shingles ==> v.shingles[t] == Bigrams(t))
  }

  /**
   * Counting `terms` from scratch: the keys are exactly the tokens, each
   * count is the number of occurrences, and the dictionaries are well formed.
   */
  lemma AddTermsMeaning(terms: seq<string>)
    ensures WellFormed(AddTerms(EmptyVocabulary, terms))
    ensures AddTerms(EmptyVocabulary, terms).counts.Keys == Elems(terms)
    ensures forall t :: t in AddTerms(EmptyVocabulary, terms).counts ==>
      AddTerms(EmptyVocabulary, terms).counts[t] == Count(terms, t)
  {
    AddTermsShape(terms);
    forall t | t in AddTerms(EmptyVocabulary, terms).counts
      ensures AddTerms(EmptyVocabulary, terms).counts[t] == Count(terms, t)
    {
      AddTermsCount(terms, t);
    }
  }

  lemma AddTermsShape(terms: seq<string>)
    ensures WellFormed(AddTerms(EmptyVocabulary, terms))
    ensures AddTerms(EmptyVocabulary, terms).counts.Keys == Elems(terms)
  {
    AddTermsOrder(terms);
    AddTermsShingles(terms);
  }

  /** The word order lists each token once, and the counted words are exactly the tokens. */
  lemma {:induction false} AddTermsOrder(terms: seq<string>)
    ensures var v := AddTerms(EmptyVocabulary, terms);
      Distinct(v.order) && Elems(v.order) == v.counts.Keys == Elems(terms) && forall t :: t in v.counts ==> v.counts[t] >= 1
  {
    if terms != [] {
      var init := terms[..|terms| - 1];
      var last := terms[|terms| - 1];
      AddTermsOrder(init);
      var v := AddTerms(EmptyVocabulary, init);
      assert terms == init + [last];
      assert Elems(terms) == Elems(init) + {last};
      if last !in v.counts {
        assert last !in Elems(v.order);
        DistinctSnoc(v.order, last);
      }
    }
  }

  /** Each counted word, and no other, has its shingle set stored. */
  lemma {:induction false} AddTermsShingles(terms: seq<string>)
    ensures var v := AddTerms(EmptyVocabulary, terms);
      v.shingles.Keys == v.counts.Keys && forall t :: t in v.shingles ==> v.shingles[t] == Bigrams(t)
  {
    if terms != [] {
      AddTermsShingles(terms[..|terms| - 1]);
    }
  }

  lemma {:induction false} AddTermsCount(terms: seq<string>, t: string)
    ensures t in AddTerms(EmptyVocabulary, terms).counts ==> AddTerms(EmptyVocabulary, terms).counts[t] == Count(terms, t)
    ensures t !in AddTerms(EmptyVocabulary, terms).counts ==> Count(terms, t) == 0
  {
    if terms != [] {
      var init := terms[..|terms| - 1];
      AddTermsCount(init, t);
    }
  }

  /** Tokens of the corpus grow document by document. */
  lemma TokensSnoc(documents: seq<string>, document: string)
    ensures Tokens(documents + [document]) == Tokens(documents) + Split(document)
  {
    assert (documents + [document])[..|documents|] == documents;
  }

  lemma {:induction false} AddTermsAppend(v: Vocabulary, a: seq<string>, b: seq<string>)
    ensures AddTerms(v, a + b) == AddTerms(AddTerms(v, a), b)
    decreases |b|
  {
    if b == [] {
      assert a + b == a;
    } else {
      var init := b[..|b| - 1];
      assert a + b == (a + init) + [b[|b| - 1]];
      AddTermsSnoc(v, a + init, b[|b| - 1]);
      AddTermsAppend(v, a, init);
      assert b == init + [b[|b| - 1]];
      AddTermsSnoc(AddTerms(v, a), init, b[|b| - 1]);
    }
  }

  /** The inner loop of `shingling_and_counting`: the tokens of one document. */
  method CountTerms(before: Vocabulary, terms: seq<string>) returns (v: Vocabulary)
    ensures v == AddTerms(before, terms)
  {
    v := before;
    for i := 0 to |terms|
      invariant v == AddTerms(before, terms[..i])
    {
      var term := terms[i];
      var shingles := v.shingles;
      if term !in shingles {
        var s := ShingleWord(term);
        shingles := shingles[term := s];
      }
      var counts := v.counts;
      var order := v.order;
      if term !in counts {
        counts := counts[term := 0];
        order := order + [term];
      }
      counts := counts[term := counts[term] + 1];
      AddTermsSnoc(before, terms[..i], term);
      assert terms[..i + 1] == terms[..i] + [term];
      v := Vocabulary(order, counts, shingles);
    }
    assert terms[..|terms|] == terms;
  }

  /** `shingling_and_counting`: every document's tokens in turn. */
  method ShinglingAndCounting(allDocuments: seq<string>) returns (v: Vocabulary)
    ensures v == Corpus(allDocuments)
  {
    v := EmptyVocabulary;
    for j := 0 to |allDocuments|
      invariant v == Corpus(allDocuments[..j])
    {
      v := CountTerms(v, Split(allDocuments[j]));
      TokensSnoc(allDocuments[..j], allDocuments[j]);
      assert allDocuments[..j + 1] == allDocuments[..j] + [allDocuments[j]];
      AddTermsAppend(EmptyVocabulary, Tokens(allDocuments[..j]), Split(allDocuments[j]));
    }
    assert allDocuments[..|allDocuments|] == allDocuments;
  }

  // ---------------------------------------------------------------------------
  // Candidate selection.

  function Min(a: nat, b: nat): nat {
    if a <= b then a else b
  }

  /**
   * `top` holds `min(k, n)` distinct indices below `n`, and no index left out
   * scores higher than one kept.
   */
  ghost predicate IsTopIndices(top: seq<nat>, scores: seq<real>, k: nat) {
    && |top| == Min(k, |scores|)
    && Distinct(top)
    && (forall i :: 0 <= i < |top| ==> top[i] < |scores|)
    && (forall i, j :: 0 <= i < |top| && 0 <= j < |scores| && j !in top ==> scores[top[i]] >= scores[j])
  }

  /**
   * The candidates for `word`: `min(k, |vocabulary|)` distinct vocabulary
   * words, none outscored by a vocabulary word left out.
   */
  ghost predicate IsNearest(result: seq<string>, vocabulary: seq<string>, word: string, k: nat) {
    && |result| == Min(k, |vocabulary|)
    && Distinct(result)
    && (forall i :: 0 <= i < |result| ==> result[i] in vocabulary)
    && (forall i, w :: 0 <= i < |result| && w in vocabulary && w !in result ==>
          Similarity(result[i], word) >= Similarity(w, word))
  }

  /** The indices below `n`. */
  function Range(n: nat): (r: set<nat>)
    ensures |r| == n
    ensures forall j: int :: j in r <==> 0 <= j < n
  {
    if n == 0 then {}
    else
      var r := Range(n - 1);
      assert n - 1 !in r;
      r + {n - 1}
  }

  /** Fewer than `n` distinct indices below `n` leave one out. */
  lemma MissingIndex(top: seq<nat>, n: nat)
    requires Distinct(top) && |top| < n
    ensures exists j :: 0 <= j < n && j !in top
  {
    if forall j :: 0 <= j < n ==> j in top {
      assert Range(n) <= Elems(top);
      SubsetCard(Range(n), Elems(top));
      ElemsCard(top);
    }
  }

  /** The highest-scoring index not yet in `top`, the first such on ties. */
  method ArgMaxOutside(scores: array<real>, top: seq<nat>) returns (m: nat)
    requires Distinct(top) && |top| < scores.Length
    ensures m < scores.Length && m !in top
    ensures forall j :: 0 <= j < scores.Length && j !in top ==> scores[m] >= scores[j]
  {
    MissingIndex(top, scores.Length);
    var best := -1;
    for j := 0 to scores.Length
      invariant best == -1 ==> forall j' :: 0 <= j' < j ==> j' in top
      invariant best != -1 ==> 0 <= best < j && best !in top
      invariant best != -1 ==> forall j' :: 0 <= j' < j && j' !in top ==> scores[best] >= scores[j']
    {
      if j !in top && (best == -1 || scores[j] > scores[best]) {
        best := j;
      }
    }
    m := best;
  }

  /** `np.argsort(-scores)[:k]` as a set: repeatedly take the best remaining index. */
  method TopIndices(scores: array<real>, k: nat) returns (top: seq<nat>)
    ensures IsTopIndices(top, scores[..], k)
  {
    top := [];
    while |top| < k && |top| < scores.Length
      invariant |top| <= Min(k, scores.Length)
      invariant Distinct(top)
      invariant forall i :: 0 <= i < |top| ==> top[i] < scores.Length
      invariant forall i, j :: 0 <= i < |top| && 0 <= j < scores.Length && j !in top ==> scores[top[i]] >= scores[j]
      decreases k - |top|
    {
      var m := ArgMaxOutside(scores, top);
      top := top + [m];
    }
  }

  /** `topk_tf.max()`: the largest count among `ws`. */
  function MaxCount(ws: seq<string>, counts: map<string, nat>): (m: nat)
    requires ws != [] && forall w :: w in ws ==> w in counts
    ensures exists i :: 0 <= i < |ws| && m == counts[ws[i]]
    ensures forall w :: w in ws ==> counts[w] <= m
  {
    if |ws| == 1 then counts[ws[0]]
    else
      var m := MaxCount(ws[1..], counts);
      assert forall w :: w in ws ==> w == ws[0] || w in ws[1..];
      if counts[ws[0]] > m then counts[ws[0]]
      else
        var i :| 0 <= i < |ws[1..]| && m == counts[ws[1..][i]];
        assert ws[1..][i] == ws[i + 1];
        m
  }

  /** The maximum count depends only on which words are present. */
  lemma MaxCountSameElems(a: seq<string>, b: seq<string>, counts: map<string, nat>)
    requires a != [] && forall w :: w in a ==> w in counts
    requires forall w :: w in a <==> w in b
    ensures b != [] && MaxCount(a, counts) == MaxCount(b, counts)
  {
    assert a[0] in b;
    var i :| 0 <= i < |a| && MaxCount(a, counts) == counts[a[i]];
    assert a[i] in b;
    var j :| 0 <= j < |b| && MaxCount(b, counts) == counts[b[j]];
    assert b[j] in a;
  }

  /** One candidate's re-ranking weight: `unNormalized * topk_tf / topk_tf.max()`. */
  function Normalized(similarity: real, tf: nat, maxTf: nat): real
    requires maxTf > 0
  {
    Mul(similarity, (tf as real) / (maxTf as real))
  }

  /**
   * `result` is ordered by decreasing similarity weighted by relative corpus
   * frequency, as the final `argsort(-normalized)` orders it.
   */
  ghost predicate RankedByFrequency(result: seq<string>, word: string, counts: map<string, nat>) {
    && result != []
    && (forall w :: w in result ==> w in counts && counts[w] >= 1)
    && var m := MaxCount(result, counts);
       assert counts[result[0]] <= m;
       forall i, j :: 0 <= i < j < |result| ==>
         Normalized(Similarity(result[i], word), counts[result[i]], m) >=
         Normalized(Similarity(result[j], word), counts[result[j]], m)
  }

  /** The position of a heaviest element of `xs`, the first on ties. */
  method ArgMaxWeight(xs: seq<string>, weight: map<string, real>) returns (m: nat)
    requires xs != [] && forall x :: x in xs ==> x in weight
    ensures m < |xs| && forall x :: x in xs ==> weight[xs[m]] >= weight[x]
  {
    m := 0;
    for i := 1 to |xs|
      invariant m < i
      invariant forall k :: 0 <= k < i ==> weight[xs[m]] >= weight[xs[k]]
    {
      if weight[xs[i]] > weight[xs[m]] {
        m := i;
      }
    }
  }

  /** `cands[np.argsort(-weights)]`: the candidates by decreasing weight. */
  method SortByWeight(cands: seq<string>, weight: map<string, real>) returns (r: seq<string>)
    requires forall x :: x in cands ==> x in weight
    ensures forall x :: x in r ==> x in weight
    ensures multiset(r) == multiset(cands)
    ensures forall i, j :: 0 <= i < j < |r| ==> weight[r[i]] >= weight[r[j]]
  {
    r := [];
    var rest := cands;
    while rest != []
      invariant forall x :: x in rest ==> x in weight
      invariant forall x :: x in r ==> x in weight
      invariant multiset(r) + multiset(rest) == multiset(cands)
      invariant forall i, j :: 0 <= i < j < |r| ==> weight[r[i]] >= weight[r[j]]
      invariant forall i, x :: 0 <= i < |r| && x in rest ==> weight[r[i]] >= weight[x]
      decreases |rest|
    {
      var m := ArgMaxWeight(rest, weight);
      var x := rest[m];
      assert rest == rest[..m] + [x] + rest[m + 1..];
      r := r + [x];
      rest := rest[..m] + rest[m + 1..];
    }
  }

  /** Reordering a set of nearest words keeps it one. */
  lemma NearestPermutation(a: seq<string>, b: seq<string>, vocabulary: seq<string>, word: string, k: nat)
    requires IsNearest(a, vocabulary, word, k) && multiset(a) == multiset(b)
    ensures IsNearest(b, vocabulary, word, k)
  {
    assert |a| == |multiset(a)| == |b|;
    forall x ensures x in a <==> x in b {
      assert x in a <==> x in multiset(a);
      assert x in b <==> x in multiset(b);
    }
    assert Elems(a) == Elems(b);
    ElemsCard(a);
    ElemsCard(b);
    forall i | 0 <= i < |b| ensures b[i] in vocabulary {
      assert b[i] in a;
    }
    forall i, w | 0 <= i < |b| && w in vocabulary && w !in b
      ensures Similarity(b[i], word) >= Similarity(w, word)
    {
      assert b[i] in a;
      var j :| 0 <= j < |a| && a[j] == b[i];
    }
  }

  /** The final re-ranking of the candidates by weighted similarity. */
  method RerankByFrequency(cands: seq<string>, word: string, counts: map<string, nat>) returns (result: seq<string>)
    requires cands != [] && forall w :: w in cands ==> w in counts && counts[w] >= 1
    ensures multiset(result) == multiset(cands)
    ensures RankedByFrequency(result, word, counts)
  {
    var maxTf := MaxCount(cands, counts);
    assert counts[cands[0]] <= maxTf;
    var normalized := map w | w in cands :: Normalized(Similarity(w, word), counts[w], maxTf);
    result := SortByWeight(cands, normalized);
    forall x ensures x in cands <==> x in result {
      assert x in cands <==> x in multiset(cands);
      assert x in result <==> x in multiset(result);
    }
    MaxCountSameElems(cands, result, counts);
  }

  /**
   * Python's `SpellCorrection`: the shingled vocabulary and the word counts
   * of a corpus, fixed at construction.
   */
  class SpellCorrection {
    const allShingledWords: map<string, set<string>>
    const wordCounter: map<string, nat>
    /** The keys of `word_counter` in insertion order. */
    const words: seq<string>

    ghost predicate Valid() {
      WellFormed(Vocabulary(words, wordCounter, allShingledWords))
    }

    constructor (allDocuments: seq<string>)
      ensures Valid()
      ensures Vocabulary(words, wordCounter, allShingledWords) == Corpus(allDocuments)
      ensures forall t :: t in wordCounter <==> t in Tokens(allDocuments)
      ensures forall t :: t in wordCounter ==> wordCounter[t] == Count(Tokens(allDocuments), t)
    {
      var v := ShinglingAndCounting(allDocuments);
      AddTermsMeaning(Tokens(allDocuments));
      allShingledWords := v.shingles;
      wordCounter := v.counts;
      words := v.order;
    }

    /**
     * `find_nearest_words`: score every vocabulary word, keep the best
     * `min(5, n)`; an empty vocabulary makes `topk_tf.max()` raise.
     */
    method FindNearestWords(word: string) returns (r: Result<seq<string>>)
      requires Valid()
      ensures r.Failure? <==> words == []
      ensures r.Failure? ==> r.error == ValueError
      ensures r.Success? ==> IsNearest(r.value, words, word, TopK)
      ensures r.Success? ==> RankedByFrequency(r.value, word, wordCounter)
    {
      var scores := new real[|words|];
      for i := 0 to |words|
        modifies scores
        invariant forall i' :: 0 <= i' < i ==> scores[i'] == Similarity(words[i'], word)
      {
        var term := words[i];
        var query := ShingleWord(word);
        JaccardOnShingles(term, word);
        scores[i] := Jaccard(allShingledWords[term], query).value;
      }
      var top := TopIndices(scores, TopK);
      if |words| == 0 {
        return Failure(ValueError);
      }
      var topkWords := seq(|top|, i requires 0 <= i < |top| => words[top[i]]);
      NearestFromIndices(words, word, scores[..], top, topkWords);
      var result := RerankByFrequency(topkWords, word, wordCounter);
      NearestPermutation(topkWords, result, words, word, TopK);
      r := Success(result);
    }

    /** `spell_check`: the list of nearest words itself, not a corrected string. */
    method SpellCheck(query: string) returns (r: Result<seq<string>>)
      requires Valid()
      ensures r.Failure? <==> words == []
      ensures r.Success? ==> IsNearest(r.value, words, query, TopK)
      ensures r.Success? ==> RankedByFrequency(r.value, query, wordCounter)
    {
      r := FindNearestWords(query);
    }
  }

  /** Mapping the top indices of the score array to words gives the nearest words. */
  lemma NearestFromIndices(words: seq<string>, word: string, scores: seq<real>, top: seq<nat>, result: seq<string>)
    requires Distinct(words) && |scores| == |words|
    requires forall i :: 0 <= i < |words| ==> scores[i] == Similarity(words[i], word)
    requires IsTopIndices(top, scores, TopK)
    requires |result| == |top| && forall i :: 0 <= i < |top| ==> result[i] == words[top[i]]
    ensures IsNearest(result, words, word, TopK)
  {
    forall i, j | 0 <= i < j < |result| ensures result[i] != result[j] {
      assert top[i] != top[j];
    }
    forall i, w | 0 <= i < |result| && w in words && w !in result
      ensures Similarity(result[i], word) >= Similarity(w, word)
    {
      var j :| 0 <= j < |words| && words[j] == w;
    }
  }
}
