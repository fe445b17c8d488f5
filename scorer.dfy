/**
 * The `Scorer` of Logic/core/scorer.py over one field's postings
 * `{term: {id: tf}}`: the candidate documents of a query, the memoised
 * document frequency ("idf") with its 0.1 fallback, Okapi BM25, and the
 * reading of a vector-space scheme such as "ltc.lnc". Arithmetic is over
 * `real`; the natural logarithm is a parameter `ln`.
 */
module Scorer {
  import opened Wrappers
  import opened Seqs
  import opened Postings
  import opened Reals

  /** The defaults of `okapi_score_tf`. */
  const B: real := 0.75
  const K1: real := 1.5

  /** What `get_idf` stores: the posting's length for an indexed term, 0.1 otherwise. */
  function DfOrDefault(P: Postings, t: Term): (r: real)
    ensures WellFormed(P) ==> r > 0.0
  {
    if t in P then |P[t]| as real else 0.1
  }

  /** The ids posted under the query terms present in `P`. */
  function Candidates(P: Postings, query: seq<Term>): set<Id> {
    if query == [] then {}
    else
      var t := query[|query| - 1];
      Candidates(P, query[..|query| - 1]) + (if t in P then P[t].Keys else {})
  }

  /** An id is a candidate exactly when some query term present in `P` posts it. */
  lemma {:induction false} CandidatesMembership(P: Postings, query: seq<Term>, y: Id)
    ensures y in Candidates(P, query) <==> exists i :: 0 <= i < |query| && query[i] in P && y in P[query[i]]
  {
    if query != [] {
      var init := query[..|query| - 1];
      CandidatesMembership(P, init, y);
      if exists i :: 0 <= i < |query| && query[i] in P && y in P[query[i]] {
        var i :| 0 <= i < |query| && query[i] in P && y in P[query[i]];
        if i < |init| {
          assert init[i] == query[i];
        }
      }
      if exists i :: 0 <= i < |init| && init[i] in P && y in P[init[i]] {
        var i :| 0 <= i < |init| && init[i] in P && y in P[init[i]];
        assert query[i] == init[i];
      }
    }
  }

  // ---------------------------------------------------------------------------
  // Okapi BM25.

  /** `okapi_score_tf`: `(k1 + 1) * tf / (tf + k1 * (1 - b + b * r))`; a zero denominator raises. */
  function OkapiScoreTf(tf: real, dlAvgdl: real, b: real, k1: real): Result<real> {
    var den := tf + k1 * (1.0 - b + b * dlAvgdl);
    if den == 0.0 then Failure(ZeroDivisionError) else Success((k1 + 1.0) * tf / den)
  }

  /** For a positive tf and a non-negative length ratio the saturated tf lies strictly between 0 and k1 + 1. */
  lemma OkapiBounds(tf: real, dlAvgdl: real, b: real, k1: real)
    requires tf > 0.0 && dlAvgdl >= 0.0 && 0.0 <= b < 1.0 && k1 > 0.0
    ensures OkapiScoreTf(tf, dlAvgdl, b, k1).Success?
    ensures 0.0 < OkapiScoreTf(tf, dlAvgdl, b, k1).value < k1 + 1.0
  {
    var kc := k1 * (1.0 - b + b * dlAvgdl);
    assert kc > 0.0 by {
      MulNonneg(b, dlAvgdl);
      MulPos(k1, 1.0 - b + b * dlAvgdl);
    }
    assert OkapiScoreTf(tf, dlAvgdl, b, k1) == Success((k1 + 1.0) * tf / (tf + kc));
    Saturation(tf, kc, k1);
  }

  /** `(k1 + 1) * tf / (tf + kc)` lies strictly between 0 and k1 + 1. */
  lemma Saturation(tf: real, kc: real, k1: real)
    requires tf > 0.0 && kc > 0.0 && k1 > 0.0
    ensures 0.0 < (k1 + 1.0) * tf / (tf + kc) < k1 + 1.0
  {
    MulPos(k1 + 1.0, kc);
    MulPos(k1 + 1.0, tf);
    assert (k1 + 1.0) * (tf + kc) == (k1 + 1.0) * tf + (k1 + 1.0) * kc;
    DivBetween((k1 + 1.0) * tf, tf + kc, k1 + 1.0);
  }

  /** The saturated tf grows with tf. */
  lemma OkapiIncreasing(tf1: real, tf2: real, dlAvgdl: real, b: real, k1: real)
    requires 0.0 < tf1 < tf2 && dlAvgdl >= 0.0 && 0.0 <= b < 1.0 && k1 > 0.0
    ensures OkapiScoreTf(tf1, dlAvgdl, b, k1).Success? && OkapiScoreTf(tf2, dlAvgdl, b, k1).Success?
    ensures OkapiScoreTf(tf1, dlAvgdl, b, k1).value < OkapiScoreTf(tf2, dlAvgdl, b, k1).value
  {
    MulNonneg(b, dlAvgdl);
    var c := 1.0 - b + b * dlAvgdl;
    MulPos(k1, c);
    var kc := k1 * c;
    var d1, d2 := tf1 + kc, tf2 + kc;
    var a1, a2 := (k1 + 1.0) * tf1, (k1 + 1.0) * tf2;
    var u := k1 + 1.0;
    MulPos(u * kc, tf2 - tf1);
    assert a2 * d1 == u * tf2 * tf1 + u * tf2 * kc;
    assert a1 * d2 == u * tf1 * tf2 + u * tf1 * kc;
    assert u * tf2 * kc - u * tf1 * kc == u * kc * (tf2 - tf1);
    DivLess(a1, d1, a2, d2);
  }

  /** `X[i, j]` of `compute_scores_with_okapi_bm25` for query term `t` and document `d`. */
  function Entry(P: Postings, t: Term, d: Id, lengths: map<Id, real>, avgdl: real): Result<real> {
    if t in P && d in P[t] then
      if d !in lengths then Failure(KeyError)
      else if avgdl == 0.0 then Failure(ZeroDivisionError)
      else OkapiScoreTf(P[t][d] as real, lengths[d] / avgdl, B, K1)
    else Success(0.0)
  }

  /** `idf_multiplier[i]`: `log(N / get_idf(t))`. */
  function IdfWeight(P: Postings, n: int, t: Term, ln: real -> real): real {
    var df := DfOrDefault(P, t);
    if df == 0.0 then 0.0 else ln(n as real / df)
  }

  /** What one query-term occurrence adds to a document's BM25 score. */
  function Contribution(P: Postings, n: int, t: Term, d: Id, lengths: map<Id, real>, avgdl: real, ln: real -> real): real {
    var x := Entry(P, t, d, lengths, avgdl);
    Mul(if x.Success? then x.value else 0.0, IdfWeight(P, n, t, ln))
  }

  /** `X.sum(axis = 0)` after `X * idf`, for one document: a sum over query positions. */
  function Bm25Score(P: Postings, n: int, query: seq<Term>, d: Id, lengths: map<Id, real>, avgdl: real, ln: real -> real): real {
    if query == [] then 0.0
    else Bm25Score(P, n, query[..|query| - 1], d, lengths, avgdl, ln) + Contribution(P, n, query[|query| - 1], d, lengths, avgdl, ln)
  }

  /** BM25 finishes without raising: no zero document frequency and no failing entry. */
  ghost predicate Bm25Ok(P: Postings, query: seq<Term>, lengths: map<Id, real>, avgdl: real) {
    && (forall i :: 0 <= i < |query| ==> DfOrDefault(P, query[i]) != 0.0)
    && (forall i, d :: 0 <= i < |query| ==> Entry(P, query[i], d, lengths, avgdl).Success?)
  }

  /** The score of a query is the sum of the scores of its parts. */
  lemma {:induction false} Bm25Append(P: Postings, n: int, q1: seq<Term>, q2: seq<Term>, d: Id, lengths: map<Id, real>, avgdl: real, ln: real -> real)
    ensures Bm25Score(P, n, q1 + q2, d, lengths, avgdl, ln) == Bm25Score(P, n, q1, d, lengths, avgdl, ln) + Bm25Score(P, n, q2, d, lengths, avgdl, ln)
  {
    if q2 != [] {
      var init := q2[..|q2| - 1];
      Bm25Append(P, n, q1, init, d, lengths, avgdl, ln);
      assert (q1 + q2)[..|q1 + q2| - 1] == q1 + init;
    } else {
      assert q1 + q2 == q1;
    }
  }

  /** A term repeated k times in the query contributes k times. */
  lemma {:induction false} Bm25Repeated(P: Postings, n: int, t: Term, k: nat, d: Id, lengths: map<Id, real>, avgdl: real, ln: real -> real)
    ensures Bm25Score(P, n, seq(k, _ => t), d, lengths, avgdl, ln) == k as real * Contribution(P, n, t, d, lengths, avgdl, ln)
  {
    if k > 0 {
      Bm25Repeated(P, n, t, k - 1, d, lengths, avgdl, ln);
      assert seq(k, _ => t)[..k - 1] == seq(k - 1, _ => t);
    }
  }

  /** The query terms present in the index, in order. */
  function PresentTerms(P: Postings, query: seq<Term>): (r: seq<Term>)
    ensures forall t :: t in r <==> t in query && t in P
  {
    if query == [] then []
    else
      var t := query[|query| - 1];
      PresentTerms(P, query[..|query| - 1]) + (if t in P then [t] else [])
  }

  /** Query terms missing from the index contribute nothing to any document. */
  lemma {:induction false} Bm25IgnoresAbsentTerms(P: Postings, n: int, query: seq<Term>, d: Id, lengths: map<Id, real>, avgdl: real, ln: real -> real)
    ensures Bm25Score(P, n, query, d, lengths, avgdl, ln) == Bm25Score(P, n, PresentTerms(P, query), d, lengths, avgdl, ln)
  {
    if query != [] {
      var init, t := query[..|query| - 1], query[|query| - 1];
      Bm25IgnoresAbsentTerms(P, n, init, d, lengths, avgdl, ln);
      var present := PresentTerms(P, init);
      if t in P {
        assert PresentTerms(P, query) == present + [t];
        assert (present + [t])[..|present|] == present;
      } else {
        assert Contribution(P, n, t, d, lengths, avgdl, ln) == 0.0;
        assert PresentTerms(P, query) == present + [];
        assert present + [] == present;
      }
    }
  }

  /** `X.sum(axis = 0)[j]` after `X * idf`, over the first `k` rows. */
  function ColumnScore(X: seq<seq<real>>, idfs: seq<real>, j: nat, k: nat): real
    requires k <= |X| && k <= |idfs|
    requires forall i :: 0 <= i < k ==> j < |X[i]|
  {
    if k == 0 then 0.0 else ColumnScore(X, idfs, j, k - 1) + Mul(X[k - 1][j], idfs[k - 1])
  }

  // ---------------------------------------------------------------------------
  // The vector-space model.

  /** The tf part of a scheme letter: `n` raw, `l` log + 1, anything else leaves the weight 0. */
  datatype TfWeighting = Raw | LogPlusOne | NoWeight

  datatype SideScheme = SideScheme(tf: TfWeighting, idf: bool, cosine: bool)

  /** `ddd.qqq`: characters 0-2 for documents, 4-6 for the query; character 3 and any after 6 are unread. */
  datatype Scheme = Scheme(document: SideScheme, query: SideScheme)

  function TfLetter(c: char): TfWeighting {
    if c == 'n' then Raw else if c == 'l' then LogPlusOne else NoWeight
  }

  /** The characters `compute_scores_with_vector_space_model` tests, at the positions it tests them. */
  function ParseScheme(scheme: string): (s: Scheme)
    requires |scheme| >= 7
    ensures s.document.idf <==> scheme[1] == 't'
    ensures s.query.idf <==> scheme[5] == 't'
    ensures s.document.cosine <==> scheme[2] == 'c'
    ensures s.query.cosine <==> scheme[6] == 'c'
  {
    Scheme(SideScheme(TfLetter(scheme[0]), scheme[1] == 't', scheme[2] == 'c'),
           SideScheme(TfLetter(scheme[4]), scheme[5] == 't', scheme[6] == 'c'))
  }

  /** Character 3 is never read, and each side depends on its own three characters only. */
  lemma ParseSchemeByPosition(m1: string, m2: string)
    requires |m1| >= 7 && |m2| >= 7
    ensures m1[..3] == m2[..3] ==> ParseScheme(m1).document == ParseScheme(m2).document
    ensures m1[4..7] == m2[4..7] ==> ParseScheme(m1).query == ParseScheme(m2).query
  {
    if m1[..3] == m2[..3] {
      assert m1[0] == m1[..3][0] == m2[0];
      assert m1[1] == m1[..3][1] == m2[1];
      assert m1[2] == m1[..3][2] == m2[2];
    }
    if m1[4..7] == m2[4..7] {
      assert m1[4] == m1[4..7][0] == m2[4];
      assert m1[5] == m1[4..7][1] == m2[5];
      assert m1[6] == m1[4..7][2] == m2[6];
    }
  }

  function TfWeight(w: TfWeighting, count: real, ln: real -> real): real {
    match w
    case Raw => count
    case LogPlusOne => ln(count) + 1.0
    case NoWeight => 0.0
  }

  /** `X[i, j]` as the filling loop leaves it: the tf weight when `d` is posted under `t`, 0 otherwise. */
  function RawDocumentWeight(w: TfWeighting, P: Postings, t: Term, d: Id, ln: real -> real): real {
    if t in P && d in P[t] then TfWeight(w, P[t][d] as real, ln) else 0.0
  }

  /** `q[i]` as the filling loop leaves it: the tf weight of the count of `t` in the query, 0 for a term not in it. */
  function RawQueryWeight(w: TfWeighting, P: Postings, query: seq<Term>, t: Term, ln: real -> real): real {
    if t in P && t in query then TfWeight(w, Count(query, t) as real, ln) else 0.0
  }

  /** The document's weight for `t` before normalisation: the raw weight, times the idf when asked (`X * idf`). */
  function DocumentTermWeight(s: SideScheme, P: Postings, n: int, t: Term, d: Id, ln: real -> real): real {
    var x := RawDocumentWeight(s.tf, P, t, d, ln);
    if s.idf then Mul(x, IdfWeight(P, n, t, ln)) else x
  }

  /** The query's weight for `t` before normalisation: the raw weight, times the idf when asked (`q * idf_multiplier`). */
  function QueryTermWeight(s: SideScheme, P: Postings, n: int, query: seq<Term>, t: Term, ln: real -> real): real {
    var x := RawQueryWeight(s.tf, P, query, t, ln);
    if s.idf then Mul(x, IdfWeight(P, n, t, ln)) else x
  }

  /**
   * The weights letter by letter: `n` is the raw tf (the raw count in the
   * query), `l` is log + 1 of it, any other letter weighs 0, an unposted
   * document weighs 0 whatever the letters, and `t` multiplies the weight by
   * `log(N / df)`.
   */
  lemma SideWeights(s: SideScheme, P: Postings, n: int, query: seq<Term>, t: Term, d: Id, ln: real -> real)
    ensures s.tf == Raw && !s.idf ==> DocumentTermWeight(s, P, n, t, d, ln) == Tf(P, t, d) as real
    ensures s.tf == Raw && !s.idf && t in P ==> QueryTermWeight(s, P, n, query, t, ln) == Count(query, t) as real
    ensures s.tf == LogPlusOne && !s.idf && t in P && d in P[t] ==>
              DocumentTermWeight(s, P, n, t, d, ln) == ln(Tf(P, t, d) as real) + 1.0
    ensures s.tf == LogPlusOne && !s.idf && t in P && t in query ==>
              QueryTermWeight(s, P, n, query, t, ln) == ln(Count(query, t) as real) + 1.0
    ensures s.tf == NoWeight ==> DocumentTermWeight(s, P, n, t, d, ln) == 0.0 && QueryTermWeight(s, P, n, query, t, ln) == 0.0
    ensures !(t in P && d in P[t]) ==> DocumentTermWeight(s, P, n, t, d, ln) == 0.0
    ensures s.idf ==>
              && DocumentTermWeight(s, P, n, t, d, ln) == Mul(DocumentTermWeight(s.(idf := false), P, n, t, d, ln), IdfWeight(P, n, t, ln))
              && QueryTermWeight(s, P, n, query, t, ln) == Mul(QueryTermWeight(s.(idf := false), P, n, query, t, ln), IdfWeight(P, n, t, ln))
  {
  }

  /**
   * What the vector-space scorer takes from outside the model: the order in
   * which the index dictionary yields its terms (its insertion order, which a
   * map does not keep), and the reciprocal of a vector's Euclidean norm, by
   * which `v / np.linalg.norm(v)` multiplies.
   */
  datatype VectorSpace = VectorSpace(termOrder: Postings -> seq<Term>, inverseNorm: seq<real> -> real)

  /** Column `d` of `X` after the idf scaling: the document's weight for each index term, in order. */
  function DocumentVector(s: SideScheme, P: Postings, n: int, terms: seq<Term>, d: Id, ln: real -> real): (v: seq<real>)
    ensures |v| == |terms|
  {
    seq(|terms|, i requires 0 <= i < |terms| => DocumentTermWeight(s, P, n, terms[i], d, ln))
  }

  /** `q` after the idf scaling: the query's weight for each index term, in order. */
  function QueryVector(s: SideScheme, P: Postings, n: int, query: seq<Term>, terms: seq<Term>, ln: real -> real): (v: seq<real>)
    ensures |v| == |terms|
  {
    seq(|terms|, i requires 0 <= i < |terms| => QueryTermWeight(s, P, n, query, terms[i], ln))
  }

  /** `v.sum()`. */
  function Sum(v: seq<real>): real {
    if v == [] then 0.0 else Sum(v[..|v| - 1]) + v[|v| - 1]
  }

  /** `a @ b` for vectors of one length. */
  function Dot(a: seq<real>, b: seq<real>): real
    requires |a| == |b|
  {
    if a == [] then 0.0 else Dot(a[..|a| - 1], b[..|b| - 1]) + Mul(a[|a| - 1], b[|b| - 1])
  }

  /** `v / np.linalg.norm(v)`. */
  function Normalized(v: seq<real>, inverseNorm: seq<real> -> real): (r: seq<real>)
    ensures |r| == |v|
  {
    seq(|v|, i requires 0 <= i < |v| => Mul(v[i], inverseNorm(v)))
  }

  /**
   * The score of document `d`: the query vector, normalised when the query
   * side asks for `c` and its sum is positive, times column `d` of `X`,
   * normalised when the document side asks for `c`.
   */
  function VsmScore(s: Scheme, P: Postings, n: int, query: seq<Term>, terms: seq<Term>, d: Id, ln: real -> real,
                    inverseNorm: seq<real> -> real): real
  {
    var x := DocumentVector(s.document, P, n, terms, d, ln);
    var q := QueryVector(s.query, P, n, query, terms, ln);
    Dot(if s.query.cosine && Sum(q) > 0.0 then Normalized(q, inverseNorm) else q,
        if s.document.cosine then Normalized(x, inverseNorm) else x)
  }

  /** An index term of zero document frequency: `self.N / self.get_idf(term)` raises for it. */
  predicate ZeroDfTerm(P: Postings, terms: seq<Term>) {
    exists i :: 0 <= i < |terms| && DfOrDefault(P, terms[i]) == 0.0
  }

  /**
   * `compute_scores_with_vector_space_model`: `IndexError` at the first
   * scheme character it reads that is missing, `ZeroDivisionError` from the
   * idf loop (run when character 1 or 5 is `t`), otherwise the candidate
   * documents with their scores.
   */
  function VsmScores(P: Postings, n: int, query: seq<Term>, scheme: string, ln: real -> real, space: VectorSpace): Result<map<Id, real>> {
    var terms := space.termOrder(P);
    if |scheme| < 2 || (scheme[1] != 't' && |scheme| < 6) then Failure(IndexError)
    else if (scheme[1] == 't' || scheme[5] == 't') && ZeroDfTerm(P, terms) then Failure(ZeroDivisionError)
    else if |scheme| < 7 then Failure(IndexError)
    else
      var s := ParseScheme(scheme);
      Success(map d | d in Candidates(P, query) :: VsmScore(s, P, n, query, terms, d, ln, space.inverseNorm))
  }

  /** The successful outcome, spelled out. */
  lemma VsmScoresValue(P: Postings, n: int, query: seq<Term>, scheme: string, ln: real -> real, space: VectorSpace)
    requires |scheme| >= 7 && !((scheme[1] == 't' || scheme[5] == 't') && ZeroDfTerm(P, space.termOrder(P)))
    ensures VsmScores(P, n, query, scheme, ln, space) ==
              Success(map d | d in Candidates(P, query) :: VsmScore(ParseScheme(scheme), P, n, query, space.termOrder(P), d, ln, space.inverseNorm))
  {
  }

  /**
   * The scores are keyed exactly by the documents posted under a query term
   * present in the index. The only failures are `IndexError`, always for a
   * scheme shorter than 7 characters, and `ZeroDivisionError`, only for an
   * index with an empty posting; a well-formed index fails exactly for a
   * short scheme.
   */
  lemma VsmScoresOutcome(P: Postings, n: int, query: seq<Term>, scheme: string, ln: real -> real, space: VectorSpace)
    ensures VsmScores(P, n, query, scheme, ln, space).Success? ==>
              forall y :: y in VsmScores(P, n, query, scheme, ln, space).value <==>
                exists i :: 0 <= i < |query| && query[i] in P && y in P[query[i]]
    ensures VsmScores(P, n, query, scheme, ln, space).Failure? ==>
              VsmScores(P, n, query, scheme, ln, space).error == IndexError ||
              VsmScores(P, n, query, scheme, ln, space).error == ZeroDivisionError
    ensures |scheme| < 7 ==> VsmScores(P, n, query, scheme, ln, space).Failure?
    ensures VsmScores(P, n, query, scheme, ln, space) == Failure(ZeroDivisionError) ==> exists t :: t in P && P[t] == map[]
    ensures WellFormed(P) ==> (VsmScores(P, n, query, scheme, ln, space).Success? <==> |scheme| >= 7)
  {
    var terms := space.termOrder(P);
    if ZeroDfTerm(P, terms) {
      var i :| 0 <= i < |terms| && DfOrDefault(P, terms[i]) == 0.0;
      assert terms[i] in P && P[terms[i]] == map[];
    }
    var r := VsmScores(P, n, query, scheme, ln, space);
    if r.Success? {
      forall y ensures y in r.value <==> exists i :: 0 <= i < |query| && query[i] in P && y in P[query[i]] {
        CandidatesMembership(P, query, y);
      }
    }
  }

  /**
   * Two schemes of at least 7 characters that agree at positions 0-2 and
   * 4-6 give the same outcome: character 3 and any later characters play no
   * part.
   */
  lemma VsmSchemeByPosition(P: Postings, n: int, query: seq<Term>, m1: string, m2: string, ln: real -> real, space: VectorSpace)
    requires |m1| >= 7 && |m2| >= 7
    requires m1[..3] == m2[..3] && m1[4..7] == m2[4..7]
    ensures VsmScores(P, n, query, m1, ln, space) == VsmScores(P, n, query, m2, ln, space)
  {
    ParseSchemeByPosition(m1, m2);
    assert m1[1] == m1[..3][1] == m2[1];
    assert m1[5] == m1[4..7][1] == m2[5];
  }

  /** `Σ query.count(t) * tf(t, d)` over `terms`: the bag-of-words inner product of query and document. */
  function CountProduct(P: Postings, query: seq<Term>, terms: seq<Term>, d: Id): real {
    if terms == [] then 0.0
    else
      var t := terms[|terms| - 1];
      CountProduct(P, query, terms[..|terms| - 1], d) + Mul(Count(query, t) as real, Tf(P, t, d) as real)
  }

  /**
   * Under a scheme `nn?.nn?` without `t` or `c` every candidate's score is
   * the inner product of the query's term counts and the document's term
   * frequencies, and when the term order lists every index term that score
   * is at least 1: each candidate shares a term with the query.
   */
  lemma RawSchemeScores(P: Postings, n: int, query: seq<Term>, scheme: string, ln: real -> real, space: VectorSpace)
    requires WellFormed(P)
    requires |scheme| >= 7 && scheme[0] == 'n' && scheme[1] != 't' && scheme[2] != 'c'
    requires scheme[4] == 'n' && scheme[5] != 't' && scheme[6] != 'c'
    ensures VsmScores(P, n, query, scheme, ln, space).Success?
    ensures forall d :: d in VsmScores(P, n, query, scheme, ln, space).value ==>
              VsmScores(P, n, query, scheme, ln, space).value[d] == CountProduct(P, query, space.termOrder(P), d)
    ensures (forall t :: t in P ==> t in space.termOrder(P)) ==>
              forall d :: d in VsmScores(P, n, query, scheme, ln, space).value ==> VsmScores(P, n, query, scheme, ln, space).value[d] >= 1.0
  {
    var terms := space.termOrder(P);
    var s := ParseScheme(scheme);
    VsmScoresOutcome(P, n, query, scheme, ln, space);
    var r := VsmScores(P, n, query, scheme, ln, space);
    forall d | d in r.value ensures r.value[d] == CountProduct(P, query, terms, d) {
      RawDot(s, P, n, query, terms, d, ln);
    }
    if forall t :: t in P ==> t in terms {
      forall d | d in r.value ensures r.value[d] >= 1.0 {
        CandidatesMembership(P, query, d);
        var i :| 0 <= i < |query| && query[i] in P && d in P[query[i]];
        var k :| 0 <= k < |terms| && terms[k] == query[i];
        CountProductBound(P, query, terms, d, k);
      }
    }
  }

  lemma {:induction false} RawDot(s: Scheme, P: Postings, n: int, query: seq<Term>, terms: seq<Term>, d: Id, ln: real -> real)
    requires s.document == SideScheme(Raw, false, false) && s.query == SideScheme(Raw, false, false)
    ensures Dot(QueryVector(s.query, P, n, query, terms, ln), DocumentVector(s.document, P, n, terms, d, ln)) == CountProduct(P, query, terms, d)
  {
    if terms != [] {
      var init, t := terms[..|terms| - 1], terms[|terms| - 1];
      RawDot(s, P, n, query, init, d, ln);
      assert QueryVector(s.query, P, n, query, terms, ln)[..|init|] == QueryVector(s.query, P, n, query, init, ln);
      assert DocumentVector(s.document, P, n, terms, d, ln)[..|init|] == DocumentVector(s.document, P, n, init, d, ln);
      SideWeights(s.query, P, n, query, t, d, ln);
      SideWeights(s.document, P, n, query, t, d, ln);
    }
  }

  /** The count products are non-negative, and one with a shared posted term is at least 1. */
  lemma AtLeastOne(c: real, f: real)
    requires c >= 1.0 && f >= 1.0
    ensures Mul(c, f) >= 1.0
  {
    MulNonneg(c - 1.0, f);
  }

  lemma {:induction false} CountProductBound(P: Postings, query: seq<Term>, terms: seq<Term>, d: Id, k: int)
    requires WellFormed(P)
    ensures CountProduct(P, query, terms, d) >= 0.0
    ensures 0 <= k < |terms| && terms[k] in query && terms[k] in P && d in P[terms[k]] ==> CountProduct(P, query, terms, d) >= 1.0
  {
    if terms != [] {
      var init, t := terms[..|terms| - 1], terms[|terms| - 1];
      CountProductBound(P, query, init, d, k);
      var c, f := Count(query, t) as real, Tf(P, t, d) as real;
      MulNonneg(c, f);
      assert CountProduct(P, query, terms, d) == CountProduct(P, query, init, d) + Mul(c, f);
      if k == |terms| - 1 && t in query && t in P && d in P[t] {
        AtLeastOne(c, f);
      } else if 0 <= k < |init| {
        assert init[k] == terms[k];
      }
    }
  }

  // ---------------------------------------------------------------------------
  // The object.

  class Scorer {
    const index: Postings
    const n: int
    var idf: map<Term, real>

    /** Every cached value is the one `get_idf` computes from the (unchanging) index. */
    ghost predicate Valid()
      reads this
    {
      forall t :: t in idf ==> idf[t] == DfOrDefault(index, t)
    }

    constructor(index: Postings, numberOfDocuments: int)
      ensures this.index == index && n == numberOfDocuments && idf == map[]
      ensures Valid()
    {
      this.index := index;
      n := numberOfDocuments;
      idf := map[];
    }

    /** `get_list_of_documents`: every id posted under a query term, once. */
    method GetListOfDocuments(query: seq<Term>) returns (r: seq<Id>)
      ensures Distinct(r)
      ensures forall y :: y in r <==> exists i :: 0 <= i < |query| && query[i] in index && y in index[query[i]]
    {
      var found: seq<Id> := [];
      for i := 0 to |query|
        invariant Elems(found) == Candidates(index, query[..i])
      {
        assert query[..i + 1][..i] == query[..i];
        if query[i] in index {
          var ids := SetToSeq(index[query[i]].Keys);
          found := found + ids;
        }
      }
      assert query[..|query|] == query;
      r := SetToSeq(Elems(found));
      forall y ensures y in r <==> exists i :: 0 <= i < |query| && query[i] in index && y in index[query[i]] {
        CandidatesMembership(index, query, y);
      }
    }

    /** `get_idf`: the cached value if any, else the document frequency (0.1 for an unknown term), cached. */
    method GetIdf(term: Term) returns (r: real)
      requires Valid()
      modifies this
      ensures Valid()
      ensures r == DfOrDefault(index, term)
      ensures term in old(idf) ==> r == old(idf)[term]
      ensures idf == old(idf)[term := r]
    {
      if term in idf {
        r := idf[term];
      } else {
        r := if term in index then |index[term]| as real else 0.1;
        idf := idf[term := r];
      }
    }

    /**
     * `compute_scores_with_okapi_bm25`: keyed by the candidate documents,
     * each the BM25 score of the query; `KeyError` for a candidate without a
     * length, `ZeroDivisionError` for a zero frequency, average length or
     * saturation denominator.
     */
    method ComputeScoresWithOkapiBm25(query: seq<Term>, avgdl: real, lengths: map<Id, real>, ln: real -> real)
      returns (r: Result<map<Id, real>>)
      requires Valid()
      modifies this
      ensures Valid()
      ensures r.Success? <==> Bm25Ok(index, query, lengths, avgdl)
      ensures r.Success? ==> r.value.Keys == Candidates(index, query)
      ensures r.Success? ==> forall d :: d in r.value ==> r.value[d] == Bm25Score(index, n, query, d, lengths, avgdl, ln)
      ensures r.Failure? ==> r.error == KeyError || r.error == ZeroDivisionError
      ensures r == Failure(KeyError) ==> exists d :: d in Candidates(index, query) && d !in lengths
    {
      var docs := GetListOfDocuments(query);
      var idfs: seq<real> := [];
      for i := 0 to |query|
        invariant Valid()
        invariant |idfs| == i
        invariant forall k :: 0 <= k < i ==> DfOrDefault(index, query[k]) != 0.0 && idfs[k] == IdfWeight(index, n, query[k], ln)
      {
        var df := GetIdf(query[i]);
        if df == 0.0 {
          return Failure(ZeroDivisionError);
        }
        idfs := idfs + [ln(n as real / df)];
      }
      var X: seq<seq<real>> := [];
      for i := 0 to |query|
        invariant Valid()
        invariant |X| == i
        invariant forall k :: 0 <= k < i ==> |X[k]| == |docs|
        invariant forall k, j :: 0 <= k < i && 0 <= j < |docs| ==> Entry(index, query[k], docs[j], lengths, avgdl) == Success(X[k][j])
      {
        var row := RowOf(query[i], docs, lengths, avgdl);
        if row.Failure? {
          var j :| 0 <= j < |docs| && Entry(index, query[i], docs[j], lengths, avgdl) == Failure(row.error);
          FailingEntry(index, query, i, docs[j], lengths, avgdl, row.error);
          return Failure(row.error);
        }
        X := X + [row.value];
      }
      forall i, d | 0 <= i < |query| ensures Entry(index, query[i], d, lengths, avgdl).Success? {
        if query[i] in index && d in index[query[i]] {
          assert d in docs;
          var j :| 0 <= j < |docs| && docs[j] == d;
        }
      }
      r := Success(map d | d in Elems(docs) :: ColumnScore(X, idfs, IndexOf(docs, d), |query|));
      forall d | d in r.value ensures r.value[d] == Bm25Score(index, n, query, d, lengths, avgdl, ln) {
        ColumnScoreIsBm25(index, n, X, idfs, query, docs, IndexOf(docs, d), |query|, lengths, avgdl, ln);
        assert query[..|query|] == query;
      }
      forall y ensures y in Candidates(index, query) <==> y in docs {
        CandidatesMembership(index, query, y);
      }
    }

    /** One row of `X`: the entries of one query term across the candidate documents. */
    method RowOf(t: Term, docs: seq<Id>, lengths: map<Id, real>, avgdl: real) returns (row: Result<seq<real>>)
      ensures row.Success? ==> |row.value| == |docs| && forall j :: 0 <= j < |docs| ==> Entry(index, t, docs[j], lengths, avgdl) == Success(row.value[j])
      ensures row.Failure? ==> exists j :: 0 <= j < |docs| && Entry(index, t, docs[j], lengths, avgdl) == Failure(row.error)
    {
      var xs: seq<real> := seq(|docs|, _ => 0.0);
      if t !in index {
        return Success(xs);
      }
      for j := 0 to |docs|
        invariant |xs| == |docs|
        invariant forall k :: 0 <= k < j ==> Entry(index, t, docs[k], lengths, avgdl) == Success(xs[k])
        invariant forall k :: j <= k < |docs| ==> xs[k] == 0.0
      {
        if docs[j] in index[t] {
          if docs[j] !in lengths {
            return Failure(KeyError);
          }
          if avgdl == 0.0 {
            return Failure(ZeroDivisionError);
          }
          var x := OkapiScoreTf(index[t][docs[j]] as real, lengths[docs[j]] / avgdl, B, K1);
          if x.Failure? {
            return Failure(x.error);
          }
          xs := xs[j := x.value];
        }
      }
      row := Success(xs);
    }

    /**
     * `compute_scores_with_vector_space_model`: the idf loop over the index
     * terms when the scheme asks for `t`, the loops filling `X` and `q`, then
     * the numpy scaling, normalisation and product; the result is
     * `VsmScores`.
     */
    method ComputeScoresWithVectorSpaceModel(query: seq<Term>, scheme: string, ln: real -> real, space: VectorSpace)
      returns (r: Result<map<Id, real>>)
      requires Valid()
      modifies this
      ensures Valid()
      ensures r == VsmScores(index, n, query, scheme, ln, space)
    {
      var docs := GetListOfDocuments(query);
      var terms := space.termOrder(index);
      if |scheme| < 2 || (scheme[1] != 't' && |scheme| < 6) {
        return Failure(IndexError);
      }
      var idfs: seq<real> := [];
      if scheme[1] == 't' || scheme[5] == 't' {
        for i := 0 to |terms|
          invariant Valid()
          invariant |idfs| == i
          invariant forall k :: 0 <= k < i ==> DfOrDefault(index, terms[k]) != 0.0 && idfs[k] == IdfWeight(index, n, terms[k], ln)
        {
          var df := GetIdf(terms[i]);
          if df == 0.0 {
            assert ZeroDfTerm(index, terms) by {
              assert DfOrDefault(index, terms[i]) == 0.0;
            }
            return Failure(ZeroDivisionError);
          }
          idfs := idfs + [ln(n as real / df)];
        }
      }
      assert (scheme[1] == 't' || scheme[5] == 't') ==> !ZeroDfTerm(index, terms);
      var X := FillDocumentWeights(terms, docs, scheme[0], ln);
      // `method[4]`, `method[5]` and `method[6]` are read from here on; the first one missing raises.
      if |scheme| < 7 {
        return Failure(IndexError);
      }
      var s := ParseScheme(scheme);
      var q := FillQueryWeights(terms, query, scheme[4], ln);
      var scores := CombineWeights(s, terms, docs, query, X, q, idfs, ln, space.inverseNorm);
      r := Success(scores);
      assert Elems(docs) == Candidates(index, query) by {
        forall y ensures y in Candidates(index, query) <==> y in docs {
          CandidatesMembership(index, query, y);
        }
      }
      VsmScoresValue(index, n, query, scheme, ln, space);
    }

    /**
     * The numpy part: `X * idf`, `X / np.linalg.norm(X, axis = 0)`,
     * `q * idf_multiplier`, `q / np.linalg.norm(q)` when `q.sum() > 0`, and
     * `dict(zip(doc_id_list, q @ X))`.
     */
    method CombineWeights(s: Scheme, terms: seq<Term>, docs: seq<Id>, query: seq<Term>, X: seq<seq<real>>, q: seq<real>, idfs: seq<real>,
                          ln: real -> real, inverseNorm: seq<real> -> real)
      returns (scores: map<Id, real>)
      requires |X| == |terms| && |q| == |terms|
      requires forall i :: 0 <= i < |X| ==> |X[i]| == |docs|
      requires forall i, j :: 0 <= i < |X| && 0 <= j < |docs| ==> X[i][j] == RawDocumentWeight(s.document.tf, index, terms[i], docs[j], ln)
      requires forall i :: 0 <= i < |q| ==> q[i] == RawQueryWeight(s.query.tf, index, query, terms[i], ln)
      requires s.document.idf || s.query.idf ==> |idfs| == |terms| && forall i :: 0 <= i < |terms| ==> idfs[i] == IdfWeight(index, n, terms[i], ln)
      ensures scores == map d | d in Elems(docs) :: VsmScore(s, index, n, query, terms, d, ln, inverseNorm)
    {
      var columns := DocumentColumns(s.document, terms, docs, X, idfs, ln);
      if s.document.cosine {
        columns := seq(|columns|, j requires 0 <= j < |columns| => Normalized(columns[j], inverseNorm));
      }
      var w := q;
      if s.query.idf {
        w := seq(|q|, i requires 0 <= i < |q| => Mul(q[i], idfs[i]));
      }
      assert w == QueryVector(s.query, index, n, query, terms, ln);
      if s.query.cosine && Sum(w) > 0.0 {
        w := Normalized(w, inverseNorm);
      }
      scores := map d | d in Elems(docs) :: Dot(w, columns[IndexOf(docs, d)]);
    }

    /** `X * idf` when the document side asks for it, read column by column: each column is its document's vector. */
    method DocumentColumns(s: SideScheme, terms: seq<Term>, docs: seq<Id>, X: seq<seq<real>>, idfs: seq<real>, ln: real -> real)
      returns (columns: seq<seq<real>>)
      requires |X| == |terms|
      requires forall i :: 0 <= i < |X| ==> |X[i]| == |docs|
      requires forall i, j :: 0 <= i < |X| && 0 <= j < |docs| ==> X[i][j] == RawDocumentWeight(s.tf, index, terms[i], docs[j], ln)
      requires s.idf ==> |idfs| == |terms| && forall i :: 0 <= i < |terms| ==> idfs[i] == IdfWeight(index, n, terms[i], ln)
      ensures |columns| == |docs|
      ensures forall j :: 0 <= j < |docs| ==> columns[j] == DocumentVector(s, index, n, terms, docs[j], ln)
    {
      var Y := X;
      if s.idf {
        Y := seq(|X|, i requires 0 <= i < |X| => seq(|X[i]|, j requires 0 <= j < |X[i]| => Mul(X[i][j], idfs[i])));
      }
      columns := seq(|docs|, j requires 0 <= j < |docs| => seq(|Y|, i requires 0 <= i < |Y| => Y[i][j]));
      forall j | 0 <= j < |docs| ensures columns[j] == DocumentVector(s, index, n, terms, docs[j], ln) {
        assert forall i :: 0 <= i < |terms| ==> columns[j][i] == DocumentTermWeight(s, index, n, terms[i], docs[j], ln);
      }
    }

    /** The loops filling `X`: one row per index term, one column per document, the tf weight of letter `c`. */
    method FillDocumentWeights(terms: seq<Term>, docs: seq<Id>, c: char, ln: real -> real) returns (X: seq<seq<real>>)
      ensures |X| == |terms|
      ensures forall i :: 0 <= i < |X| ==> |X[i]| == |docs|
      ensures forall i, j :: 0 <= i < |X| && 0 <= j < |docs| ==> X[i][j] == RawDocumentWeight(TfLetter(c), index, terms[i], docs[j], ln)
    {
      X := [];
      for i := 0 to |terms|
        invariant |X| == i
        invariant forall k :: 0 <= k < i ==> |X[k]| == |docs|
        invariant forall k, j :: 0 <= k < i && 0 <= j < |docs| ==> X[k][j] == RawDocumentWeight(TfLetter(c), index, terms[k], docs[j], ln)
      {
        var row: seq<real> := [];
        for j := 0 to |docs|
          invariant |row| == j
          invariant forall k :: 0 <= k < j ==> row[k] == RawDocumentWeight(TfLetter(c), index, terms[i], docs[k], ln)
        {
          var x := 0.0;
          if terms[i] in index && docs[j] in index[terms[i]] {
            if c == 'n' {
              x := index[terms[i]][docs[j]] as real;
            } else if c == 'l' {
              x := ln(index[terms[i]][docs[j]] as real) + 1.0;
            }
          }
          row := row + [x];
        }
        X := X + [row];
      }
    }

    /** The loop filling `q`: the tf weight of letter `c` of each index term's count in the query. */
    method FillQueryWeights(terms: seq<Term>, query: seq<Term>, c: char, ln: real -> real) returns (q: seq<real>)
      ensures |q| == |terms|
      ensures forall i :: 0 <= i < |q| ==> q[i] == RawQueryWeight(TfLetter(c), index, query, terms[i], ln)
    {
      q := [];
      for i := 0 to |terms|
        invariant |q| == i
        invariant forall k :: 0 <= k < i ==> q[k] == RawQueryWeight(TfLetter(c), index, query, terms[k], ln)
      {
        var x := 0.0;
        if terms[i] in index && terms[i] in query {
          if c == 'n' {
            x := Count(query, terms[i]) as real;
          } else if c == 'l' {
            x := ln(Count(query, terms[i]) as real) + 1.0;
          }
        }
        q := q + [x];
      }
    }
  }

  /** The summed column of `X * idf` is the BM25 score of that column's document. */
  lemma {:induction false} ColumnScoreIsBm25(P: Postings, n: int, X: seq<seq<real>>, idfs: seq<real>, query: seq<Term>, docs: seq<Id>,
                                             j: nat, k: nat, lengths: map<Id, real>, avgdl: real, ln: real -> real)
    requires k <= |query| && |X| == |query| && |idfs| == |query| && j < |docs|
    requires forall i :: 0 <= i < |X| ==> |X[i]| == |docs|
    requires forall i :: 0 <= i < |query| ==> Entry(P, query[i], docs[j], lengths, avgdl) == Success(X[i][j])
    requires forall i :: 0 <= i < |query| ==> idfs[i] == IdfWeight(P, n, query[i], ln)
    ensures ColumnScore(X, idfs, j, k) == Bm25Score(P, n, query[..k], docs[j], lengths, avgdl, ln)
  {
    if k > 0 {
      ColumnScoreIsBm25(P, n, X, idfs, query, docs, j, k - 1, lengths, avgdl, ln);
      assert query[..k][..k - 1] == query[..k - 1];
    }
  }

  /** A failing entry of a row rules BM25 out and, for `KeyError`, names a candidate without a length. */
  lemma FailingEntry(P: Postings, query: seq<Term>, i: nat, d: Id, lengths: map<Id, real>, avgdl: real, e: Exception)
    requires i < |query| && Entry(P, query[i], d, lengths, avgdl) == Failure(e)
    ensures !Bm25Ok(P, query, lengths, avgdl)
    ensures e == KeyError || e == ZeroDivisionError
    ensures e == KeyError ==> d in Candidates(P, query) && d !in lengths
  {
    CandidatesMembership(P, query, d);
  }
}
