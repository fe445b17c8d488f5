/**
 * Retrieval metrics (`Logic/core/utility/evaluation.py`): precision, recall,
 * F1, average precision and its mean over queries, the graded relevance score,
 * reciprocal rank and its mean. Python floats are modelled as reals; each
 * division by zero the source can reach is an error outcome.
 */
module Evaluation {
  import opened Wrappers
  import opened Seqs
  import opened Reals

  type Id = string

  // ---------------------------------------------------------------------------
  // Sums and means.

  function Sum(xs: seq<real>): real {
    if xs == [] then 0.0 else Sum(xs[..|xs| - 1]) + xs[|xs| - 1]
  }

  lemma SumSnoc(xs: seq<real>, x: real)
    ensures Sum(xs + [x]) == Sum(xs) + x
  {
    assert (xs + [x])[..|xs|] == xs;
  }

  predicate InUnit(xs: seq<real>) {
    forall i :: 0 <= i < |xs| ==> 0.0 <= xs[i] <= 1.0
  }

  /** A sum of values in `[0, 1]` lies in `[0, |xs|]` and reaches each end only when every value does. */
  lemma {:induction false} SumUnit(xs: seq<real>)
    requires InUnit(xs)
    ensures 0.0 <= Sum(xs) <= |xs| as real
    ensures Sum(xs) == |xs| as real <==> forall i :: 0 <= i < |xs| ==> xs[i] == 1.0
    ensures Sum(xs) == 0.0 <==> forall i :: 0 <= i < |xs| ==> xs[i] == 0.0
  {
    if xs != [] {
      var init := xs[..|xs| - 1];
      assert InUnit(init) by {
        forall i | 0 <= i < |init| ensures 0.0 <= init[i] <= 1.0 {
          assert init[i] == xs[i];
        }
      }
      SumUnit(init);
      assert forall i :: 0 <= i < |init| ==> init[i] == xs[i];
    }
  }

  /** The mean of values in `[0, 1]` lies in `[0, 1]`. */
  lemma MeanUnit(xs: seq<real>)
    requires xs != [] && InUnit(xs)
    ensures 0.0 <= Sum(xs) / |xs| as real <= 1.0
    ensures Sum(xs) / |xs| as real == 1.0 <==> forall i :: 0 <= i < |xs| ==> xs[i] == 1.0
    ensures Sum(xs) / |xs| as real == 0.0 <==> forall i :: 0 <= i < |xs| ==> xs[i] == 0.0
  {
    SumUnit(xs);
    FracBounds(Sum(xs), |xs| as real);
  }

  // ---------------------------------------------------------------------------
  // Precision, recall and F1.

  /** `len(set(predicted) & set(actual))`. */
  function Hits(actual: seq<Id>, predicted: seq<Id>): nat {
    |Elems(predicted) * Elems(actual)|
  }

  /** `calculate_precision`: an empty prediction divides by zero. */
  function Precision(actual: seq<Id>, predicted: seq<Id>): (r: Result<real>)
    ensures r.Success? <==> predicted != []
  {
    if |predicted| == 0 then Failure(ZeroDivisionError)
    else Success(Hits(actual, predicted) as real / |predicted| as real)
  }

  /** `calculate_recall`: `None` for an empty relevant list. */
  function Recall(actual: seq<Id>, predicted: seq<Id>): (r: Option<real>)
    ensures r.Some? <==> actual != []
  {
    if |actual| == 0 then None
    else Some(Hits(actual, predicted) as real / |actual| as real)
  }

  /**
   * Precision lies in `[0, 1]`; it is `0` exactly when no prediction is
   * relevant and `1` exactly when the predictions are distinct and all relevant.
   */
  lemma PrecisionBounds(actual: seq<Id>, predicted: seq<Id>)
    requires predicted != []
    ensures var p := Precision(actual, predicted).value;
      && 0.0 <= p <= 1.0
      && (p == 0.0 <==> forall i :: 0 <= i < |predicted| ==> predicted[i] !in actual)
      && (p == 1.0 <==> Distinct(predicted) && forall i :: 0 <= i < |predicted| ==> predicted[i] in actual)
  {
    CommonFacts(actual, predicted);
    FracBounds(Hits(actual, predicted) as real, |predicted| as real);
  }

  /** How the number of hits compares with the sizes of the two lists. */
  lemma CommonFacts(actual: seq<Id>, predicted: seq<Id>)
    ensures Hits(actual, predicted) <= |predicted| && Hits(actual, predicted) <= |actual|
    ensures Hits(actual, predicted) == 0 <==> forall i :: 0 <= i < |predicted| ==> predicted[i] !in actual
    ensures Hits(actual, predicted) == 0 <==> forall i :: 0 <= i < |actual| ==> actual[i] !in predicted
    ensures Hits(actual, predicted) == |predicted| <==>
      Distinct(predicted) && forall i :: 0 <= i < |predicted| ==> predicted[i] in actual
    ensures Hits(actual, predicted) == |actual| <==>
      Distinct(actual) && forall i :: 0 <= i < |actual| ==> actual[i] in predicted
  {
    var common := Elems(predicted) * Elems(actual);
    SubsetCard(common, Elems(predicted));
    SubsetCard(common, Elems(actual));
    ElemsCard(predicted);
    ElemsCard(actual);
    CoveredIffSubset(predicted, actual);
    CoveredIffSubset(actual, predicted);
    assert common == Elems(actual) * Elems(predicted);
    if common != {} {
      var x :| x in common;
      var i :| 0 <= i < |predicted| && predicted[i] == x;
      var j :| 0 <= j < |actual| && actual[j] == x;
    }
    if exists i :: 0 <= i < |predicted| && predicted[i] in actual {
      var i :| 0 <= i < |predicted| && predicted[i] in actual;
      assert predicted[i] in common;
    }
    if exists i :: 0 <= i < |actual| && actual[i] in predicted {
      var i :| 0 <= i < |actual| && actual[i] in predicted;
      assert actual[i] in common;
    }
  }

  /** Every element of `a` is in `b` exactly when `set(a) & set(b) == set(a)`. */
  lemma CoveredIffSubset(a: seq<Id>, b: seq<Id>)
    ensures (forall i :: 0 <= i < |a| ==> a[i] in b) <==> Elems(a) * Elems(b) == Elems(a)
  {
    if Elems(a) * Elems(b) == Elems(a) {
      forall i | 0 <= i < |a| ensures a[i] in b {
        assert a[i] in Elems(a);
      }
    }
  }

  /**
   * Recall lies in `[0, 1]`; it is `0` exactly when no relevant item is
   * predicted and `1` exactly when the relevant items are distinct and all predicted.
   */
  lemma RecallBounds(actual: seq<Id>, predicted: seq<Id>)
    requires actual != []
    ensures var r := Recall(actual, predicted).value;
      && 0.0 <= r <= 1.0
      && (r == 0.0 <==> forall i :: 0 <= i < |actual| ==> actual[i] !in predicted)
      && (r == 1.0 <==> Distinct(actual) && forall i :: 0 <= i < |actual| ==> actual[i] in predicted)
  {
    CommonFacts(actual, predicted);
    FracBounds(Hits(actual, predicted) as real, |actual| as real);
  }

  /** `2 * p * r / (p + r)`. */
  function HarmonicMean(p: real, r: real): real
    requires p + r != 0.0
  {
    Mul(2.0 * p, r) / (p + r)
  }

  /** For `p, r` in `[0, 1]` the harmonic mean lies between them, so in `(0, 1]`. */
  lemma HarmonicMeanBetween(p: real, r: real)
    requires 0.0 <= p <= 1.0 && 0.0 <= r <= 1.0 && p + r > 0.0
    ensures var f := HarmonicMean(p, r);
      (p <= r ==> p <= f <= r) && (r <= p ==> r <= f <= p) && 0.0 <= f <= 1.0
  {
    var s := p + r;
    var num := Mul(2.0 * p, r);
    assert num == 2.0 * p * r;
    if p <= r {
      MulNonneg(p, r - p);
      MulNonneg(r, r - p);
      assert p * (r - p) == p * r - p * p;
      assert r * (r - p) == r * r - r * p;
      assert p * s == p * p + p * r;
      assert r * s == r * p + r * r;
      QuotientBetween(num, s, p, r);
    } else {
      MulNonneg(r, p - r);
      MulNonneg(p, p - r);
      assert r * (p - r) == r * p - r * r;
      assert p * (p - r) == p * p - p * r;
      assert r * s == r * p + r * r;
      assert p * s == p * p + p * r;
      QuotientBetween(num, s, r, p);
    }
  }

  /**
   * `calculate_F1`: recall is computed first, then precision, which raises on
   * an empty prediction; `None` when recall is `None` or `p + r == 0`. (The
   * source's `p is None` test never holds: precision never returns `None`.)
   */
  function F1(actual: seq<Id>, predicted: seq<Id>): Result<Option<real>> {
    var r := Recall(actual, predicted);
    var p := Precision(actual, predicted);
    if p.Failure? then Failure(p.error)
    else if r.None? || p.value + r.value == 0.0 then Success(None)
    else Success(Some(HarmonicMean(p.value, r.value)))
  }

  /**
   * F1 raises exactly for an empty prediction, and is `None` exactly when
   * nothing relevant is given or nothing predicted is relevant.
   */
  lemma F1Outcome(actual: seq<Id>, predicted: seq<Id>)
    ensures F1(actual, predicted).Failure? <==> predicted == []
    ensures F1(actual, predicted).Failure? ==> F1(actual, predicted).error == ZeroDivisionError
    ensures F1(actual, predicted) == Success(None) <==>
      predicted != [] && (actual == [] || forall i :: 0 <= i < |predicted| ==> predicted[i] !in actual)
  {
    if predicted != [] && actual != [] {
      CommonFacts(actual, predicted);
      QuotientSumZero(Hits(actual, predicted) as real, |predicted| as real, |actual| as real);
    }
  }

  /** A defined F1 lies in `(0, 1]`, between precision and recall. */
  lemma F1Bounds(actual: seq<Id>, predicted: seq<Id>)
    requires F1(actual, predicted).Success? && F1(actual, predicted).value.Some?
    ensures var f := F1(actual, predicted).value.value;
      var p := Precision(actual, predicted).value;
      var r := Recall(actual, predicted).value;
      0.0 < f <= 1.0 && (p <= r ==> p <= f <= r) && (r <= p ==> r <= f <= p)
  {
    PrecisionBounds(actual, predicted);
    RecallBounds(actual, predicted);
    CommonFacts(actual, predicted);
    var p := Precision(actual, predicted).value;
    var r := Recall(actual, predicted).value;
    HarmonicMeanBetween(p, r);
  }

  // ---------------------------------------------------------------------------
  // Average precision.

  /** `precision@(i+1)` for each rank `i < n` whose prediction is relevant, in rank order. */
  function HitPrecisions(actual: seq<Id>, predicted: seq<Id>, n: nat): seq<real>
    requires n <= |predicted|
  {
    if n == 0 then []
    else
      var last := if predicted[n - 1] in actual then [Precision(actual, predicted[..n]).value] else [];
      HitPrecisions(actual, predicted, n - 1) + last
  }

  lemma HitPrecisionsStep(actual: seq<Id>, predicted: seq<Id>, i: nat)
    requires i < |predicted|
    ensures predicted[i] in actual ==>
      HitPrecisions(actual, predicted, i + 1) == HitPrecisions(actual, predicted, i) + [Precision(actual, predicted[..i + 1]).value]
    ensures predicted[i] !in actual ==> HitPrecisions(actual, predicted, i + 1) == HitPrecisions(actual, predicted, i)
  {
    assert HitPrecisions(actual, predicted, i) + [] == HitPrecisions(actual, predicted, i);
  }

  /** AP: the mean of the hit precisions, `0` when there is no hit. */
  function AveragePrecision(actual: seq<Id>, predicted: seq<Id>): real {
    var hs := HitPrecisions(actual, predicted, |predicted|);
    if |hs| == 0 then 0.0 else Sum(hs) / |hs| as real
  }

  /** Each hit precision lies in `(0, 1]`, and there is one exactly when some prediction before `n` is relevant. */
  lemma {:induction false} HitPrecisionsFacts(actual: seq<Id>, predicted: seq<Id>, n: nat)
    requires n <= |predicted|
    ensures InUnit(HitPrecisions(actual, predicted, n))
    ensures forall i :: 0 <= i < |HitPrecisions(actual, predicted, n)| ==> HitPrecisions(actual, predicted, n)[i] > 0.0
    ensures HitPrecisions(actual, predicted, n) == [] <==> forall i :: 0 <= i < n ==> predicted[i] !in actual
  {
    if n > 0 {
      HitPrecisionsFacts(actual, predicted, n - 1);
      var prefix := predicted[..n];
      if predicted[n - 1] in actual {
        PrecisionBounds(actual, prefix);
        assert prefix[n - 1] in actual;
      }
    }
  }

  /** AP lies in `[0, 1]` and is positive exactly when some prediction is relevant. */
  lemma AveragePrecisionBounds(actual: seq<Id>, predicted: seq<Id>)
    ensures 0.0 <= AveragePrecision(actual, predicted) <= 1.0
    ensures AveragePrecision(actual, predicted) > 0.0 <==> exists i :: 0 <= i < |predicted| && predicted[i] in actual
  {
    var hs := HitPrecisions(actual, predicted, |predicted|);
    HitPrecisionsFacts(actual, predicted, |predicted|);
    if hs != [] {
      MeanUnit(hs);
      assert hs[0] > 0.0;
    }
  }

  /** `calculate_AP`: accumulate the precision at every relevant rank, then divide by their number. */
  method CalculateAp(actual: seq<Id>, predicted: seq<Id>) returns (ap: real)
    ensures ap == AveragePrecision(actual, predicted)
  {
    ap := 0.0;
    var cnt := 0;
    for i := 0 to |predicted|
      invariant ap == Sum(HitPrecisions(actual, predicted, i))
      invariant cnt == |HitPrecisions(actual, predicted, i)|
    {
      HitPrecisionsStep(actual, predicted, i);
      if predicted[i] in actual {
        SumSnoc(HitPrecisions(actual, predicted, i), Precision(actual, predicted[..i + 1]).value);
        ap := ap + Precision(actual, predicted[..i + 1]).value;
        cnt := cnt + 1;
      }
    }
    if cnt == 0 {
      ap := 0.0;
    } else {
      ap := ap / cnt as real;
    }
  }

  /** The AP of the first `n` queries, query by query. */
  function ApValues(actual: seq<seq<Id>>, predicted: seq<seq<Id>>, n: nat): (aps: seq<real>)
    requires n <= |actual| && n <= |predicted|
    ensures |aps| == n
  {
    if n == 0 then []
    else ApValues(actual, predicted, n - 1) + [AveragePrecision(actual[n - 1], predicted[n - 1])]
  }

  /**
   * `calculate_MAP`: indexing `actual` fails first when it is shorter, the
   * length assertion fails when it is longer, and no queries divide by zero.
   */
  function MeanAveragePrecision(actual: seq<seq<Id>>, predicted: seq<seq<Id>>): Result<real> {
    if |actual| < |predicted| then Failure(IndexError)
    else if |actual| != |predicted| then Failure(AssertionError("The actual results not the same as predicted"))
    else if |actual| == 0 then Failure(ZeroDivisionError)
    else Success(Sum(ApValues(actual, predicted, |actual|)) / |actual| as real)
  }

  /** MAP succeeds exactly on equally long non-empty lists, and then lies in `[0, 1]`. */
  lemma MeanAveragePrecisionBounds(actual: seq<seq<Id>>, predicted: seq<seq<Id>>)
    ensures MeanAveragePrecision(actual, predicted).Success? <==> |actual| == |predicted| > 0
    ensures MeanAveragePrecision(actual, predicted).Success? ==>
      0.0 <= MeanAveragePrecision(actual, predicted).value <= 1.0
  {
    if |actual| == |predicted| > 0 {
      var aps := ApValues(actual, predicted, |actual|);
      forall i | 0 <= i < |aps| ensures 0.0 <= aps[i] <= 1.0 {
        ApValuesAt(actual, predicted, |actual|, i);
        AveragePrecisionBounds(actual[i], predicted[i]);
      }
      MeanUnit(aps);
    }
  }

  lemma {:induction false} ApValuesAt(actual: seq<seq<Id>>, predicted: seq<seq<Id>>, n: nat, i: nat)
    requires n <= |actual| && n <= |predicted| && i < n
    ensures ApValues(actual, predicted, n)[i] == AveragePrecision(actual[i], predicted[i])
  {
    if i < n - 1 {
      ApValuesAt(actual, predicted, n - 1, i);
    }
  }

  /** `calculate_MAP`: add each query's AP, then check the lengths and divide. */
  method CalculateMap(actual: seq<seq<Id>>, predicted: seq<seq<Id>>) returns (r: Result<real>)
    ensures r == MeanAveragePrecision(actual, predicted)
  {
    var total := 0.0;
    for i := 0 to |predicted|
      invariant i <= |actual|
      invariant total == Sum(ApValues(actual, predicted, i))
    {
      if i >= |actual| {
        return Failure(IndexError);
      }
      var ap := CalculateAp(actual[i], predicted[i]);
      SumSnoc(ApValues(actual, predicted, i), ap);
      total := total + ap;
    }
    if |actual| != |predicted| {
      return Failure(AssertionError("The actual results not the same as predicted"));
    }
    if |actual| == 0 {
      return Failure(ZeroDivisionError);
    }
    r := Success(total / |actual| as real);
  }

  // ---------------------------------------------------------------------------
  // Graded relevance.

  /**
   * `get_rate_score`: `0` for an id that is not relevant, else
   * `1 - index / len(actual)` for its first position.
   */
  function RateScore(actual: seq<Id>, docId: Id): (r: real)
    ensures docId !in actual ==> r == 0.0
    ensures docId in actual ==> 0.0 < r <= 1.0
    ensures docId in actual ==> (r == 1.0 <==> actual[0] == docId)
  {
    if docId !in actual then 0.0
    else
      var index := IndexOf(actual, docId);
      FracBounds(index as real, |actual| as real);
      1.0 - (index as real) / (|actual| as real)
  }

  /** In a list without repeats, an earlier relevant id scores strictly higher. */
  lemma RateScoreDecreasing(actual: seq<Id>, i: nat, j: nat)
    requires Distinct(actual) && i < j < |actual|
    ensures RateScore(actual, actual[i]) > RateScore(actual, actual[j])
  {
    assert IndexOf(actual, actual[i]) == i;
    assert IndexOf(actual, actual[j]) == j;
    DivLess(i as real, |actual| as real, j as real, |actual| as real);
  }

  // ---------------------------------------------------------------------------
  // Reciprocal rank.

  /** The first rank at or after `from` whose prediction is relevant. */
  function FirstRelevant(actual: seq<Id>, predicted: seq<Id>, from: nat): (r: Option<nat>)
    requires from <= |predicted|
    ensures r.Some? ==> from <= r.value < |predicted| && predicted[r.value] in actual
    ensures forall j :: from <= j < |predicted| && (r.None? || j < r.value) ==> predicted[j] !in actual
    decreases |predicted| - from
  {
    if from == |predicted| then None
    else if predicted[from] in actual then Some(from)
    else FirstRelevant(actual, predicted, from + 1)
  }

  /** `calculate_RR`: `1 / (i + 1)` for the first relevant rank `i`, else `0`. */
  function ReciprocalRank(actual: seq<Id>, predicted: seq<Id>): real {
    match FirstRelevant(actual, predicted, 0)
    case Some(i) => 1.0 / (i + 1) as real
    case None => 0.0
  }

  /**
   * RR lies in `[0, 1]`, is `1` exactly when the top prediction is relevant
   * and `0` exactly when no prediction is.
   */
  lemma ReciprocalRankBounds(actual: seq<Id>, predicted: seq<Id>)
    ensures 0.0 <= ReciprocalRank(actual, predicted) <= 1.0
    ensures ReciprocalRank(actual, predicted) == 1.0 <==> predicted != [] && predicted[0] in actual
    ensures ReciprocalRank(actual, predicted) == 0.0 <==> forall i :: 0 <= i < |predicted| ==> predicted[i] !in actual
  {
    match FirstRelevant(actual, predicted, 0)
    case Some(i) =>
      FracBounds(1.0, (i + 1) as real);
    case None =>
  }

  /** `calculate_RR`: scan the predictions and stop at the first relevant one. */
  method CalculateRr(actual: seq<Id>, predicted: seq<Id>) returns (rr: real)
    ensures rr == ReciprocalRank(actual, predicted)
  {
    rr := 0.0;
    var i := 0;
    while i < |predicted|
      invariant i <= |predicted|
      invariant FirstRelevant(actual, predicted, i) == FirstRelevant(actual, predicted, 0)
    {
      if predicted[i] in actual {
        rr := 1.0 / (i + 1) as real;
        return;
      }
      i := i + 1;
    }
  }

  /** The per-query reciprocal ranks the corrected mean averages. */
  function RrValues(actual: seq<seq<Id>>, predicted: seq<seq<Id>>): (rs: seq<real>)
    ensures |rs| == Min(|actual|, |predicted|)
  {
    seq(Min(|actual|, |predicted|), i requires 0 <= i < Min(|actual|, |predicted|) =>
      ReciprocalRank(actual[i], predicted[i]))
  }

  /** The per-query values `calculate_MRR` adds: its arguments to `calculate_RR` are swapped. */
  function RrValuesAsWritten(actual: seq<seq<Id>>, predicted: seq<seq<Id>>): (rs: seq<real>)
    ensures |rs| == Min(|actual|, |predicted|)
  {
    seq(Min(|actual|, |predicted|), i requires 0 <= i < Min(|actual|, |predicted|) =>
      ReciprocalRank(predicted[i], actual[i]))
  }

  function Min(a: nat, b: nat): nat {
    if a <= b then a else b
  }

  /**
   * `calculate_MRR` as written: over `zip(predicted, actual)` it adds
   * `calculate_RR(pred, real)`, treating the prediction as the relevant list,
   * then divides by `len(predicted)`.
   */
  function MeanReciprocalRankAsWritten(actual: seq<seq<Id>>, predicted: seq<seq<Id>>): Result<real> {
    if |predicted| == 0 then Failure(ZeroDivisionError)
    else Success(Sum(RrValuesAsWritten(actual, predicted)) / |predicted| as real)
  }

  /** The mean reciprocal rank with the arguments in the intended order. */
  function MeanReciprocalRank(actual: seq<seq<Id>>, predicted: seq<seq<Id>>): Result<real> {
    if |predicted| == 0 then Failure(ZeroDivisionError)
    else Success(Sum(RrValues(actual, predicted)) / |predicted| as real)
  }

  /** `calculate_MRR` as written: the loop over the zipped lists, then the division. */
  method CalculateMrr(actual: seq<seq<Id>>, predicted: seq<seq<Id>>) returns (r: Result<real>)
    ensures r == MeanReciprocalRankAsWritten(actual, predicted)
  {
    var total := 0.0;
    var n := Min(|actual|, |predicted|);
    ghost var rs := RrValuesAsWritten(actual, predicted);
    for i := 0 to n
      invariant total == Sum(rs[..i])
    {
      var rr := CalculateRr(predicted[i], actual[i]);
      assert rs[..i + 1] == rs[..i] + [rr];
      SumSnoc(rs[..i], rr);
      total := total + rr;
    }
    assert rs[..n] == rs;
    if |predicted| == 0 {
      return Failure(ZeroDivisionError);
    }
    r := Success(total / |predicted| as real);
  }

  /**
   * The corrected mean lies in `[0, 1]` and is `1` exactly when every query
   * has a relevant list and its top prediction is relevant.
   */
  lemma MeanReciprocalRankBounds(actual: seq<seq<Id>>, predicted: seq<seq<Id>>)
    requires predicted != []
    ensures 0.0 <= MeanReciprocalRank(actual, predicted).value <= 1.0
    ensures MeanReciprocalRank(actual, predicted).value == 1.0 <==>
      |predicted| <= |actual| && forall i :: 0 <= i < |predicted| ==> predicted[i] != [] && predicted[i][0] in actual[i]
  {
    var rs := RrValues(actual, predicted);
    forall i | 0 <= i < |rs| ensures 0.0 <= rs[i] <= 1.0 && (rs[i] == 1.0 <==> predicted[i] != [] && predicted[i][0] in actual[i]) {
      ReciprocalRankBounds(actual[i], predicted[i]);
    }
    SumUnit(rs);
    FracBounds(Sum(rs), |predicted| as real);
  }

  /**
   * With the relevant list `["b"]` and the ranking `["a", "b"]` the intended
   * mean is `1/2`, but the swapped call finds `"b"` first in the ranking and
   * reports `1`.
   */
  lemma MrrSwapCounterexample()
    ensures MeanReciprocalRankAsWritten([["b"]], [["a", "b"]]) == Success(1.0)
    ensures MeanReciprocalRank([["b"]], [["a", "b"]]) == Success(0.5)
  {
    var actual: seq<seq<Id>> := [["b"]];
    var predicted: seq<seq<Id>> := [["a", "b"]];
    assert "a" != "b" by {
      assert "a"[0] != "b"[0];
    }
    assert FirstRelevant(predicted[0], actual[0], 0) == Some(0);
    assert FirstRelevant(actual[0], predicted[0], 1) == Some(1);
    assert FirstRelevant(actual[0], predicted[0], 0) == Some(1);
    assert RrValuesAsWritten(actual, predicted) == [1.0];
    assert RrValues(actual, predicted) == [0.5];
    assert Sum([1.0]) == 1.0 && Sum([0.5]) == 0.5 by {
      assert [1.0][..0] == [] && [0.5][..0] == [];
    }
  }
}
