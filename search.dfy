/**
 * The `SearchEngine` of Logic/core/search.py from the token list onward:
 * one score dictionary per weighted field (BM25 or a vector-space scheme),
 * the weighted merge of those dictionaries into `final_scores`, the stable
 * descending sort and the truncation to `max_results`.
 *
 * A Python dictionary is an insertion-ordered map; `Scores` keeps both
 * halves: `order` lists the keys in insertion order and `value` maps them
 * to their scores.
 */
module Search {
  import opened Wrappers
  import opened Seqs
  import opened Postings
  import opened Reals
  import Indexer
  import Scorer

  type Field = Indexer.Field

  datatype Scores = Scores(order: seq<Id>, value: map<Id, real>)

  /** What makes `Scores` a dictionary: each key listed once, and listed iff mapped. */
  predicate ValidScores(s: Scores) {
    Distinct(s.order) && Elems(s.order) == s.value.Keys
  }

  /** `s.get(k, 0)`. */
  function Get(s: Scores, k: Id): real {
    if k in s.value then s.value[k] else 0.0
  }

  /** `s.items()`, in insertion order. */
  function Items(s: Scores): seq<(Id, real)> {
    seq(|s.order|, i requires 0 <= i < |s.order| => (s.order[i], Get(s, s.order[i])))
  }

  function Ids(items: seq<(Id, real)>): seq<Id> {
    seq(|items|, i requires 0 <= i < |items| => items[i].0)
  }

  /** The keys of a weights dictionary are distinct. */
  predicate DistinctFields(weights: seq<(Field, real)>) {
    forall i, j :: 0 <= i < j < |weights| ==> weights[i].0 != weights[j].0
  }

  // ---------------------------------------------------------------------------
  // merge_scores

  /** The body of `merge_scores` for one key: `current[k] = current.get(k, 0) + x`, appending a new key. */
  function AddTo(s: Scores, k: Id, x: real): Scores {
    if k in s.value then Scores(s.order, s.value[k := s.value[k] + x])
    else Scores(s.order + [k], s.value[k := 0.0 + x])
  }

  /** `{k: v * w for k, v in m.items()}`. */
  function ScaleMap(m: map<Id, real>, w: real): map<Id, real> {
    map k | k in m :: Mul(m[k], w)
  }

  /** `merge_scores` over the keys `keys`, adding `add[k]` to each in that order. */
  function MergeOver(current: Scores, keys: seq<Id>, add: map<Id, real>): Scores
    requires forall k :: k in keys ==> k in add
  {
    if keys == [] then current
    else AddTo(MergeOver(current, keys[..|keys| - 1], add), keys[|keys| - 1], add[keys[|keys| - 1]])
  }

  function Merge(current: Scores, incoming: Scores, w: real): Scores
    requires ValidScores(incoming)
  {
    MergeOver(current, incoming.order, ScaleMap(incoming.value, w))
  }

  /** The keys of `keys` that `ids` does not hold, in order. */
  function Unseen(ids: seq<Id>, keys: seq<Id>): seq<Id> {
    if keys == [] then []
    else Unseen(ids, keys[..|keys| - 1]) + (if keys[|keys| - 1] in ids then [] else [keys[|keys| - 1]])
  }

  lemma {:induction false} UnseenMembership(ids: seq<Id>, keys: seq<Id>, x: Id)
    ensures x in Unseen(ids, keys) <==> x in keys && x !in ids
  {
    if keys != [] {
      var init := keys[..|keys| - 1];
      UnseenMembership(ids, init, x);
      assert keys == init + [keys[|keys| - 1]];
    }
  }

  /** One key of `merge_scores`: the key is appended if new and its score grows by `x`; nothing else changes. */
  lemma AddToMeaning(s: Scores, k: Id, x: real)
    requires ValidScores(s)
    ensures ValidScores(AddTo(s, k, x))
    ensures AddTo(s, k, x).order == s.order + (if k in s.order then [] else [k])
  {
    var r := AddTo(s, k, x);
    assert k in s.value <==> k in Elems(s.order);
    if k !in s.value {
      assert Distinct(r.order) by {
        forall i, j | 0 <= i < j < |r.order| ensures r.order[i] != r.order[j] {
          if j == |r.order| - 1 {
            assert r.order[i] in Elems(s.order);
          } else {
            assert r.order[i] == s.order[i] && r.order[j] == s.order[j];
          }
        }
      }
      assert Elems(r.order) == Elems(s.order) + {k};
    }
  }

  /**
   * `merge_scores` key by key: the keys new to `current` are appended in
   * the order given, and the result is again a dictionary.
   */
  lemma {:induction false} MergeOverMeaning(current: Scores, keys: seq<Id>, add: map<Id, real>)
    requires ValidScores(current) && Distinct(keys)
    requires forall k :: k in keys ==> k in add
    ensures ValidScores(MergeOver(current, keys, add))
    ensures MergeOver(current, keys, add).order == current.order + Unseen(current.order, keys)
  {
    if keys != [] {
      var init, last := keys[..|keys| - 1], keys[|keys| - 1];
      DistinctInit(keys);
      MergeOverMeaning(current, init, add);
      var acc := MergeOver(current, init, add);
      UnseenMembership(current.order, init, last);
      AddToMeaning(acc, last, add[last]);
    }
  }

  /** Each listed key grows by its added amount once; every other key keeps its score. */
  lemma {:induction false} MergeOverGet(current: Scores, keys: seq<Id>, add: map<Id, real>, k: Id)
    requires Distinct(keys)
    requires forall k :: k in keys ==> k in add
    ensures Get(MergeOver(current, keys, add), k) == Get(current, k) + (if k in keys then add[k] else 0.0)
  {
    if keys != [] {
      var init, last := keys[..|keys| - 1], keys[|keys| - 1];
      DistinctInit(keys);
      MergeOverGet(current, init, add, k);
    }
  }

  lemma MergeOverSnoc(current: Scores, keys: seq<Id>, k: Id, add: map<Id, real>)
    requires forall k :: k in keys ==> k in add
    requires k in add
    ensures MergeOver(current, keys + [k], add) == AddTo(MergeOver(current, keys, add), k, add[k])
  {
    assert (keys + [k])[..|keys|] == keys;
  }

  /** Dropping the last key of a list of distinct keys leaves distinct keys without it. */
  lemma DistinctInit(keys: seq<Id>)
    requires Distinct(keys) && keys != []
    ensures Distinct(keys[..|keys| - 1]) && keys[|keys| - 1] !in keys[..|keys| - 1]
    ensures forall k :: k in keys <==> k in keys[..|keys| - 1] || k == keys[|keys| - 1]
  {
    var init, last := keys[..|keys| - 1], keys[|keys| - 1];
    assert keys == init + [last];
    forall i | 0 <= i < |init| ensures init[i] != last {
      assert init[i] == keys[i];
    }
  }

  /**
   * `merge_scores(current, incoming, w)`: every key of `incoming` ends with
   * `old-or-0 + incoming[k] * w`, every other key keeps its score, and the
   * keys new to `current` are appended in the order of `incoming`.
   */
  lemma MergeScoresMeaning(current: Scores, incoming: Scores, w: real)
    requires ValidScores(current) && ValidScores(incoming)
    ensures ValidScores(Merge(current, incoming, w))
    ensures Merge(current, incoming, w).order == current.order + Unseen(current.order, incoming.order)
    ensures Merge(current, incoming, w).value.Keys == current.value.Keys + incoming.value.Keys
    ensures forall k :: Get(Merge(current, incoming, w), k) == Get(current, k) + Mul(Get(incoming, k), w)
  {
    var add := ScaleMap(incoming.value, w);
    MergeOverMeaning(current, incoming.order, add);
    var r := Merge(current, incoming, w);
    forall k ensures k in r.value <==> k in current.value || k in incoming.value {
      UnseenMembership(current.order, incoming.order, k);
    }
    forall k ensures Get(r, k) == Get(current, k) + Mul(Get(incoming, k), w) {
      MergeOverGet(current, incoming.order, add, k);
      assert k in incoming.order <==> k in Elems(incoming.order);
    }
  }

  /** `merge_scores(current, incoming, w)` on a copy: `current` as the loop leaves it. */
  method MergeScores(current: Scores, incoming: Scores, w: real) returns (r: Scores)
    requires ValidScores(current) && ValidScores(incoming)
    ensures r == Merge(current, incoming, w)
    ensures ValidScores(r)
    ensures r.order == current.order + Unseen(current.order, incoming.order)
    ensures forall k :: Get(r, k) == Get(current, k) + Mul(Get(incoming, k), w)
  {
    ghost var add := ScaleMap(incoming.value, w);
    r := current;
    for i := 0 to |incoming.order|
      invariant r == MergeOver(current, incoming.order[..i], add)
    {
      var key := incoming.order[i];
      ghost var before := r;
      if key !in r.value {
        r := Scores(r.order + [key], r.value[key := 0.0]);
      }
      r := Scores(r.order, r.value[key := r.value[key] + Mul(incoming.value[key], w)]);
      assert r.value == AddTo(before, key, add[key]).value;
      assert incoming.order[..i + 1] == incoming.order[..i] + [key];
      MergeOverSnoc(current, incoming.order[..i], key, add);
    }
    assert incoming.order[..|incoming.order|] == incoming.order;
    MergeScoresMeaning(current, incoming, w);
  }

  // ---------------------------------------------------------------------------
  // aggregate_scores

  /** `final_scores` after `aggregate_scores(weights, scores, {})`; `KeyError` for a weighted field without scores. */
  function Aggregate(weights: seq<(Field, real)>, scores: map<Field, Scores>): Result<Scores>
    requires forall f :: f in scores ==> ValidScores(scores[f])
  {
    if weights == [] then Success(Scores([], map[]))
    else
      var prev := Aggregate(weights[..|weights| - 1], scores);
      var (f, w) := weights[|weights| - 1];
      if prev.Failure? then prev
      else if f !in scores then Failure(KeyError)
      else Success(Merge(prev.value, scores[f], w))
  }

  predicate AllScored(weights: seq<(Field, real)>, scores: map<Field, Scores>) {
    forall i :: 0 <= i < |weights| ==> weights[i].0 in scores
  }

  /** Sum over the weighted fields of `score * weight`; a document missing from a field adds 0. */
  function WeightedSum(weights: seq<(Field, real)>, scores: map<Field, Scores>, d: Id): real
    requires AllScored(weights, scores)
  {
    if weights == [] then 0.0
    else WeightedSum(weights[..|weights| - 1], scores, d) + Mul(Get(scores[weights[|weights| - 1].0], d), weights[|weights| - 1].1)
  }

  /** Every document scored in some weighted field. */
  function Scored(weights: seq<(Field, real)>, scores: map<Field, Scores>): set<Id>
    requires AllScored(weights, scores)
  {
    if weights == [] then {}
    else Scored(weights[..|weights| - 1], scores) + scores[weights[|weights| - 1].0].value.Keys
  }

  /** The documents scored by aggregation are those keyed in some weighted field's scores. */
  lemma {:induction false} ScoredKeys(weights: seq<(Field, real)>, scores: map<Field, Scores>)
    requires AllScored(weights, scores)
    ensures Scored(weights, scores) == set d, i | 0 <= i < |weights| && d in scores[weights[i].0].value :: d
  {
    if weights != [] {
      var init := weights[..|weights| - 1];
      assert AllScored(init, scores) by {
        forall i | 0 <= i < |init| ensures init[i].0 in scores {
          assert init[i] == weights[i];
        }
      }
      ScoredKeys(init, scores);
      var U := set d, i | 0 <= i < |weights| && d in scores[weights[i].0].value :: d;
      var Ui := set d, i | 0 <= i < |init| && d in scores[init[i].0].value :: d;
      forall d | d in U ensures d in Ui || d in scores[weights[|weights| - 1].0].value {
        var i :| 0 <= i < |weights| && d in scores[weights[i].0].value;
        if i < |init| {
          assert init[i] == weights[i];
        }
      }
      forall d | d in Ui ensures d in U {
        var i :| 0 <= i < |init| && d in scores[init[i].0].value;
        assert init[i] == weights[i];
      }
    }
  }

  /**
   * `aggregate_scores` succeeds exactly when every weighted field has
   * scores; then each document's final score is its weighted sum over the
   * fields and the keys are the documents scored in some field.
   */
  lemma {:induction false} AggregateMeaning(weights: seq<(Field, real)>, scores: map<Field, Scores>)
    requires forall f :: f in scores ==> ValidScores(scores[f])
    ensures Aggregate(weights, scores).Success? <==> AllScored(weights, scores)
    ensures Aggregate(weights, scores).Failure? ==> Aggregate(weights, scores).error == KeyError
    ensures Aggregate(weights, scores).Success? ==>
              ValidScores(Aggregate(weights, scores).value) &&
              Aggregate(weights, scores).value.value.Keys == Scored(weights, scores) &&
              forall d :: Get(Aggregate(weights, scores).value, d) == WeightedSum(weights, scores, d)
  {
    if weights != [] {
      var init := weights[..|weights| - 1];
      var (f, w) := weights[|weights| - 1];
      AggregateMeaning(init, scores);
      assert AllScored(weights, scores) <==> AllScored(init, scores) && f in scores by {
        assert forall i :: 0 <= i < |init| ==> init[i] == weights[i];
      }
      var prev := Aggregate(init, scores);
      if prev.Success? && f in scores {
        MergeScoresMeaning(prev.value, scores[f], w);
      }
    }
  }

  lemma {:induction false} AggregateFailurePersists(weights: seq<(Field, real)>, scores: map<Field, Scores>, k: nat)
    requires forall f :: f in scores ==> ValidScores(scores[f])
    requires k <= |weights| && Aggregate(weights[..k], scores).Failure?
    ensures Aggregate(weights, scores) == Aggregate(weights[..k], scores)
    decreases |weights|
  {
    if k < |weights| {
      var init := weights[..|weights| - 1];
      assert init[..k] == weights[..k];
      AggregateFailurePersists(init, scores, k);
    } else {
      assert weights[..k] == weights;
    }
  }

  /** `aggregate_scores(weights, scores, final_scores)` with `final_scores` empty. */
  method AggregateScores(weights: seq<(Field, real)>, scores: map<Field, Scores>) returns (r: Result<Scores>)
    requires forall f :: f in scores ==> ValidScores(scores[f])
    ensures r == Aggregate(weights, scores)
    ensures r.Success? <==> AllScored(weights, scores)
    ensures r.Failure? ==> r.error == KeyError
    ensures r.Success? ==> ValidScores(r.value) && forall d :: Get(r.value, d) == WeightedSum(weights, scores, d)
  {
    var final := Scores([], map[]);
    for i := 0 to |weights|
      invariant Aggregate(weights[..i], scores) == Success(final)
      invariant ValidScores(final)
    {
      var (f, w) := weights[i];
      assert weights[..i + 1][..i] == weights[..i];
      if f !in scores {
        AggregateFailurePersists(weights, scores, i + 1);
        AggregateMeaning(weights, scores);
        return Failure(KeyError);
      }
      MergeScoresMeaning(final, scores[f], w);
      final := MergeScores(final, scores[f], w);
    }
    assert weights[..|weights|] == weights;
    AggregateMeaning(weights, scores);
    r := Success(final);
  }

  // ---------------------------------------------------------------------------
  // sorted(final_scores.items(), key=lambda x: x[1], reverse=True)

  predicate Descending(items: seq<(Id, real)>) {
    forall i, j :: 0 <= i < j < |items| ==> items[i].1 >= items[j].1
  }

  /** Places `x` before the first item whose score it reaches, so it precedes its ties. */
  function InsertDescending(x: (Id, real), t: seq<(Id, real)>): (r: seq<(Id, real)>)
    ensures multiset(r) == multiset(t) + multiset{x}
    ensures |r| == |t| + 1
  {
    if t == [] || x.1 >= t[0].1 then [x] + t
    else
      assert t == [t[0]] + t[1..];
      [t[0]] + InsertDescending(x, t[1..])
  }

  lemma {:induction false} InsertKeepsDescending(x: (Id, real), t: seq<(Id, real)>)
    requires Descending(t)
    ensures Descending(InsertDescending(x, t))
  {
    if t != [] && x.1 < t[0].1 {
      var rest := InsertDescending(x, t[1..]);
      InsertKeepsDescending(x, t[1..]);
      forall j | 0 <= j < |rest| ensures rest[j].1 <= t[0].1 {
        assert rest[j] in multiset(rest);
        if rest[j] != x {
          assert rest[j] in multiset(t[1..]);
          var i :| 0 <= i < |t[1..]| && t[1..][i] == rest[j];
          assert t[i + 1] == rest[j];
        }
      }
      var r := [t[0]] + rest;
      forall i, j | 0 <= i < j < |r| ensures r[i].1 >= r[j].1 {
        if i > 0 {
          assert r[i] == rest[i - 1] && r[j] == rest[j - 1];
        } else {
          assert r[j] == rest[j - 1];
        }
      }
    }
  }

  /** Python's stable sort by score, highest first. */
  function SortDescending(s: seq<(Id, real)>): (r: seq<(Id, real)>)
    ensures multiset(r) == multiset(s)
    ensures |r| == |s|
    ensures Descending(r)
  {
    if s == [] then []
    else
      assert s == [s[0]] + s[1..];
      InsertKeepsDescending(s[0], SortDescending(s[1..]));
      InsertDescending(s[0], SortDescending(s[1..]))
  }

  /** The items with score `v`, in order. */
  function WithScore(s: seq<(Id, real)>, v: real): seq<(Id, real)> {
    if s == [] then [] else (if s[0].1 == v then [s[0]] else []) + WithScore(s[1..], v)
  }

  lemma {:induction false} InsertWithScore(x: (Id, real), t: seq<(Id, real)>, v: real)
    requires Descending(t)
    ensures WithScore(InsertDescending(x, t), v) == (if x.1 == v then [x] else []) + WithScore(t, v)
  {
    if t == [] || x.1 >= t[0].1 {
      assert ([x] + t)[1..] == t;
    } else {
      var rest := InsertDescending(x, t[1..]);
      assert Descending(t[1..]) by {
        forall i, j | 0 <= i < j < |t[1..]| ensures t[1..][i].1 >= t[1..][j].1 {
          assert t[1..][i] == t[i + 1] && t[1..][j] == t[j + 1];
        }
      }
      InsertWithScore(x, t[1..], v);
      assert ([t[0]] + rest)[1..] == rest;
    }
  }

  /** Stability: among items of equal score the sort keeps the input order. */
  lemma {:induction false} SortIsStable(s: seq<(Id, real)>, v: real)
    ensures WithScore(SortDescending(s), v) == WithScore(s, v)
  {
    if s != [] {
      SortIsStable(s[1..], v);
      InsertWithScore(s[0], SortDescending(s[1..]), v);
    }
  }

  // ---------------------------------------------------------------------------
  // result[:max_results]

  /** The end of the slice `[:m]` of a list of length `len`, negative `m` counting from the end. */
  function SliceEnd(len: nat, m: Option<int>): (e: nat)
    ensures e <= len
    ensures m.None? ==> e == len
    ensures m.Some? && m.value >= 0 ==> e == if m.value < len then m.value else len
    ensures m.Some? && m.value < 0 ==> e == if len + m.value > 0 then len + m.value else 0
  {
    match m
    case None => len
    case Some(k) =>
      if k >= 0 then (if k < len then k else len)
      else if len + k > 0 then len + k else 0
  }

  function Truncate(items: seq<(Id, real)>, m: Option<int>): seq<(Id, real)> {
    items[..SliceEnd(|items|, m)]
  }

  /** The result of `search` built from `final_scores`. */
  function Rank(final: Scores, m: Option<int>): seq<(Id, real)> {
    Truncate(SortDescending(Items(final)), m)
  }

  /** Truncating a descending list keeps a best prefix: nothing dropped outscores anything kept. */
  lemma TruncateKeepsBest(items: seq<(Id, real)>, m: Option<int>)
    requires Descending(items)
    ensures Descending(Truncate(items, m))
    ensures forall i, j :: 0 <= i < |Truncate(items, m)| <= j < |items| ==> items[j].1 <= Truncate(items, m)[i].1
  {
  }

  /** `max_results=0` yields `[]`; `None` yields everything. */
  lemma TruncateBounds(items: seq<(Id, real)>)
    ensures Truncate(items, Some(0)) == []
    ensures Truncate(items, None) == items
  {
  }

  // ---------------------------------------------------------------------------
  // Scaling the weights

  function ScaleWeights(weights: seq<(Field, real)>, c: real): (r: seq<(Field, real)>)
    ensures |r| == |weights|
  {
    seq(|weights|, i requires 0 <= i < |weights| => (weights[i].0, Mul(c, weights[i].1)))
  }

  function ScaleScores(s: Scores, c: real): Scores {
    Scores(s.order, ScaleMap(s.value, c))
  }

  function ScaleItems(items: seq<(Id, real)>, c: real): (r: seq<(Id, real)>)
    ensures |r| == |items|
  {
    seq(|items|, i requires 0 <= i < |items| => (items[i].0, Mul(items[i].1, c)))
  }

  lemma AddToScaled(s: Scores, k: Id, x: real, c: real)
    ensures AddTo(ScaleScores(s, c), k, Mul(x, c)) == ScaleScores(AddTo(s, k, x), c)
  {
    var L, R := AddTo(ScaleScores(s, c), k, Mul(x, c)), ScaleScores(AddTo(s, k, x), c);
    if k in s.value {
      assert Mul(s.value[k] + x, c) == Mul(s.value[k], c) + Mul(x, c);
    } else {
      assert Mul(0.0 + x, c) == 0.0 + Mul(x, c);
    }
    assert L.value == R.value;
  }

  lemma {:induction false} MergeOverScaled(current: Scores, keys: seq<Id>, add: map<Id, real>, c: real)
    requires forall k :: k in keys ==> k in add
    ensures MergeOver(ScaleScores(current, c), keys, ScaleMap(add, c)) == ScaleScores(MergeOver(current, keys, add), c)
  {
    if keys != [] {
      var init, last := keys[..|keys| - 1], keys[|keys| - 1];
      MergeOverScaled(current, init, add, c);
      AddToScaled(MergeOver(current, init, add), last, add[last], c);
    }
  }

  lemma ScaleMapTwice(m: map<Id, real>, w: real, c: real)
    ensures ScaleMap(m, Mul(c, w)) == ScaleMap(ScaleMap(m, w), c)
  {
    forall k | k in m ensures Mul(m[k], Mul(c, w)) == Mul(Mul(m[k], w), c) {
    }
  }

  /** Scaling every weight by `c` scales every final score by `c` and keeps the insertion order. */
  lemma {:induction false} AggregateScaled(weights: seq<(Field, real)>, scores: map<Field, Scores>, c: real)
    requires forall f :: f in scores ==> ValidScores(scores[f])
    ensures Aggregate(ScaleWeights(weights, c), scores).Success? == Aggregate(weights, scores).Success?
    ensures Aggregate(weights, scores).Success? ==>
              Aggregate(ScaleWeights(weights, c), scores).value == ScaleScores(Aggregate(weights, scores).value, c)
  {
    if weights != [] {
      var init := weights[..|weights| - 1];
      AggregateScaled(init, scores, c);
      var sw := ScaleWeights(weights, c);
      assert sw[..|sw| - 1] == ScaleWeights(init, c);
      var (f, w) := weights[|weights| - 1];
      assert sw[|sw| - 1] == (f, Mul(c, w));
      var prev := Aggregate(init, scores);
      if prev.Success? && f in scores {
        ScaleMapTwice(scores[f].value, w, c);
        MergeOverScaled(prev.value, scores[f].order, ScaleMap(scores[f].value, w), c);
      }
    } else {
      assert ScaleScores(Scores([], map[]), c) == Scores([], map[]);
    }
  }

  lemma ScaleItemsTail(t: seq<(Id, real)>, c: real)
    requires t != []
    ensures ScaleItems(t, c)[0] == (t[0].0, Mul(t[0].1, c))
    ensures ScaleItems(t, c)[1..] == ScaleItems(t[1..], c)
  {
  }

  lemma {:induction false} InsertScaled(x: (Id, real), t: seq<(Id, real)>, c: real)
    requires c > 0.0
    ensures InsertDescending((x.0, Mul(x.1, c)), ScaleItems(t, c)) == ScaleItems(InsertDescending(x, t), c)
    decreases |t|
  {
    var st := ScaleItems(t, c);
    if t == [] {
    } else {
      ScaleItemsTail(t, c);
      ScaleOrder(c, x.1, t[0].1);
      if x.1 >= t[0].1 {
        assert ScaleItems([x] + t, c) == [(x.0, Mul(x.1, c))] + st;
      } else {
        InsertScaled(x, t[1..], c);
        var rest := InsertDescending(x, t[1..]);
        assert ScaleItems([t[0]] + rest, c) == [(t[0].0, Mul(t[0].1, c))] + ScaleItems(rest, c);
      }
    }
  }

  lemma {:induction false} SortScaled(s: seq<(Id, real)>, c: real)
    requires c > 0.0
    ensures SortDescending(ScaleItems(s, c)) == ScaleItems(SortDescending(s), c)
  {
    if s != [] {
      ScaleItemsTail(s, c);
      SortScaled(s[1..], c);
      InsertScaled(s[0], SortDescending(s[1..]), c);
    }
  }

  lemma ItemsScaled(s: Scores, c: real)
    ensures Items(ScaleScores(s, c)) == ScaleItems(Items(s), c)
  {
    forall i | 0 <= i < |s.order| ensures Items(ScaleScores(s, c))[i] == ScaleItems(Items(s), c)[i] {
      var k := s.order[i];
      assert Get(ScaleScores(s, c), k) == Mul(Get(s, k), c);
    }
  }

  lemma TruncateScaled(items: seq<(Id, real)>, c: real, m: Option<int>)
    ensures Truncate(ScaleItems(items, c), m) == ScaleItems(Truncate(items, m), c)
  {
  }

  lemma IdsScaled(items: seq<(Id, real)>, c: real)
    ensures Ids(ScaleItems(items, c)) == Ids(items)
  {
  }

  /**
   * Scaling every weight by a positive `c` scales every returned score by
   * `c` and returns the same documents in the same order.
   */
  lemma RankingScaleInvariant(weights: seq<(Field, real)>, scores: map<Field, Scores>, c: real, m: Option<int>)
    requires forall f :: f in scores ==> ValidScores(scores[f])
    requires c > 0.0 && Aggregate(weights, scores).Success?
    ensures Aggregate(ScaleWeights(weights, c), scores).Success?
    ensures Rank(Aggregate(ScaleWeights(weights, c), scores).value, m) == ScaleItems(Rank(Aggregate(weights, scores).value, m), c)
    ensures Ids(Rank(Aggregate(ScaleWeights(weights, c), scores).value, m)) == Ids(Rank(Aggregate(weights, scores).value, m))
  {
    AggregateScaled(weights, scores, c);
    var final := Aggregate(weights, scores).value;
    ItemsScaled(final, c);
    SortScaled(Items(final), c);
    TruncateScaled(SortDescending(Items(final)), c, m);
    IdsScaled(Rank(final, m), c);
  }

  // ---------------------------------------------------------------------------
  // The engine

  /** The distinct documents of a dictionary listed by `items()`. */
  lemma ItemsFacts(s: Scores)
    requires ValidScores(s)
    ensures Distinct(Ids(Items(s)))
    ensures forall p :: p in Items(s) <==> p.0 in s.value && p.1 == s.value[p.0]
  {
    forall p ensures p in Items(s) <==> p.0 in s.value && p.1 == s.value[p.0] {
      if p.0 in s.value && p.1 == s.value[p.0] {
        assert p.0 in Elems(s.order);
        var i :| 0 <= i < |s.order| && s.order[i] == p.0;
        assert Items(s)[i] == p;
      }
    }
  }

  /** A permutation of a list with distinct ids has distinct ids. */
  lemma PermutationKeepsDistinctIds(a: seq<(Id, real)>, b: seq<(Id, real)>)
    requires multiset(a) == multiset(b) && Distinct(Ids(a))
    ensures Distinct(Ids(b))
  {
    forall i, j | 0 <= i < j < |b| ensures Ids(b)[i] != Ids(b)[j] {
      if b[i] == b[j] {
        TwiceInMultiset(b, i, j);
        AtMostOnce(a, b[i]);
      } else {
        assert b[i] in multiset(a) && b[j] in multiset(a);
        IdsDetermineItems(a, b[i], b[j]);
      }
    }
  }

  lemma IdsDetermineItems(a: seq<(Id, real)>, p: (Id, real), q: (Id, real))
    requires Distinct(Ids(a)) && p in a && q in a
    ensures p.0 == q.0 ==> p == q
  {
    var i :| 0 <= i < |a| && a[i] == p;
    var j :| 0 <= j < |a| && a[j] == q;
    assert Ids(a)[i] == p.0 && Ids(a)[j] == q.0;
  }

  lemma TwiceInMultiset(b: seq<(Id, real)>, i: nat, j: nat)
    requires i < j < |b| && b[i] == b[j]
    ensures multiset(b)[b[i]] >= 2
  {
    assert b == b[..j] + [b[j]] + b[j + 1..];
    assert b[i] in b[..j];
  }

  lemma {:induction false} AtMostOnce(a: seq<(Id, real)>, p: (Id, real))
    requires Distinct(Ids(a))
    ensures multiset(a)[p] <= 1
  {
    if a != [] {
      var init := a[..|a| - 1];
      assert a == init + [a[|a| - 1]];
      assert Distinct(Ids(init)) by {
        forall i, j | 0 <= i < j < |init| ensures Ids(init)[i] != Ids(init)[j] {
          assert Ids(init)[i] == Ids(a)[i] && Ids(init)[j] == Ids(a)[j];
        }
      }
      AtMostOnce(init, p);
      if a[|a| - 1] == p {
        assert p !in init by {
          forall i | 0 <= i < |init| ensures init[i] != p {
            assert Ids(a)[i] != Ids(a)[|a| - 1];
          }
        }
      }
    }
  }

  /**
   * The result of `search` over `final_scores`: documents with distinct
   * ids, each with its final score, best first, as many as `max_results`
   * lets through, and no document left out that outscores one returned.
   */
  ghost predicate IsRanking(items: seq<(Id, real)>, final: Scores, m: Option<int>) {
    && Descending(items)
    && Distinct(Ids(items))
    && (forall i :: 0 <= i < |items| ==> items[i].0 in final.value && items[i].1 == final.value[items[i].0])
    && |items| == SliceEnd(|final.value|, m)
    && (forall d :: d in final.value && d !in Ids(items) ==> forall i :: 0 <= i < |items| ==> final.value[d] <= items[i].1)
  }

  lemma RankIsRanking(final: Scores, m: Option<int>)
    requires ValidScores(final)
    ensures IsRanking(Rank(final, m), final, m)
  {
    var sorted := SortDescending(Items(final));
    var r := Rank(final, m);
    TruncateKeepsBest(sorted, m);
    RankEntries(final, m);
    RankDistinct(final, m);
    RankKeepsBest(final, m);
    ElemsCard(final.order);
    assert |final.value| == |final.order| by {
      assert final.value.Keys == Elems(final.order);
    }
  }

  lemma RankEntries(final: Scores, m: Option<int>)
    requires ValidScores(final)
    ensures forall i :: 0 <= i < |Rank(final, m)| ==> Rank(final, m)[i] in Items(final)
    ensures forall i :: 0 <= i < |Rank(final, m)| ==> Rank(final, m)[i].0 in final.value && Rank(final, m)[i].1 == final.value[Rank(final, m)[i].0]
  {
    var items := Items(final);
    var sorted := SortDescending(items);
    var r := Rank(final, m);
    ItemsFacts(final);
    forall i | 0 <= i < |r| ensures r[i] in items {
      assert r[i] == sorted[i];
      assert sorted[i] in multiset(items);
    }
  }

  lemma RankDistinct(final: Scores, m: Option<int>)
    requires ValidScores(final)
    ensures Distinct(Ids(Rank(final, m)))
  {
    var items := Items(final);
    var sorted := SortDescending(items);
    var r := Rank(final, m);
    ItemsFacts(final);
    PermutationKeepsDistinctIds(items, sorted);
    forall i, j | 0 <= i < j < |r| ensures Ids(r)[i] != Ids(r)[j] {
      assert Ids(r)[i] == Ids(sorted)[i] && Ids(r)[j] == Ids(sorted)[j];
    }
  }

  lemma RankKeepsBest(final: Scores, m: Option<int>)
    requires ValidScores(final)
    ensures forall d :: d in final.value && d !in Ids(Rank(final, m)) ==>
              forall i :: 0 <= i < |Rank(final, m)| ==> final.value[d] <= Rank(final, m)[i].1
  {
    var items := Items(final);
    var sorted := SortDescending(items);
    var r := Rank(final, m);
    ItemsFacts(final);
    TruncateKeepsBest(sorted, m);
    forall d | d in final.value && d !in Ids(r) ensures forall i :: 0 <= i < |r| ==> final.value[d] <= r[i].1 {
      var p := (d, final.value[d]);
      assert p in multiset(sorted);
      var j :| 0 <= j < |sorted| && sorted[j] == p;
      assert forall t :: 0 <= t < |r| ==> Ids(r)[t] == r[t].0 && r[t] == sorted[t];
      assert j >= |r|;
      forall i | 0 <= i < |r| ensures final.value[d] <= r[i].1 {
        assert r[i] == sorted[i];
      }
    }
  }

  /** Without any field scores, only an empty weights dictionary aggregates. */
  lemma NothingScored(weights: seq<(Field, real)>, scores: map<Field, Scores>)
    requires scores == map[]
    ensures AllScored(weights, scores) <==> weights == []
  {
    if weights != [] {
      assert weights[0].0 !in scores;
    }
  }

  class SearchEngine {
    /** The per-field postings, document lengths and average lengths, and the document count. */
    const documentIndexes: map<Field, Postings>
    const documentLengths: map<Field, map<Id, real>>
    const averageLengths: map<Field, real>
    const documentCount: int

    constructor(documentIndexes: map<Field, Postings>, documentLengths: map<Field, map<Id, real>>,
                averageLengths: map<Field, real>, documentCount: int)
      ensures this.documentIndexes == documentIndexes && this.documentLengths == documentLengths
      ensures this.averageLengths == averageLengths && this.documentCount == documentCount
    {
      this.documentIndexes := documentIndexes;
      this.documentLengths := documentLengths;
      this.averageLengths := averageLengths;
      this.documentCount := documentCount;
    }

    /** The scores of one field can be computed: its tables exist and the chosen scorer does not raise. */
    ghost predicate FieldOk(f: Field, query: seq<Term>, scheme: string, ln: real -> real, space: Scorer.VectorSpace) {
      && f in documentIndexes
      && if scheme == "OkapiBM25" then
           f in averageLengths && f in documentLengths &&
           Scorer.Bm25Ok(documentIndexes[f], query, documentLengths[f], averageLengths[f])
         else Scorer.VsmScores(documentIndexes[f], documentCount, query, scheme, ln, space).Success?
    }

    /** The score map of one field: BM25 of every candidate for "OkapiBM25", the vector-space scorer otherwise. */
    ghost function FieldMap(f: Field, query: seq<Term>, scheme: string, ln: real -> real,
                            space: Scorer.VectorSpace): map<Id, real>
      requires FieldOk(f, query, scheme, ln, space)
    {
      var P := documentIndexes[f];
      if scheme == "OkapiBM25" then
        map d | d in Scorer.Candidates(P, query) :: Scorer.Bm25Score(P, documentCount, query, d, documentLengths[f], averageLengths[f], ln)
      else Scorer.VsmScores(P, documentCount, query, scheme, ln, space).value
    }

    /**
     * `find_scores_with_safe_ranking`: one score dictionary per weighted
     * field, BM25 exactly when the scheme is "OkapiBM25"; the first field
     * whose scorer raises ends the search with that exception.
     */
    method FindScoresWithSafeRanking(query: seq<Term>, scheme: string, weights: seq<(Field, real)>, ln: real -> real,
                                     space: Scorer.VectorSpace)
      returns (r: Result<map<Field, Scores>>)
      ensures r.Success? <==> forall i :: 0 <= i < |weights| ==> FieldOk(weights[i].0, query, scheme, ln, space)
      ensures r.Success? ==> r.value.Keys == set i | 0 <= i < |weights| :: weights[i].0
      ensures r.Success? ==> forall f :: f in r.value ==> ValidScores(r.value[f]) && r.value[f].value == FieldMap(f, query, scheme, ln, space)
      ensures r.Success? ==> forall f :: f in r.value ==> f in documentIndexes && r.value[f].value.Keys == Scorer.Candidates(documentIndexes[f], query)
      ensures r.Failure? ==> r.error == KeyError || r.error == IndexError || r.error == ZeroDivisionError
      ensures r.Failure? && scheme == "OkapiBM25" ==> r.error == KeyError || r.error == ZeroDivisionError
    {
      var scores: map<Field, Scores> := map[];
      for i := 0 to |weights|
        invariant forall k :: 0 <= k < i ==> FieldOk(weights[k].0, query, scheme, ln, space)
        invariant scores.Keys == set k | 0 <= k < i :: weights[k].0
        invariant forall f :: f in scores ==> ValidScores(scores[f]) && FieldOk(f, query, scheme, ln, space) && scores[f].value == FieldMap(f, query, scheme, ln, space)
      {
        var f := weights[i].0;
        if f !in documentIndexes {
          return Failure(KeyError);
        }
        var sc := new Scorer.Scorer(documentIndexes[f], documentCount);
        var m: Result<map<Id, real>>;
        if scheme == "OkapiBM25" {
          if f !in averageLengths || f !in documentLengths {
            return Failure(KeyError);
          }
          m := sc.ComputeScoresWithOkapiBm25(query, averageLengths[f], documentLengths[f], ln);
          if m.Success? {
            assert m.value == FieldMap(f, query, scheme, ln, space);
          }
        } else {
          m := sc.ComputeScoresWithVectorSpaceModel(query, scheme, ln, space);
        }
        if m.Failure? {
          return Failure(m.error);
        }
        var ids := SetToSeq(m.value.Keys);
        scores := scores[f := Scores(ids, m.value)];
      }
      r := Success(scores);
      forall f | f in scores ensures f in documentIndexes && scores[f].value.Keys == Scorer.Candidates(documentIndexes[f], query) {
        FieldMapKeys(f, query, scheme, ln, space);
      }
    }

    /** Whatever the scheme, a field's score map is keyed by that field's candidate documents. */
    lemma FieldMapKeys(f: Field, query: seq<Term>, scheme: string, ln: real -> real, space: Scorer.VectorSpace)
      requires FieldOk(f, query, scheme, ln, space)
      ensures FieldMap(f, query, scheme, ln, space).Keys == Scorer.Candidates(documentIndexes[f], query)
    {
    }

    /**
     * For a vector-space scheme over well-formed field indexes, every weighted
     * field scores exactly when the scheme has at least 7 characters or no
     * field is weighted.
     */
    lemma VsmFieldsOk(query: seq<Term>, scheme: string, weights: seq<(Field, real)>, ln: real -> real, space: Scorer.VectorSpace)
      requires scheme != "OkapiBM25"
      requires forall i :: 0 <= i < |weights| ==> weights[i].0 in documentIndexes && WellFormed(documentIndexes[weights[i].0])
      ensures (forall i :: 0 <= i < |weights| ==> FieldOk(weights[i].0, query, scheme, ln, space)) <==> (weights == [] || |scheme| >= 7)
    {
      forall i | 0 <= i < |weights| {
        Scorer.VsmScoresOutcome(documentIndexes[weights[i].0], documentCount, query, scheme, ln, space);
      }
      if weights != [] && |scheme| < 7 {
        assert !FieldOk(weights[0].0, query, scheme, ln, space);
      }
    }

    /**
     * `search` from the token list onward. Safe ranking returns, when every
     * field's scorer succeeds, a ranking of `final_scores`; unsafe ranking
     * computes no field scores, so any weighted field raises `KeyError`.
     */
    method Search(query: seq<Term>, scheme: string, weights: seq<(Field, real)>, safeRanking: bool, maxResults: Option<int>,
                  ln: real -> real, space: Scorer.VectorSpace)
      returns (r: Result<seq<(Id, real)>>)
      ensures !safeRanking ==> r == if weights == [] then Success([]) else Failure(KeyError)
      ensures safeRanking ==> (r.Success? <==> forall i :: 0 <= i < |weights| ==> FieldOk(weights[i].0, query, scheme, ln, space))
      ensures safeRanking && r.Success? ==>
                exists final: Scores ::
                  && final.value.Keys == (set d, i | 0 <= i < |weights| && d in FieldMap(weights[i].0, query, scheme, ln, space) :: d)
                  && (forall d :: d in final.value ==> final.value[d] == Total(query, scheme, weights, ln, space, d))
                  && IsRanking(r.value, final, maxResults)
    {
      var scores: map<Field, Scores> := map[];
      if safeRanking {
        var found := FindScoresWithSafeRanking(query, scheme, weights, ln, space);
        if found.Failure? {
          return Failure(found.error);
        }
        scores := found.value;
      }
      var final := AggregateScores(weights, scores);
      if !safeRanking {
        NothingScored(weights, scores);
      }
      if final.Failure? {
        return Failure(final.error);
      }
      r := Success(Rank(final.value, maxResults));
      RankIsRanking(final.value, maxResults);
      if safeRanking {
        AggregateMeaning(weights, scores);
        ScoredIsUnion(weights, scores, query, scheme, ln, space);
        forall d | d in final.value.value ensures final.value.value[d] == Total(query, scheme, weights, ln, space, d) {
          TotalIsWeightedSum(weights, scores, query, scheme, ln, space, d);
        }
      } else {
        assert final.value == Scores([], map[]);
      }
    }

    /** A document's final score: the weighted sum over fields of its field score (0 where unscored). */
    ghost function Total(query: seq<Term>, scheme: string, weights: seq<(Field, real)>, ln: real -> real,
                         space: Scorer.VectorSpace, d: Id): real
      requires forall i :: 0 <= i < |weights| ==> FieldOk(weights[i].0, query, scheme, ln, space)
    {
      if weights == [] then 0.0
      else
        var init := weights[..|weights| - 1];
        var (f, w) := weights[|weights| - 1];
        var M := FieldMap(f, query, scheme, ln, space);
        Total(query, scheme, init, ln, space, d) + Mul(if d in M then M[d] else 0.0, w)
    }

    lemma {:induction false} TotalIsWeightedSum(weights: seq<(Field, real)>, scores: map<Field, Scores>, query: seq<Term>, scheme: string,
                                                ln: real -> real, space: Scorer.VectorSpace, d: Id)
      requires forall i :: 0 <= i < |weights| ==> FieldOk(weights[i].0, query, scheme, ln, space)
      requires forall i :: 0 <= i < |weights| ==> weights[i].0 in scores
      requires forall f :: f in scores ==> FieldOk(f, query, scheme, ln, space) && scores[f].value == FieldMap(f, query, scheme, ln, space)
      ensures WeightedSum(weights, scores, d) == Total(query, scheme, weights, ln, space, d)
    {
      if weights != [] {
        TotalIsWeightedSum(weights[..|weights| - 1], scores, query, scheme, ln, space, d);
      }
    }

    lemma ScoredIsUnion(weights: seq<(Field, real)>, scores: map<Field, Scores>, query: seq<Term>, scheme: string,
                        ln: real -> real, space: Scorer.VectorSpace)
      requires forall i :: 0 <= i < |weights| ==> weights[i].0 in scores
      requires forall f :: f in scores ==> FieldOk(f, query, scheme, ln, space) && scores[f].value == FieldMap(f, query, scheme, ln, space)
      ensures Scored(weights, scores) == set d, i | 0 <= i < |weights| && d in FieldMap(weights[i].0, query, scheme, ln, space) :: d
    {
      ScoredKeys(weights, scores);
      var A := set d, i | 0 <= i < |weights| && d in scores[weights[i].0].value :: d;
      var U := set d, i | 0 <= i < |weights| && d in FieldMap(weights[i].0, query, scheme, ln, space) :: d;
      forall d | d in U ensures d in A {
        var i :| 0 <= i < |weights| && d in FieldMap(weights[i].0, query, scheme, ln, space);
        assert d in scores[weights[i].0].value;
      }
    }
  }
}
