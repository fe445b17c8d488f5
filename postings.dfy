/**
 * The `{term: {document_id: tf}}` dictionaries of Logic/core/indexer/index.py
 * and the two updates the index applies to them: `add_term_doc_to_index`
 * (create missing entries, raise tf by one) and the `del` sequence of
 * `remove_document_from_index` (delete the pair, then drop an emptied term).
 */
module Postings {
  import opened Seqs
  import opened Wrappers

  type Id = string
  type Term = string
  type Postings = map<Term, map<Id, nat>>

  /** The term frequency of `t` in document `x`; absence reads as 0. */
  function Tf(P: Postings, t: Term, x: Id): nat {
    if t in P && x in P[t] then P[t][x] else 0
  }

  /** The ids of `P[t]`, or none for an unknown term. */
  function PostingIds(P: Postings, t: Term): set<Id> {
    if t in P then P[t].Keys else {}
  }

  /** Every stored tf is at least 1 and no term keeps an empty posting. */
  ghost predicate WellFormed(P: Postings) {
    forall t :: t in P ==> P[t] != map[] && forall x :: x in P[t] ==> P[t][x] >= 1
  }

  /** Well-formed postings are determined by their term frequencies. */
  lemma {:induction false} TfExtensionality(P: Postings, Q: Postings)
    requires WellFormed(P) && WellFormed(Q)
    requires forall t, x :: Tf(P, t, x) == Tf(Q, t, x)
    ensures P == Q
  {
    forall t | t in P
      ensures t in Q && P[t] == Q[t]
    {
      var x :| x in P[t];
      assert Tf(P, t, x) >= 1;
      forall y | y in P[t] ensures y in Q[t] && P[t][y] == Q[t][y] {
        assert Tf(P, t, y) == Tf(Q, t, y);
      }
      forall y | y in Q[t] ensures y in P[t] {
        assert Tf(P, t, y) == Tf(Q, t, y);
      }
    }
    forall t | t in Q
      ensures t in P
    {
      var x :| x in Q[t];
      assert Tf(Q, t, x) >= 1;
    }
    assert P.Keys == Q.Keys;
  }

  /** `add_term_doc_to_index(term, doc, current, _)`. */
  function AddTermDoc(P: Postings, t: Term, x: Id): (r: Postings)
    ensures r.Keys == P.Keys + {t}
    ensures Tf(r, t, x) == Tf(P, t, x) + 1
    ensures forall t', y :: t' != t || y != x ==> Tf(r, t', y) == Tf(P, t', y)
    ensures WellFormed(P) ==> WellFormed(r)
  {
    var row := if t in P then P[t] else map[];
    var tf := if x in row then row[x] else 0;
    P[t := row[x := tf + 1]]
  }

  /** `add_term_doc_to_index` applied to each term of `ts` in order. */
  function AddTerms(P: Postings, ts: seq<Term>, x: Id): (r: Postings)
    ensures r.Keys == P.Keys + Elems(ts)
    ensures forall t, y :: Tf(r, t, y) == Tf(P, t, y) + (if y == x then Count(ts, t) else 0)
    ensures WellFormed(P) ==> WellFormed(r)
  {
    if ts == [] then P
    else
      var init := ts[..|ts| - 1];
      assert ts == init + [ts[|ts| - 1]];
      assert Elems(ts) == Elems(init) + {ts[|ts| - 1]};
      AddTermDoc(AddTerms(P, init, x), ts[|ts| - 1], x)
  }

  /** One more iteration of an adding loop over `ts`. */
  lemma AddTermsStep(P: Postings, ts: seq<Term>, j: nat, x: Id)
    requires j < |ts|
    ensures AddTerms(P, ts[..j + 1], x) == AddTermDoc(AddTerms(P, ts[..j], x), ts[j], x)
  {
    assert ts[..j + 1][..j] == ts[..j];
  }

  /** Adding `a + b` is adding `a`, then `b`. */
  lemma {:induction false} AddTermsAppend(P: Postings, a: seq<Term>, b: seq<Term>, x: Id)
    ensures AddTerms(P, a + b, x) == AddTerms(AddTerms(P, a, x), b, x)
  {
    if b == [] {
      assert a + b == a;
    } else {
      var init, last := b[..|b| - 1], b[|b| - 1];
      assert a + b == (a + init) + [last] by {
        assert b == init + [last];
      }
      AddTermsAppend(P, a, init, x);
      AddTermsSnoc(P, a + init, last, x);
      AddTermsSnoc(AddTerms(P, a, x), init, last, x);
      assert b == init + [last];
    }
  }

  /** Adding the terms of a new id puts that id into exactly the postings of those terms. */
  lemma AddTermsPostingIds(P: Postings, ts: seq<Term>, x: Id, t: Term)
    requires WellFormed(P) && Tf(P, t, x) == 0
    ensures x !in PostingIds(P, t)
    ensures t in ts ==> PostingIds(AddTerms(P, ts, x), t) == PostingIds(P, t) + {x}
    ensures t !in ts ==> PostingIds(AddTerms(P, ts, x), t) == PostingIds(P, t)
  {
    var A := AddTerms(P, ts, x);
    forall y ensures y in PostingIds(A, t) <==> y in PostingIds(P, t) || (y == x && t in ts) {
      assert Tf(A, t, y) == Tf(P, t, y) + (if y == x then Count(ts, t) else 0);
      PostedIffPositive(A, t, y);
      PostedIffPositive(P, t, y);
    }
    PostedIffPositive(P, t, x);
  }
  /** A term of the added list is in the result, and its posting gained exactly `x`. */
  lemma AddTermsGainsId(P: Postings, ts: seq<Term>, x: Id, t: Term)
    requires WellFormed(P) && Tf(P, t, x) == 0 && t in ts
    ensures t in AddTerms(P, ts, x)
    ensures AddTerms(P, ts, x)[t].Keys - PostingIds(P, t) == {x}
  {
    AddTermsPostingIds(P, ts, x, t);
    assert t in Elems(ts);
  }


  /** In well-formed postings an id is posted under a term exactly when its tf there is positive. */
  lemma PostedIffPositive(P: Postings, t: Term, y: Id)
    requires WellFormed(P)
    ensures y in PostingIds(P, t) <==> Tf(P, t, y) >= 1
  {
  }

  lemma AddTermsSnoc(P: Postings, ts: seq<Term>, t: Term, x: Id)
    ensures AddTerms(P, ts + [t], x) == AddTermDoc(AddTerms(P, ts, x), t, x)
  {
    assert (ts + [t])[..|ts|] == ts;
  }

  /** What an update of the dictionaries ends in: normally, or with the `KeyError` of a `del`, holding the dictionaries as they were when it was raised. */
  datatype Outcome = Done(postings: Postings) | Raised(postings: Postings)

  /** `del P[t][x]`, then `del P[t]` when that left it empty. */
  function RemoveTermDoc(P: Postings, t: Term, x: Id): (r: Outcome)
    ensures r.Raised? <==> t !in P || x !in P[t]
    ensures r.Raised? ==> r.postings == P
    ensures r.Done? ==> t !in r.postings || x !in r.postings[t]
    ensures r.Done? ==> forall t' :: t' != t ==> (t' in r.postings <==> t' in P) && (t' in P ==> r.postings[t'] == P[t'])
    ensures r.Done? ==> Tf(r.postings, t, x) == 0
    ensures r.Done? ==> forall t', y :: t' != t || y != x ==> Tf(r.postings, t', y) == Tf(P, t', y)
    ensures WellFormed(P) ==> WellFormed(r.postings)
  {
    if t !in P || x !in P[t] then Raised(P)
    else
      var row := P[t] - {x};
      assert forall y :: y in P[t] && y != x ==> y in row;
      if row == map[] then Done(P - {t}) else Done(P[t := row])
  }

  /** The deletions of `remove_document_from_index` for one field's terms, as written: one `del` per occurrence. */
  function RemoveTerms(P: Postings, ts: seq<Term>, x: Id): (r: Outcome)
    ensures r.Done? ==> Distinct(ts)
    ensures r.Done? ==> forall t :: t in ts ==> t !in r.postings || x !in r.postings[t]
    ensures r.Done? ==> forall t, y :: Tf(r.postings, t, y) == (if y == x && t in ts then 0 else Tf(P, t, y))
    ensures WellFormed(P) ==> WellFormed(r.postings)
    ensures Distinct(ts) && (forall i :: 0 <= i < |ts| ==> Tf(P, ts[i], x) >= 1) ==> r.Done?
  {
    if ts == [] then Done(P)
    else
      var init, last := ts[..|ts| - 1], ts[|ts| - 1];
      assert ts == init + [last];
      assert forall t :: t in ts <==> t in init || t == last;
      assert Distinct(ts) ==> Distinct(init) && last !in init;
      match RemoveTerms(P, init, x)
      case Raised(Q) => Raised(Q)
      case Done(Q) => RemoveTermDoc(Q, last, x)
  }

  /** Once a prefix of the deletions has raised, the rest are never reached. */
  lemma {:induction false} RemoveTermsRaisedPrefix(P: Postings, ts: seq<Term>, k: nat, x: Id)
    requires k <= |ts| && RemoveTerms(P, ts[..k], x).Raised?
    ensures RemoveTerms(P, ts, x) == RemoveTerms(P, ts[..k], x)
  {
    if k < |ts| {
      var init := ts[..|ts| - 1];
      assert init[..k] == ts[..k];
      RemoveTermsRaisedPrefix(P, init, k, x);
      RemoveTermsSnoc(P, init, ts[|ts| - 1], x);
      assert init + [ts[|ts| - 1]] == ts;
    } else {
      assert ts[..k] == ts;
    }
  }

  /** One more iteration of a deleting loop over `ts`. */
  lemma RemoveTermsStep(P: Postings, ts: seq<Term>, j: nat, x: Id)
    requires j < |ts|
    ensures RemoveTerms(P, ts[..j + 1], x) ==
      match RemoveTerms(P, ts[..j], x)
      case Raised(Q) => Raised(Q)
      case Done(Q) => RemoveTermDoc(Q, ts[j], x)
  {
    assert ts[..j + 1][..j] == ts[..j];
  }

  /** Deleting for `a + b` is deleting for `a`, then, unless that raised, for `b`. */
  lemma {:induction false} RemoveTermsAppend(P: Postings, a: seq<Term>, b: seq<Term>, x: Id)
    ensures RemoveTerms(P, a + b, x) ==
      match RemoveTerms(P, a, x)
      case Raised(Q) => Raised(Q)
      case Done(Q) => RemoveTerms(Q, b, x)
  {
    if b == [] {
      assert a + b == a;
    } else {
      var init := b[..|b| - 1];
      RemoveTermsAppend(P, a, init, x);
      assert (a + b)[..|a + b| - 1] == a + init;
    }
  }

  lemma RemoveTermsSnoc(P: Postings, ts: seq<Term>, t: Term, x: Id)
    ensures RemoveTerms(P, ts + [t], x) ==
      match RemoveTerms(P, ts, x)
      case Raised(Q) => Raised(Q)
      case Done(Q) => RemoveTermDoc(Q, t, x)
  {
    assert (ts + [t])[..|ts|] == ts;
  }

  /**
   * Round trip on one field: deleting the terms just added for a document id
   * that no posting mentioned restores the dictionaries, provided no term repeats.
   */
  lemma {:induction false} AddRemoveTermsRoundTrip(P: Postings, ts: seq<Term>, x: Id)
    requires WellFormed(P)
    requires forall t :: Tf(P, t, x) == 0
    requires Distinct(ts)
    ensures RemoveTerms(AddTerms(P, ts, x), ts, x) == Done(P)
  {
    var A := AddTerms(P, ts, x);
    forall i | 0 <= i < |ts| ensures Tf(A, ts[i], x) >= 1 {
      assert Count(ts, ts[i]) >= 1;
    }
    var r := RemoveTerms(A, ts, x);
    assert r.Done?;
    forall t, y ensures Tf(r.postings, t, y) == Tf(P, t, y) {
      if y == x && t !in ts {
        assert Count(ts, t) == 0;
      }
    }
    TfExtensionality(r.postings, P);
  }

  /** The evidently intended removal: each term's entry for `x` is deleted once, whatever the repetitions. */
  function RemoveTermOnce(P: Postings, t: Term, x: Id): (r: Postings)
    ensures Tf(r, t, x) == 0
    ensures forall t', y :: t' != t || y != x ==> Tf(r, t', y) == Tf(P, t', y)
    ensures WellFormed(P) ==> WellFormed(r)
  {
    match RemoveTermDoc(P, t, x)
    case Done(Q) => Q
    case Raised(_) => P
  }

  function RemoveEachTerm(P: Postings, ts: seq<Term>, x: Id): (r: Postings)
    ensures forall t, y :: Tf(r, t, y) == (if y == x && t in ts then 0 else Tf(P, t, y))
    ensures WellFormed(P) ==> WellFormed(r)
  {
    if ts == [] then P
    else
      var init, last := ts[..|ts| - 1], ts[|ts| - 1];
      assert forall t :: t in ts <==> t in init || t == last;
      RemoveTermOnce(RemoveEachTerm(P, init, x), last, x)
  }

  /** The corrected removal restores the dictionaries for every added term list, repeated terms included. */
  lemma {:induction false} AddRemoveEachTermRoundTrip(P: Postings, ts: seq<Term>, x: Id)
    requires WellFormed(P)
    requires forall t :: Tf(P, t, x) == 0
    ensures RemoveEachTerm(AddTerms(P, ts, x), ts, x) == P
  {
    var r := RemoveEachTerm(AddTerms(P, ts, x), ts, x);
    forall t, y ensures Tf(r, t, y) == Tf(P, t, y) {
      if y == x && t !in ts {
        assert Count(ts, t) == 0;
      }
    }
    TfExtensionality(r, P);
  }
}
