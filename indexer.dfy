/**
 * The multi-field inverted index of Logic/core/indexer/index.py: a table of
 * documents keyed by id and one `{term: {id: tf}}` dictionary per indexed
 * field (stars, genres, summaries), built in a batch and then updated in
 * place by `add_document_to_index` and `remove_document_from_index`.
 */
module Indexer {
  import opened Wrappers
  import opened Seqs
  import opened Text
  import opened Postings

  /**
   * A preprocessed movie record: the fields the index reads, and the names of
   * its other fields (title, rating, reviews and the rest), whose values the
   * index stores but never reads.
   */
  datatype Document = Document(id: Id, stars: seq<string>, genres: seq<string>, summaries: seq<string>, otherFields: set<string>)
  {
    /** The record's keys. */
    function Keys(): set<string> {
      {"id", "stars", "genres", "summaries"} + otherFields
    }
  }

  datatype Field = Stars | Genres | Summaries

  /** `[e.split() for e in entries]`. */
  function SplitAll(entries: seq<string>): (r: seq<seq<string>>)
    ensures |r| == |entries|
    ensures forall i :: 0 <= i < |entries| ==> r[i] == Split(entries[i])
  {
    if entries == [] then [] else SplitAll(entries[..|entries| - 1]) + [Split(entries[|entries| - 1])]
  }

  /**
   * The terms a document contributes to a field, in the order they are indexed:
   * star and summary entries are split on whitespace, genre entries are taken whole.
   */
  function FieldTerms(d: Document, f: Field): seq<Term> {
    match f
    case Stars => Flatten(SplitAll(d.stars))
    case Genres => d.genres
    case Summaries => Flatten(SplitAll(d.summaries))
  }

  /** The state of `self.index`: the documents table and the three postings dictionaries. */
  datatype IndexState = IndexState(documents: map<Id, Document>, stars: Postings, genres: Postings, summaries: Postings)
  {
    function Get(f: Field): Postings {
      match f
      case Stars => stars
      case Genres => genres
      case Summaries => summaries
    }
  }

  /** Each field's postings hold exactly the term counts of the stored documents. */
  ghost predicate FieldConsistent(P: Postings, docs: map<Id, Document>, f: Field) {
    && WellFormed(P)
    && forall t, x :: Tf(P, t, x) == (if x in docs then Count(FieldTerms(docs[x], f), t) else 0)
  }

  ghost predicate Consistent(s: IndexState) {
    && (forall x :: x in s.documents ==> s.documents[x].id == x)
    && FieldConsistent(s.stars, s.documents, Stars)
    && FieldConsistent(s.genres, s.documents, Genres)
    && FieldConsistent(s.summaries, s.documents, Summaries)
  }

  // ---------------------------------------------------------------------------
  // Batch build: `index_documents` and `index_stars/genres/summaries`.

  /** `index_documents`: each record under its id; a later record with the same id replaces an earlier one. */
  function DocumentTable(docs: seq<Document>): map<Id, Document> {
    if docs == [] then map[]
    else DocumentTable(docs[..|docs| - 1])[docs[|docs| - 1].id := docs[|docs| - 1]]
  }

  /** The table holds exactly the batch's ids, each under its own id, each the last record with that id. */
  lemma {:induction false} DocumentTableContents(docs: seq<Document>)
    ensures forall x :: x in DocumentTable(docs) <==> exists i :: 0 <= i < |docs| && docs[i].id == x
    ensures forall x :: x in DocumentTable(docs) ==> DocumentTable(docs)[x].id == x
    ensures forall i :: 0 <= i < |docs| && LastWithId(docs, i) ==> DocumentTable(docs)[docs[i].id] == docs[i]
  {
    if docs != [] {
      var init, last := docs[..|docs| - 1], docs[|docs| - 1];
      DocumentTableContents(init);
      var prev, r := DocumentTable(init), DocumentTable(docs);
      assert r == prev[last.id := last];
      forall x ensures x in r <==> exists i :: 0 <= i < |docs| && docs[i].id == x {
        if x in prev {
          var i :| 0 <= i < |init| && init[i].id == x;
          assert docs[i].id == x;
        }
        if x != last.id && exists i :: 0 <= i < |docs| && docs[i].id == x {
          var i :| 0 <= i < |docs| && docs[i].id == x;
          assert i < |init| && init[i].id == x;
        }
      }
      forall i | 0 <= i < |docs| && LastWithId(docs, i)
        ensures r[docs[i].id] == docs[i]
      {
        if i < |docs| - 1 {
          assert docs[|docs| - 1].id != docs[i].id;
          assert LastWithId(init, i);
        }
      }
    }
  }

  /** No later record of the batch has the same id as record `i`. */
  predicate LastWithId(docs: seq<Document>, i: nat)
    requires i < |docs|
  {
    forall j :: i < j < |docs| ==> docs[j].id != docs[i].id
  }

  /** The dictionary `index_stars` (or genres, summaries) builds: every term of every document added in order. */
  function BuildPostings(docs: seq<Document>, f: Field): Postings {
    if docs == [] then map[]
    else
      var last := docs[|docs| - 1];
      AddTerms(BuildPostings(docs[..|docs| - 1], f), FieldTerms(last, f), last.id)
  }

  /** Total occurrences of `t` in field `f` over the documents of `docs` whose id is `x`. */
  function Occurrences(docs: seq<Document>, f: Field, t: Term, x: Id): nat {
    if docs == [] then 0
    else
      var last := docs[|docs| - 1];
      Occurrences(docs[..|docs| - 1], f, t, x) + (if last.id == x then Count(FieldTerms(last, f), t) else 0)
  }

  /** A built dictionary holds, for each (term, id), the summed count over the batch, and nothing else. */
  lemma {:induction false} BuildPostingsCounts(docs: seq<Document>, f: Field)
    ensures WellFormed(BuildPostings(docs, f))
    ensures forall t, x :: Tf(BuildPostings(docs, f), t, x) == Occurrences(docs, f, t, x)
  {
    if docs != [] {
      BuildPostingsCounts(docs[..|docs| - 1], f);
    }
  }

  predicate DistinctIds(docs: seq<Document>) {
    forall i, j :: 0 <= i < j < |docs| ==> docs[i].id != docs[j].id
  }

  /** With distinct ids the summed count is the count in the one stored record. */
  lemma {:induction false} OccurrencesOfDistinct(docs: seq<Document>, f: Field, t: Term, x: Id)
    requires DistinctIds(docs)
    ensures Occurrences(docs, f, t, x) ==
      (if x in DocumentTable(docs) then Count(FieldTerms(DocumentTable(docs)[x], f), t) else 0)
  {
    if docs != [] {
      var init, last := docs[..|docs| - 1], docs[|docs| - 1];
      OccurrencesOfDistinct(init, f, t, x);
      DocumentTableContents(init);
      assert DistinctIds(init);
      if last.id == x {
        forall i | 0 <= i < |init| ensures init[i].id != x {
          assert docs[i].id != docs[|docs| - 1].id;
        }
      }
    }
  }

  /** A batch with distinct ids builds a consistent index. */
  lemma BuildIsConsistent(docs: seq<Document>)
    requires DistinctIds(docs)
    ensures Consistent(IndexState(DocumentTable(docs), BuildPostings(docs, Stars), BuildPostings(docs, Genres), BuildPostings(docs, Summaries)))
  {
    DocumentTableContents(docs);
    forall f: Field
      ensures FieldConsistent(BuildPostings(docs, f), DocumentTable(docs), f)
    {
      BuildPostingsCounts(docs, f);
      forall t, x
        ensures Tf(BuildPostings(docs, f), t, x) ==
          (if x in DocumentTable(docs) then Count(FieldTerms(DocumentTable(docs)[x], f), t) else 0)
      {
        OccurrencesOfDistinct(docs, f, t, x);
      }
    }
  }

  // ---------------------------------------------------------------------------
  // Add and remove on the whole state.

  /** `add_document_to_index`: nothing when the id is stored, else the record and all its terms. */
  function AddDocumentSpec(s: IndexState, d: Document): IndexState {
    if d.id in s.documents then s
    else
      IndexState(
        s.documents[d.id := d],
        AddTerms(s.stars, FieldTerms(d, Stars), d.id),
        AddTerms(s.genres, FieldTerms(d, Genres), d.id),
        AddTerms(s.summaries, FieldTerms(d, Summaries), d.id))
  }

  /**
   * `remove_document_from_index` as written: summaries, then stars, then genres,
   * one `del` per term occurrence, and last the record. The flag is false when a
   * `del` raised `KeyError`; the state is then the one at the moment it was raised.
   */
  function RemoveDocumentSpec(s: IndexState, x: Id): (IndexState, bool) {
    if x !in s.documents then (s, true)
    else
      var d := s.documents[x];
      match RemoveTerms(s.summaries, FieldTerms(d, Summaries), x)
      case Raised(P1) => (s.(summaries := P1), false)
      case Done(P1) =>
        match RemoveTerms(s.stars, FieldTerms(d, Stars), x)
        case Raised(P2) => (s.(summaries := P1, stars := P2), false)
        case Done(P2) =>
          match RemoveTerms(s.genres, FieldTerms(d, Genres), x)
          case Raised(P3) => (s.(summaries := P1, stars := P2, genres := P3), false)
          case Done(P3) => (IndexState(s.documents - {x}, P2, P3, P1), true)
  }

  /** Adding a new document's terms to one field keeps that field consistent. */
  lemma AddFieldPreservesConsistency(P: Postings, docs: map<Id, Document>, d: Document, f: Field)
    requires FieldConsistent(P, docs, f) && d.id !in docs
    ensures FieldConsistent(AddTerms(P, FieldTerms(d, f), d.id), docs[d.id := d], f)
  {
    var A := AddTerms(P, FieldTerms(d, f), d.id);
    forall t, x ensures Tf(A, t, x) == (if x in docs[d.id := d] then Count(FieldTerms(docs[d.id := d][x], f), t) else 0) {
      assert Tf(A, t, x) == Tf(P, t, x) + (if x == d.id then Count(FieldTerms(d, f), t) else 0);
    }
  }

  /** Adding keeps the index consistent. */
  lemma AddPreservesConsistency(s: IndexState, d: Document)
    requires Consistent(s)
    ensures Consistent(AddDocumentSpec(s, d))
  {
    if d.id !in s.documents {
      AddFieldPreservesConsistency(s.stars, s.documents, d, Stars);
      AddFieldPreservesConsistency(s.genres, s.documents, d, Genres);
      AddFieldPreservesConsistency(s.summaries, s.documents, d, Summaries);
    }
  }

  /**
   * After adding a new document, the posting of each of its terms gains exactly
   * its id, and the posting of every other term is unchanged.
   */
  lemma AddGainsExactlyTheId(s: IndexState, d: Document, f: Field, t: Term)
    requires Consistent(s) && d.id !in s.documents
    ensures d.id !in PostingIds(s.Get(f), t)
    ensures t in FieldTerms(d, f) ==> PostingIds(AddDocumentSpec(s, d).Get(f), t) == PostingIds(s.Get(f), t) + {d.id}
    ensures t !in FieldTerms(d, f) ==> PostingIds(AddDocumentSpec(s, d).Get(f), t) == PostingIds(s.Get(f), t)
  {
    NewIdAbsent(s, d.id, f);
    AddDocumentField(s, d, f);
    AddTermsPostingIds(s.Get(f), FieldTerms(d, f), d.id, t);
  }

  /** Adding a new document extends each field by that field's terms. */
  lemma AddDocumentField(s: IndexState, d: Document, f: Field)
    requires d.id !in s.documents
    ensures AddDocumentSpec(s, d).Get(f) == AddTerms(s.Get(f), FieldTerms(d, f), d.id)
  {
  }

  /** Every term of a stored document's field has that document in its posting. */
  lemma StoredTermsPosted(s: IndexState, x: Id, f: Field)
    requires Consistent(s) && x in s.documents
    ensures forall i :: 0 <= i < |FieldTerms(s.documents[x], f)| ==> Tf(s.Get(f), FieldTerms(s.documents[x], f)[i], x) >= 1
  {
    var ts := FieldTerms(s.documents[x], f);
    forall i | 0 <= i < |ts| ensures Tf(s.Get(f), ts[i], x) >= 1 {
      assert Count(ts, ts[i]) >= 1;
    }
  }

  /** For a stored document, removal succeeds exactly when no term repeats within one of its fields. */
  lemma RemoveSucceedsIffNoRepeats(s: IndexState, x: Id)
    requires Consistent(s) && x in s.documents
    ensures RemoveDocumentSpec(s, x).1 <==>
      var d := s.documents[x];
      Distinct(FieldTerms(d, Summaries)) && Distinct(FieldTerms(d, Stars)) && Distinct(FieldTerms(d, Genres))
  {
    var d := s.documents[x];
    StoredTermsPosted(s, x, Summaries);
    StoredTermsPosted(s, x, Stars);
    StoredTermsPosted(s, x, Genres);
    var r1 := RemoveTerms(s.summaries, FieldTerms(d, Summaries), x);
    if r1.Done? {
      // The summaries removal leaves the stars and genres dictionaries untouched.
      var r2 := RemoveTerms(s.stars, FieldTerms(d, Stars), x);
      if r2.Done? {
        var r3 := RemoveTerms(s.genres, FieldTerms(d, Genres), x);
        assert RemoveDocumentSpec(s, x).1 == r3.Done?;
      }
    }
  }

  /** A removal that succeeds keeps the index consistent. */
  lemma RemovePreservesConsistency(s: IndexState, x: Id)
    requires Consistent(s)
    requires RemoveDocumentSpec(s, x).1
    ensures Consistent(RemoveDocumentSpec(s, x).0)
  {
    if x in s.documents {
      var d := s.documents[x];
      forall f: Field, t | t !in FieldTerms(d, f)
        ensures Count(FieldTerms(d, f), t) == 0
      {
      }
    }
  }

  /** No posting of a consistent index mentions an id that is not stored. */
  lemma NewIdAbsent(s: IndexState, x: Id, f: Field)
    requires Consistent(s) && x !in s.documents
    ensures WellFormed(s.Get(f)) && forall t :: Tf(s.Get(f), t, x) == 0
  {
  }

  /** Removal as written, when all three fields' deletions succeed. */
  lemma RemoveDocumentSpecDone(a: IndexState, x: Id, d: Document, stars: Postings, genres: Postings, summaries: Postings)
    requires x in a.documents && a.documents[x] == d
    requires RemoveTerms(a.summaries, FieldTerms(d, Summaries), x) == Done(summaries)
    requires RemoveTerms(a.stars, FieldTerms(d, Stars), x) == Done(stars)
    requires RemoveTerms(a.genres, FieldTerms(d, Genres), x) == Done(genres)
    ensures RemoveDocumentSpec(a, x) == (IndexState(a.documents - {x}, stars, genres, summaries), true)
  {
  }

  /** Round trip on one field of a consistent index, for a new id and a term list without repeats. */
  lemma FieldRoundTrip(s: IndexState, d: Document, f: Field)
    requires Consistent(s) && d.id !in s.documents && Distinct(FieldTerms(d, f))
    ensures RemoveTerms(AddTerms(s.Get(f), FieldTerms(d, f), d.id), FieldTerms(d, f), d.id) == Done(s.Get(f))
  {
    NewIdAbsent(s, d.id, f);
    AddRemoveTermsRoundTrip(s.Get(f), FieldTerms(d, f), d.id);
  }

  /** `check_add_remove_is_correct`: removing a just-added new document restores the whole index. */
  lemma AddRemoveRoundTrip(s: IndexState, d: Document)
    requires Consistent(s) && d.id !in s.documents
    requires Distinct(FieldTerms(d, Summaries)) && Distinct(FieldTerms(d, Stars)) && Distinct(FieldTerms(d, Genres))
    ensures RemoveDocumentSpec(AddDocumentSpec(s, d), d.id) == (s, true)
  {
    var x := d.id;
    var a := AddDocumentSpec(s, d);
    FieldRoundTrip(s, d, Summaries);
    FieldRoundTrip(s, d, Stars);
    FieldRoundTrip(s, d, Genres);
    RemoveDocumentSpecDone(a, x, d, s.stars, s.genres, s.summaries);
    assert s.documents[x := d] - {x} == s.documents;
  }

  /** A document whose summary repeats a word cannot be removed again: the round trip fails. */
  lemma RepeatedSummaryWordBreaksRoundTrip()
    ensures var d := Document("100", [], [], ["good good"], {});
      RemoveDocumentSpec(AddDocumentSpec(IndexState(map[], map[], map[], map[]), d), "100").1 == false
  {
    var d := Document("100", [], [], ["good good"], {});
    assert IsWord("good");
    assert "good good" == "good" + " " + "good";
    RepeatedSummaryTerms(d, "good");
    var ts := FieldTerms(d, Summaries);
    assert !Distinct(ts) by {
      assert ts[0] == ts[1];
    }
    var s1 := AddDocumentSpec(IndexState(map[], map[], map[], map[]), d);
    assert s1.documents["100"] == d;
    assert RemoveTerms(s1.summaries, ts, "100").Raised?;
  }

  /** A summary entry that is one word twice gives that word twice. */
  lemma RepeatedSummaryTerms(d: Document, w: string)
    requires IsWord(w) && d.summaries == [w + " " + w]
    ensures FieldTerms(d, Summaries) == [w, w]
  {
    SplitJoinRoundTrip([w, w]);
    assert JoinWith(" ", [w, w]) == w + " " + w;
    SplitOneEntry(w + " " + w);
  }

  /** The evidently intended removal: every term's entry for the id deleted once, then the record. */
  function RemoveDocumentCorrected(s: IndexState, x: Id): IndexState {
    if x !in s.documents then s
    else
      var d := s.documents[x];
      IndexState(
        s.documents - {x},
        RemoveEachTerm(s.stars, FieldTerms(d, Stars), x),
        RemoveEachTerm(s.genres, FieldTerms(d, Genres), x),
        RemoveEachTerm(s.summaries, FieldTerms(d, Summaries), x))
  }

  /** Corrected round trip on one field of a consistent index, for a new id. */
  lemma FieldCorrectedRoundTrip(s: IndexState, d: Document, f: Field)
    requires Consistent(s) && d.id !in s.documents
    ensures RemoveEachTerm(AddTerms(s.Get(f), FieldTerms(d, f), d.id), FieldTerms(d, f), d.id) == s.Get(f)
  {
    NewIdAbsent(s, d.id, f);
    AddRemoveEachTermRoundTrip(s.Get(f), FieldTerms(d, f), d.id);
  }

  /** The corrected removal undoes any add of a new document, repeated words included. */
  lemma AddRemoveCorrectedRoundTrip(s: IndexState, d: Document)
    requires Consistent(s) && d.id !in s.documents
    ensures RemoveDocumentCorrected(AddDocumentSpec(s, d), d.id) == s
  {
    var x := d.id;
    var a := AddDocumentSpec(s, d);
    assert a.documents[x] == d;
    FieldCorrectedRoundTrip(s, d, Summaries);
    FieldCorrectedRoundTrip(s, d, Stars);
    FieldCorrectedRoundTrip(s, d, Genres);
    assert s.documents[x := d] - {x} == s.documents;
  }

  /** The corrected removal keeps the index consistent. */
  lemma RemoveCorrectedPreservesConsistency(s: IndexState, x: Id)
    requires Consistent(s)
    ensures Consistent(RemoveDocumentCorrected(s, x))
  {
    if x in s.documents {
      var d := s.documents[x];
      forall f: Field, t | t !in FieldTerms(d, f)
        ensures Count(FieldTerms(d, f), t) == 0
      {
      }
    }
  }

  // ---------------------------------------------------------------------------
  // The `Index` object.

  /** What `check_add_remove_is_correct` reports. */
  datatype CheckReport = AddIncorrect(what: string) | RemoveCorrect | RemoveIncorrect

  /** The test document of `check_add_remove_is_correct`. */
  const Dummy := Document("100", ["tim", "henry"], ["drama", "crime"], ["good"], {})

  /** The (field, term) pairs the check inspects after the add, in its order. */
  const DummyChecks: seq<(Field, Term)> := [(Stars, "tim"), (Stars, "henry"), (Genres, "drama"), (Genres, "crime"), (Summaries, "good")]

  /**
   * `set(after[f][t]) - set(before[f].get(t, {}))` compared to `{'100'}` for each
   * pair in turn: the first pair that differs, or `KeyError` when `after[f]` lacks `t`.
   */
  function FirstAddMismatch(before: IndexState, after: IndexState, checks: seq<(Field, Term)>, id: Id): (r: Result<Option<Term>>)
    ensures r.Success? && r.value.None? <==>
      forall i :: 0 <= i < |checks| ==>
        checks[i].1 in after.Get(checks[i].0) &&
        after.Get(checks[i].0)[checks[i].1].Keys - PostingIds(before.Get(checks[i].0), checks[i].1) == {id}
  {
    if checks == [] then Success(None)
    else
      var (f, t) := checks[0];
      if t !in after.Get(f) then Failure(KeyError)
      else if after.Get(f)[t].Keys - PostingIds(before.Get(f), t) != {id} then Success(Some(t))
      else FirstAddMismatch(before, after, checks[1..], id)
  }

  /** The terms of the test document, field by field: no term repeats within a field. */
  lemma DummyTerms()
    ensures FieldTerms(Dummy, Stars) == ["tim", "henry"]
    ensures FieldTerms(Dummy, Genres) == ["drama", "crime"]
    ensures FieldTerms(Dummy, Summaries) == ["good"]
    ensures Distinct(FieldTerms(Dummy, Stars)) && Distinct(FieldTerms(Dummy, Genres)) && Distinct(FieldTerms(Dummy, Summaries))
  {
    DummyStars();
    DummySummaries();
    TwoDistinct("tim", "henry");
    TwoDistinct("drama", "crime");
  }

  lemma DummyStars()
    ensures FieldTerms(Dummy, Stars) == ["tim", "henry"]
  {
    SplitTwoEntries("tim", "henry");
  }

  lemma DummySummaries()
    ensures FieldTerms(Dummy, Summaries) == ["good"]
  {
    SplitOneEntry("good");
    SplitWord("good");
  }

  lemma SplitTwoEntries(a: string, b: string)
    requires IsWord(a) && IsWord(b)
    ensures Flatten(SplitAll([a, b])) == [a, b]
  {
    SplitWord(a);
    SplitWord(b);
    assert [a, b][..1] == [a];
    assert [a][..0] == [];
    assert SplitAll([a, b]) == [[a], [b]];
    FlattenSnoc([[a]], [b]);
    FlattenSnoc([], [a]);
    assert [[a], [b]] == [[a]] + [[b]];
    assert [[a]] == [] + [[a]];
  }

  lemma SplitOneEntry(a: string)
    ensures Flatten(SplitAll([a])) == Split(a)
  {
    assert [a][..0] == [];
    assert SplitAll([a]) == [Split(a)];
    FlattenSnoc([], Split(a));
    assert [Split(a)] == [] + [Split(a)];
  }

  lemma TwoDistinct(a: Term, b: Term)
    requires a != b
    ensures Distinct([a, b])
  {
  }

  class Index {
    const preprocessedDocuments: seq<Document>
    var documents: map<Id, Document>
    var stars: Postings
    var genres: Postings
    var summaries: Postings

    function State(): IndexState
      reads this
    {
      IndexState(documents, stars, genres, summaries)
    }

    ghost predicate Valid()
      reads this
    {
      WellFormed(stars) && WellFormed(genres) && WellFormed(summaries)
    }

    /** `__init__`: the documents table and the three dictionaries built from the batch. */
    constructor(preprocessedDocuments: seq<Document>)
      ensures this.preprocessedDocuments == preprocessedDocuments
      ensures State() == IndexState(DocumentTable(preprocessedDocuments), BuildPostings(preprocessedDocuments, Stars),
        BuildPostings(preprocessedDocuments, Genres), BuildPostings(preprocessedDocuments, Summaries))
      ensures Valid()
      ensures DistinctIds(preprocessedDocuments) ==> Consistent(State())
    {
      var table := IndexDocuments(preprocessedDocuments);
      var byStars := IndexField(preprocessedDocuments, Stars);
      var byGenres := IndexField(preprocessedDocuments, Genres);
      var bySummaries := IndexField(preprocessedDocuments, Summaries);
      this.preprocessedDocuments := preprocessedDocuments;
      documents, stars, genres, summaries := table, byStars, byGenres, bySummaries;
      BuildPostingsCounts(preprocessedDocuments, Stars);
      BuildPostingsCounts(preprocessedDocuments, Genres);
      BuildPostingsCounts(preprocessedDocuments, Summaries);
      if DistinctIds(preprocessedDocuments) {
        BuildIsConsistent(preprocessedDocuments);
      }
    }

    /** `index_documents`. */
    static method IndexDocuments(docs: seq<Document>) returns (table: map<Id, Document>)
      ensures table == DocumentTable(docs)
    {
      table := map[];
      for i := 0 to |docs|
        invariant table == DocumentTable(docs[..i])
      {
        assert docs[..i + 1][..i] == docs[..i];
        table := table[docs[i].id := docs[i]];
      }
      assert docs[..|docs|] == docs;
    }

    /** `index_stars`, `index_genres` and `index_summaries`. */
    static method IndexField(docs: seq<Document>, f: Field) returns (P: Postings)
      ensures P == BuildPostings(docs, f)
    {
      P := map[];
      for i := 0 to |docs|
        invariant P == BuildPostings(docs[..i], f)
      {
        assert docs[..i + 1][..i] == docs[..i];
        P := AddFieldTerms(P, docs[i], f);
      }
      assert docs[..|docs|] == docs;
    }

    /** `add_term_doc_to_index` for every term of one field of `d`, entry by entry. */
    static method AddFieldTerms(P0: Postings, d: Document, f: Field) returns (P: Postings)
      ensures P == AddTerms(P0, FieldTerms(d, f), d.id)
    {
      match f
      case Genres => P := AddEachTerm(P0, d.genres, d.id);
      case Stars => P := AddSplitTerms(P0, d.stars, d.id);
      case Summaries => P := AddSplitTerms(P0, d.summaries, d.id);
    }

    /** `for term in terms: add_term_doc_to_index(term, ...)`. */
    static method AddEachTerm(P0: Postings, terms: seq<Term>, x: Id) returns (P: Postings)
      ensures P == AddTerms(P0, terms, x)
    {
      P := P0;
      for j := 0 to |terms|
        invariant P == AddTerms(P0, terms[..j], x)
      {
        AddTermsStep(P0, terms, j, x);
        P := AddTermDoc(P, terms[j], x);
      }
      assert terms[..|terms|] == terms;
    }

    /** `for entry in entries: for term in entry.split(): add_term_doc_to_index(term, ...)`. */
    static method AddSplitTerms(P0: Postings, entries: seq<string>, x: Id) returns (P: Postings)
      ensures P == AddTerms(P0, Flatten(SplitAll(entries)), x)
    {
      P := P0;
      for i := 0 to |entries|
        invariant P == AddTerms(P0, Flatten(SplitAll(entries[..i])), x)
      {
        SplitAllSnoc(entries, i);
        AddTermsAppend(P0, Flatten(SplitAll(entries[..i])), Split(entries[i]), x);
        P := AddEachTerm(P, Split(entries[i]), x);
      }
      assert entries[..|entries|] == entries;
    }

    /**
     * The `del` loop of `remove_document_from_index` for one field of `d`;
     * `ok` is false when a `del` raised, and `P` is then the dictionary at that moment.
     */
    static method RemoveFieldTerms(P0: Postings, d: Document, f: Field, x: Id) returns (P: Postings, ok: bool)
      ensures ok == RemoveTerms(P0, FieldTerms(d, f), x).Done?
      ensures P == RemoveTerms(P0, FieldTerms(d, f), x).postings
    {
      match f
      case Genres => P, ok := RemoveEachTerm(P0, d.genres, x);
      case Stars => P, ok := RemoveSplitTerms(P0, d.stars, x);
      case Summaries => P, ok := RemoveSplitTerms(P0, d.summaries, x);
    }

    /** `for term in terms: del P[term][x]` (and the emptied row), stopping at the first `KeyError`. */
    static method RemoveEachTerm(P0: Postings, terms: seq<Term>, x: Id) returns (P: Postings, ok: bool)
      ensures ok == RemoveTerms(P0, terms, x).Done?
      ensures P == RemoveTerms(P0, terms, x).postings
    {
      P := P0;
      for j := 0 to |terms|
        invariant RemoveTerms(P0, terms[..j], x) == Done(P)
      {
        RemoveTermsStep(P0, terms, j, x);
        match RemoveTermDoc(P, terms[j], x)
        case Raised(_) =>
          RemoveTermsRaisedPrefix(P0, terms, j + 1, x);
          return P, false;
        case Done(Q) =>
          P := Q;
      }
      assert terms[..|terms|] == terms;
      ok := true;
    }

    /** The same over the whitespace-split words of each entry in turn. */
    static method RemoveSplitTerms(P0: Postings, entries: seq<string>, x: Id) returns (P: Postings, ok: bool)
      ensures ok == RemoveTerms(P0, Flatten(SplitAll(entries)), x).Done?
      ensures P == RemoveTerms(P0, Flatten(SplitAll(entries)), x).postings
    {
      P := P0;
      for i := 0 to |entries|
        invariant RemoveTerms(P0, Flatten(SplitAll(entries[..i])), x) == Done(P)
      {
        SplitAllSnoc(entries, i);
        RemoveTermsAppend(P0, Flatten(SplitAll(entries[..i])), Split(entries[i]), x);
        P, ok := RemoveEachTerm(P, Split(entries[i]), x);
        if !ok {
          ghost var ts, upTo := Flatten(SplitAll(entries)), Flatten(SplitAll(entries[..i + 1]));
          FlattenPrefix(entries, i + 1);
          assert ts[..|upTo|] == upTo;
          assert RemoveTerms(P0, upTo, x) == Raised(P);
          RemoveTermsRaisedPrefix(P0, ts, |upTo|, x);
          return;
        }
      }
      assert entries[..|entries|] == entries;
      ok := true;
    }

    /** `add_document_to_index`. */
    method AddDocument(d: Document)
      requires Valid()
      modifies this
      ensures Valid()
      ensures State() == AddDocumentSpec(old(State()), d)
      ensures d.id in old(documents) ==> State() == old(State())
      ensures d.id !in old(documents) ==> documents == old(documents)[d.id := d]
    {
      if d.id !in documents {
        documents := documents[d.id := d];
        summaries := AddFieldTerms(summaries, d, Summaries);
        stars := AddFieldTerms(stars, d, Stars);
        genres := AddFieldTerms(genres, d, Genres);
      }
    }

    /**
     * `remove_document_from_index`; `ok` is false when it raised `KeyError`,
     * leaving the dictionaries as they were at that moment.
     */
    method RemoveDocument(x: Id) returns (ok: bool)
      requires Valid()
      modifies this
      ensures Valid()
      ensures (State(), ok) == RemoveDocumentSpec(old(State()), x)
      ensures x !in old(documents) ==> ok && State() == old(State())
      ensures ok ==> documents == old(documents) - {x}
      ensures !ok ==> documents == old(documents)
    {
      if x !in documents {
        return true;
      }
      var d := documents[x];
      summaries, ok := RemoveFieldTerms(summaries, d, Summaries, x);
      if !ok {
        return;
      }
      stars, ok := RemoveFieldTerms(stars, d, Stars, x);
      if !ok {
        return;
      }
      genres, ok := RemoveFieldTerms(genres, d, Genres, x);
      if !ok {
        return;
      }
      documents := documents - {x};
    }

    /**
     * `get_posting_list`: the ids posted under `word` in the named field; for
     * "documents" the keys of the stored record; nothing for an unknown word or type.
     */
    method GetPostingList(word: string, indexType: string) returns (r: set<Id>)
      requires Valid()
      ensures indexType == "stars" ==> forall y :: y in r <==> Tf(stars, word, y) >= 1
      ensures indexType == "genres" ==> forall y :: y in r <==> Tf(genres, word, y) >= 1
      ensures indexType == "summaries" ==> forall y :: y in r <==> Tf(summaries, word, y) >= 1
      ensures indexType == "documents" ==> r == (if word in documents then documents[word].Keys() else {})
      ensures indexType !in {"documents", "stars", "genres", "summaries"} ==> r == {}
    {
      if indexType == "documents" {
        r := if word in documents then documents[word].Keys() else {};
      } else if indexType == "stars" || indexType == "genres" || indexType == "summaries" {
        var P := if indexType == "stars" then stars else if indexType == "genres" then genres else summaries;
        r := PostingIds(P, word);
        forall y ensures y in r <==> Tf(P, word, y) >= 1 {
          PostedIffPositive(P, word, y);
        }
      } else {
        r := {};
      }
    }

    /**
     * `check_add_remove_is_correct`: add the test document, compare the new
     * postings of its terms, remove it and compare the whole index with the
     * one before. For a consistent index without id "100" the removal is
     * reported correct and the index is back where it started.
     */
    method CheckAddRemoveIsCorrect() returns (r: Result<CheckReport>)
      requires Valid()
      modifies this
      ensures Valid()
      ensures Consistent(old(State())) && "100" !in old(documents) ==> r == Success(RemoveCorrect) && State() == old(State())
      ensures "100" in old(documents) && old(documents)["100"] != Dummy ==> r == Success(AddIncorrect("document"))
      ensures "100" in old(documents) && old(documents)["100"] == Dummy ==>
                State() == old(State()) && r == (if "tim" in old(stars) then Success(AddIncorrect("tim")) else Failure(KeyError))
    {
      var before := State();
      if Consistent(before) && "100" !in before.documents {
        CheckPassesOnFreshIndex(before);
      }
      AddDocument(Dummy);
      var after := State();
      if documents["100"] != Dummy {
        return Success(AddIncorrect("document"));
      }
      var mismatch := FirstAddMismatch(before, after, DummyChecks, Dummy.id);
      if mismatch.Failure? {
        return Failure(mismatch.error);
      }
      if mismatch.value.Some? {
        return Success(AddIncorrect(mismatch.value.value));
      }
      var ok := RemoveDocument("100");
      if !ok {
        return Failure(KeyError);
      }
      r := if State() == before then Success(RemoveCorrect) else Success(RemoveIncorrect);
    }
  }

  /** On a consistent index without id "100", every add check passes and removal restores the index. */
  lemma CheckPassesOnFreshIndex(s: IndexState)
    requires Consistent(s) && "100" !in s.documents
    ensures FirstAddMismatch(s, AddDocumentSpec(s, Dummy), DummyChecks, Dummy.id) == Success(None)
    ensures RemoveDocumentSpec(AddDocumentSpec(s, Dummy), "100") == (s, true)
  {
    DummyChecksAreTerms();
    AddChecksPass(s, Dummy, DummyChecks);
    DummyDistinct();
    AddRemoveRoundTrip(s, Dummy);
  }

  lemma DummyChecksAreTerms()
    ensures forall i :: 0 <= i < |DummyChecks| ==> DummyChecks[i].1 in FieldTerms(Dummy, DummyChecks[i].0)
  {
    DummyTerms();
    ChecksAreTerms(Dummy, DummyChecks);
  }

  lemma ChecksAreTerms(d: Document, checks: seq<(Field, Term)>)
    requires FieldTerms(d, Stars) == ["tim", "henry"] && FieldTerms(d, Genres) == ["drama", "crime"] && FieldTerms(d, Summaries) == ["good"]
    requires checks == DummyChecks
    ensures forall i :: 0 <= i < |checks| ==> checks[i].1 in FieldTerms(d, checks[i].0)
  {
    forall i | 0 <= i < |checks| ensures checks[i].1 in FieldTerms(d, checks[i].0) {
      var (f, t) := checks[i];
      match f
      case Stars => assert t == "tim" || t == "henry";
      case Genres => assert t == "drama" || t == "crime";
      case Summaries => assert t == "good";
    }
  }

  lemma DummyDistinct()
    ensures Distinct(FieldTerms(Dummy, Summaries)) && Distinct(FieldTerms(Dummy, Stars)) && Distinct(FieldTerms(Dummy, Genres))
  {
    DummyTerms();
  }

  /** Every check on a term of the newly added document passes. */
  lemma AddChecksPass(s: IndexState, d: Document, checks: seq<(Field, Term)>)
    requires Consistent(s) && d.id !in s.documents
    requires forall i :: 0 <= i < |checks| ==> checks[i].1 in FieldTerms(d, checks[i].0)
    ensures FirstAddMismatch(s, AddDocumentSpec(s, d), checks, d.id) == Success(None)
  {
    forall i | 0 <= i < |checks|
      ensures checks[i].1 in AddDocumentSpec(s, d).Get(checks[i].0)
      ensures AddDocumentSpec(s, d).Get(checks[i].0)[checks[i].1].Keys - PostingIds(s.Get(checks[i].0), checks[i].1) == {d.id}
    {
      AddCheckPasses(s, d, checks[i].0, checks[i].1);
    }
  }

  /** One check of the add: the posting of a term of the new document gained exactly its id. */
  lemma AddCheckPasses(s: IndexState, d: Document, f: Field, t: Term)
    requires Consistent(s) && d.id !in s.documents
    requires t in FieldTerms(d, f)
    ensures t in AddDocumentSpec(s, d).Get(f)
    ensures AddDocumentSpec(s, d).Get(f)[t].Keys - PostingIds(s.Get(f), t) == {d.id}
  {
    NewIdAbsent(s, d.id, f);
    AddTermsGainsId(s.Get(f), FieldTerms(d, f), d.id, t);
    AddDocumentField(s, d, f);
  }

  lemma SplitAllSnoc(entries: seq<string>, i: nat)
    requires i < |entries|
    ensures Flatten(SplitAll(entries[..i + 1])) == Flatten(SplitAll(entries[..i])) + Split(entries[i])
  {
    assert entries[..i + 1][..i] == entries[..i];
    assert SplitAll(entries[..i + 1]) == SplitAll(entries[..i]) + [Split(entries[i])];
    FlattenSnoc(SplitAll(entries[..i]), Split(entries[i]));
  }

  /** The words of the first `k` entries are a prefix of the words of all of them. */
  lemma {:induction false} FlattenPrefix(entries: seq<string>, k: nat)
    requires k <= |entries|
    ensures Flatten(SplitAll(entries[..k])) <= Flatten(SplitAll(entries))
  {
    if k < |entries| {
      var init := entries[..|entries| - 1];
      assert init[..k] == entries[..k];
      FlattenPrefix(init, k);
      FlattenSnoc(SplitAll(init), Split(entries[|entries| - 1]));
      assert SplitAll(entries) == SplitAll(init) + [Split(entries[|entries| - 1])];
    } else {
      assert entries[..k] == entries;
    }
  }
}
