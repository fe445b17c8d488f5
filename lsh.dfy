/**
 * Near-duplicate detection (`Logic/core/LSH.py`): word shingles, the binary
 * characteristic matrix, MinHash signatures under given row permutations,
 * banded locality-sensitive bucketing and the Jaccard score of two shingle sets.
 * The permutations that the source draws with `np.random.permutation` are
 * inputs here.
 */
module Lsh {
  import opened Seqs
  import opened Text

  /** The shingle size `build_characteristic_matrix` uses (the default `k`). */
  const DefaultK: nat := 2
  /** The defaults of `lsh_buckets`, used by `perform_lsh`. */
  const Bands: nat := 10
  const RowsPerBand: nat := 10

  // ---------------------------------------------------------------------------
  // Shingling.

  /** The `k`-word windows of `words`, each joined by single spaces, in window order. */
  function Windows(words: seq<string>, k: nat): (ws: seq<string>)
    ensures |ws| == if |words| < k then 0 else |words| - k + 1
  {
    if |words| < k then []
    else seq(|words| - k + 1, i requires 0 <= i < |words| - k + 1 => JoinWith(" ", words[i..i + k]))
  }

  /** The shingle set of a document: its `k`-word windows over `str.split()`. */
  function ShingleSet(document: string, k: nat): set<string> {
    Elems(Windows(Split(document), k))
  }

  /**
   * A document of `n` words has no shingle when `n < k` and otherwise at
   * most `n - k + 1` of them.
   */
  lemma ShingleBounds(document: string, k: nat)
    ensures var n := |Split(document)|;
      |ShingleSet(document, k)| <= (if n < k then 0 else n - k + 1)
    ensures ShingleSet(document, k) == {} <==> |Split(document)| < k
  {
    var ws := Windows(Split(document), k);
    ElemsCard(ws);
    if ws != [] {
      assert ws[0] in Elems(ws);
    }
  }

  /** The `k` words starting at `i`. */
  function WordsAt(words: seq<string>, i: nat, k: nat): seq<string>
    requires i + k <= |words|
  {
    words[i..i + k]
  }

  /** Every shingle splits back into `k` consecutive words of the document. */
  lemma ShingleSplitsToWindow(document: string, k: nat, s: string)
    requires s in ShingleSet(document, k)
    ensures exists i: nat :: i + k <= |Split(document)| && Split(s) == WordsAt(Split(document), i, k)
  {
    var words := Split(document);
    var ws := Windows(words, k);
    var i :| 0 <= i < |ws| && ws[i] == s;
    assert s == JoinWith(" ", words[i..i + k]);
    SplitJoinRoundTrip(words[i..i + k]);
    assert Split(s) == WordsAt(words, i, k);
  }

  // ---------------------------------------------------------------------------
  // MinHash.

  /** A signature entry: a permuted row position, or `np.inf` when no row is hit. */
  datatype MinPos = At(p: nat) | Infinity

  /** `perm` is a permutation of the row indices `0 .. n-1`. */
  predicate IsPermutation(perm: seq<nat>, n: nat) {
    && |perm| == n
    && (forall p :: 0 <= p < |perm| ==> perm[p] < n)
    && (forall i :: 0 <= i < n ==> i in perm)
  }

  predicate RowsIn(perm: seq<nat>, n: nat) {
    forall p :: 0 <= p < |perm| ==> perm[p] < n
  }

  /** The least position `p >= from` whose permuted row is one of `shingles`. */
  function FirstHit(rows: seq<string>, perm: seq<nat>, shingles: set<string>, from: nat): (m: MinPos)
    requires RowsIn(perm, |rows|) && from <= |perm|
    ensures m.At? ==> from <= m.p < |perm| && rows[perm[m.p]] in shingles
    ensures forall q :: from <= q < |perm| && (m.Infinity? || q < m.p) ==> rows[perm[q]] !in shingles
    decreases |perm| - from
  {
    if from == |perm| then Infinity
    else if rows[perm[from]] in shingles then At(from)
    else FirstHit(rows, perm, shingles, from + 1)
  }

  /**
   * The MinHash of a shingle set under `perm`: the least position `p` with
   * `rows[perm[p]]` in the set, or infinity.
   */
  function MinHash(rows: seq<string>, perm: seq<nat>, shingles: set<string>): MinPos
    requires RowsIn(perm, |rows|)
  {
    FirstHit(rows, perm, shingles, 0)
  }

  /** Any position with the defining property is the MinHash. */
  lemma MinHashUnique(rows: seq<string>, perm: seq<nat>, shingles: set<string>, m: MinPos)
    requires RowsIn(perm, |rows|)
    requires m.At? ==> m.p < |perm| && rows[perm[m.p]] in shingles
    requires forall q :: 0 <= q < |perm| && (m.Infinity? || q < m.p) ==> rows[perm[q]] !in shingles
    ensures m == MinHash(rows, perm, shingles)
  {
  }

  /** Under a permutation of all rows, a set of rows has infinite MinHash iff it is empty. */
  lemma MinHashInfinity(rows: seq<string>, perm: seq<nat>, shingles: set<string>)
    requires IsPermutation(perm, |rows|) && shingles <= Elems(rows)
    ensures MinHash(rows, perm, shingles) == Infinity <==> shingles == {}
  {
    if shingles != {} {
      var s :| s in shingles;
      assert s in rows;
      var i :| 0 <= i < |rows| && rows[i] == s;
      assert i in perm;
      var p :| 0 <= p < |perm| && perm[p] == i;
      assert rows[perm[p]] in shingles;
    }
  }

  /**
   * Two shingle sets get the same finite MinHash exactly when the first row
   * of their union, in permutation order, lies in both.
   */
  lemma MinHashAgreement(rows: seq<string>, perm: seq<nat>, a: set<string>, b: set<string>)
    requires RowsIn(perm, |rows|)
    ensures var u := MinHash(rows, perm, a + b);
      (MinHash(rows, perm, a) == MinHash(rows, perm, b) && MinHash(rows, perm, a).At?)
        <==> (u.At? && rows[perm[u.p]] in a * b)
  {
    var ha := MinHash(rows, perm, a);
    var hb := MinHash(rows, perm, b);
    var u := MinHash(rows, perm, a + b);
    if ha == hb && ha.At? {
      MinHashUnique(rows, perm, a + b, ha);
    }
    if u.At? && rows[perm[u.p]] in a * b {
      MinHashUnique(rows, perm, a, u);
      MinHashUnique(rows, perm, b, u);
    }
  }

  // ---------------------------------------------------------------------------
  // Banded bucketing.

  /** A bucket: the band's slice of a signature column and the band index. */
  type BucketKey = (seq<MinPos>, nat)

  function Min(a: int, b: int): int {
    if a <= b then a else b
  }

  /**
   * Rows `[band * r, (band + 1) * r)` of column `d`, clipped to the
   * signature's height as numpy slicing clips.
   */
  function BandSlice(sig: array2<MinPos>, band: nat, r: nat, d: nat): (s: seq<MinPos>)
    reads sig
    requires d < sig.Length1
    ensures |s| <= r
    ensures band * r >= sig.Length0 ==> s == []
  {
    var lo := Min(band * r, sig.Length0);
    var hi := Min(band * r + r, sig.Length0);
    seq(hi - lo, i requires 0 <= i < hi - lo reads sig => sig[lo + i, d])
  }

  /** The documents `d < m` whose band slice is `slice`, in ascending order. */
  function DocsWith(sig: array2<MinPos>, band: nat, r: nat, slice: seq<MinPos>, m: nat): (ds: seq<nat>)
    reads sig
    requires m <= sig.Length1
    ensures forall i :: 0 <= i < |ds| ==> ds[i] < m
    ensures forall i, j :: 0 <= i < j < |ds| ==> ds[i] < ds[j]
  {
    if m == 0 then []
    else
      var last: nat := m - 1;
      DocsWith(sig, band, r, slice, last) + (if BandSlice(sig, band, r, last) == slice then [last] else [])
  }

  /** A document is listed exactly when it is below `m` and its slice is `slice`. */
  lemma {:induction false} DocsWithMembership(sig: array2<MinPos>, band: nat, r: nat, slice: seq<MinPos>, m: nat, d: nat)
    requires m <= sig.Length1
    ensures d in DocsWith(sig, band, r, slice, m) <==> d < m && BandSlice(sig, band, r, d) == slice
  {
    if m > 0 {
      DocsWithMembership(sig, band, r, slice, m - 1, d);
    }
  }

  /** The keys `lsh_buckets` creates for the first `bands` bands. */
  function BucketKeys(sig: array2<MinPos>, bands: nat, r: nat): set<BucketKey>
    reads sig
  {
    set band, d | 0 <= band < bands && 0 <= d < sig.Length1 :: (BandSlice(sig, band, r, d), band)
  }

  /** The buckets: each key maps to the ascending list of documents whose slice is the key's. */
  function Buckets(sig: array2<MinPos>, bands: nat, r: nat): map<BucketKey, seq<nat>>
    reads sig
  {
    map key | key in BucketKeys(sig, bands, r) :: DocsWith(sig, key.1, r, key.0, sig.Length1)
  }

  /** The facts about a bucket map that determine it (used as loop invariants). */
  predicate BucketsUpTo(sig: array2<MinPos>, bands: nat, r: nat, buckets: map<BucketKey, seq<nat>>)
    reads sig
  {
    && (forall key :: key in buckets ==> key.1 < bands && buckets[key] != [])
    && (forall key :: key in buckets ==> buckets[key] == DocsWith(sig, key.1, r, key.0, sig.Length1))
    && (forall band, d :: 0 <= band < bands && 0 <= d < sig.Length1 ==> (BandSlice(sig, band, r, d), band) in buckets)
  }

  lemma BucketsUpToIsBuckets(sig: array2<MinPos>, bands: nat, r: nat, buckets: map<BucketKey, seq<nat>>)
    requires BucketsUpTo(sig, bands, r, buckets)
    ensures buckets == Buckets(sig, bands, r)
  {
    BucketsUpToKeys(sig, bands, r, buckets);
    var spec := Buckets(sig, bands, r);
    assert buckets.Keys == spec.Keys;
    forall key | key in buckets ensures buckets[key] == spec[key] {
    }
  }

  lemma BucketsUpToKeys(sig: array2<MinPos>, bands: nat, r: nat, buckets: map<BucketKey, seq<nat>>)
    requires BucketsUpTo(sig, bands, r, buckets)
    ensures buckets.Keys == BucketKeys(sig, bands, r)
  {
    var keys := BucketKeys(sig, bands, r);
    forall key | key in buckets ensures key in keys {
      var ds := buckets[key];
      var d := ds[0];
      DocsWithMembership(sig, key.1, r, key.0, sig.Length1, d);
      assert key == (BandSlice(sig, key.1, r, d), key.1);
    }
    forall key | key in keys ensures key in buckets {
      var band, d :| 0 <= band < bands && 0 <= d < sig.Length1 && key == (BandSlice(sig, band, r, d), band);
    }
  }

  /** A document lies in a bucket exactly when the bucket's key is its own slice of that band. */
  lemma BucketsMembership(sig: array2<MinPos>, bands: nat, r: nat, key: BucketKey, d: nat)
    ensures (key in Buckets(sig, bands, r) && d in Buckets(sig, bands, r)[key])
      <==> (key.1 < bands && d < sig.Length1 && key.0 == BandSlice(sig, key.1, r, d))
  {
    DocsWithMembership(sig, key.1, r, key.0, sig.Length1, d);
    if key.1 < bands && d < sig.Length1 && key.0 == BandSlice(sig, key.1, r, d) {
      assert key in BucketKeys(sig, bands, r);
    }
  }

  /** Each document is in exactly one bucket per band, and only once there. */
  lemma OneBucketPerBand(sig: array2<MinPos>, bands: nat, r: nat, band: nat, d: nat)
    requires band < bands && d < sig.Length1
    ensures var key := (BandSlice(sig, band, r, d), band);
      key in Buckets(sig, bands, r) && Count(Buckets(sig, bands, r)[key], d) == 1
    ensures forall key :: key in Buckets(sig, bands, r) && key.1 == band && d in Buckets(sig, bands, r)[key] ==>
      key == (BandSlice(sig, band, r, d), band)
  {
    var key := (BandSlice(sig, band, r, d), band);
    BucketsMembership(sig, bands, r, key, d);
    var ds := Buckets(sig, bands, r)[key];
    var i :| 0 <= i < |ds| && ds[i] == d;
    CountOnce(ds, i);
    forall key' | key' in Buckets(sig, bands, r) && key'.1 == band && d in Buckets(sig, bands, r)[key']
      ensures key' == key
    {
      BucketsMembership(sig, bands, r, key', d);
    }
  }

  /** In a strictly increasing list the element at `i` occurs once. */
  lemma {:induction false} CountOnce(ds: seq<nat>, i: nat)
    requires i < |ds|
    requires forall a, b :: 0 <= a < b < |ds| ==> ds[a] < ds[b]
    ensures Count(ds, ds[i]) == 1
  {
    var init := ds[..|ds| - 1];
    if i == |ds| - 1 {
      assert ds[i] !in init by {
        forall a | 0 <= a < |init| ensures init[a] != ds[i] {
          assert init[a] == ds[a];
        }
      }
    } else {
      assert init[i] == ds[i];
      CountOnce(init, i);
    }
  }

  /** Two documents share a bucket of a band iff their slices of that band are equal. */
  lemma SameBucketIff(sig: array2<MinPos>, bands: nat, r: nat, band: nat, d1: nat, d2: nat)
    requires band < bands && d1 < sig.Length1 && d2 < sig.Length1
    ensures (exists key :: key in Buckets(sig, bands, r) && key.1 == band
               && d1 in Buckets(sig, bands, r)[key] && d2 in Buckets(sig, bands, r)[key])
      <==> BandSlice(sig, band, r, d1) == BandSlice(sig, band, r, d2)
  {
    var key := (BandSlice(sig, band, r, d1), band);
    BucketsMembership(sig, bands, r, key, d1);
    BucketsMembership(sig, bands, r, key, d2);
    forall key' | key' in Buckets(sig, bands, r) && key'.1 == band
      && d1 in Buckets(sig, bands, r)[key'] && d2 in Buckets(sig, bands, r)[key']
      ensures BandSlice(sig, band, r, d1) == BandSlice(sig, band, r, d2)
    {
      BucketsMembership(sig, bands, r, key', d1);
      BucketsMembership(sig, bands, r, key', d2);
    }
  }

  /** A band past the last signature row has an empty slice: every document shares its bucket. */
  lemma BandPastEndJoinsAll(sig: array2<MinPos>, bands: nat, r: nat, band: nat, d: nat)
    requires band < bands && band * r >= sig.Length0 && d < sig.Length1
    ensures ([], band) in Buckets(sig, bands, r) && d in Buckets(sig, bands, r)[([], band)]
  {
    BucketsMembership(sig, bands, r, ([], band), d);
  }

  // ---------------------------------------------------------------------------
  // The corpus.

  /** The union of the documents' shingle sets (`all_shingles`). */
  function AllShingles(documents: seq<string>): set<string> {
    UnionOver(documents, d => ShingleSet(d, DefaultK))
  }

  lemma AllShinglesMembership(documents: seq<string>, s: string)
    ensures s in AllShingles(documents) <==> exists j :: 0 <= j < |documents| && s in ShingleSet(documents[j], DefaultK)
  {
    UnionOverMembership(documents, d => ShingleSet(d, DefaultK), s);
  }

  /** Python's `shingle_document`: the loop over window starts, adding each joined window. */
  method ShingleDocument(document: string, k: nat) returns (shingles: set<string>)
    ensures shingles == ShingleSet(document, k)
  {
    shingles := {};
    var doc := Split(document);
    ghost var ws := Windows(doc, k);
    var i := 0;
    while i < |doc| - k + 1
      invariant 0 <= i <= |ws|
      invariant shingles == Elems(ws[..i])
    {
      assert ws[..i + 1] == ws[..i] + [ws[i]];
      shingles := shingles + {JoinWith(" ", doc[i..i + k])};
      i := i + 1;
    }
    assert ws[..i] == ws;
  }

  /** Sets `matrix[i, j] = 1` for each document `j` whose shingle set holds `sh`. */
  method MarkRow(matrix: array2<int>, i: nat, sh: string, shingleSets: seq<set<string>>)
    requires i < matrix.Length0 && matrix.Length1 == |shingleSets|
    modifies matrix
    ensures forall j :: 0 <= j < matrix.Length1 ==>
      matrix[i, j] == if sh in shingleSets[j] then 1 else old(matrix[i, j])
    ensures forall i', j :: 0 <= i' < matrix.Length0 && i' != i && 0 <= j < matrix.Length1 ==>
      matrix[i', j] == old(matrix[i', j])
  {
    for j := 0 to |shingleSets|
      invariant forall j' :: 0 <= j' < j ==>
        matrix[i, j'] == if sh in shingleSets[j'] then 1 else old(matrix[i, j'])
      invariant forall i', j' :: 0 <= i' < matrix.Length0 && 0 <= j' < matrix.Length1 && (i' != i || j' >= j) ==>
        matrix[i', j'] == old(matrix[i', j'])
    {
      if sh in shingleSets[j] {
        matrix[i, j] := 1;
      }
    }
  }

  /** Whether `m` is the least position `p` with `matrix[perm[p], d] == 1`, or infinity if none. */
  ghost predicate IsFirstOne(matrix: array2<int>, perm: seq<nat>, d: nat, m: MinPos)
    reads matrix
    requires d < matrix.Length1 && RowsIn(perm, matrix.Length0)
  {
    && (m.At? ==> m.p < |perm| && matrix[perm[m.p], d] == 1)
    && forall q :: 0 <= q < |perm| && (m.Infinity? || q < m.p) ==> matrix[perm[q], d] != 1
  }

  /**
   * `min(np.where(matrix[hash, doc] == 1)[0])` when that is non-empty, and
   * infinity otherwise.
   */
  method FirstOne(matrix: array2<int>, perm: seq<nat>, d: nat) returns (m: MinPos)
    requires d < matrix.Length1 && RowsIn(perm, matrix.Length0)
    ensures IsFirstOne(matrix, perm, d, m)
  {
    m := Infinity;
    for p := 0 to |perm|
      invariant m.At? ==> m.p < p && matrix[perm[m.p], d] == 1
      invariant forall q :: 0 <= q < p && (m.Infinity? || q < m.p) ==> matrix[perm[q], d] != 1
    {
      if m.Infinity? && matrix[perm[p], d] == 1 {
        m := At(p);
      }
    }
  }

  /** Through the characteristic matrix, the first one of a column is the MinHash of its document. */
  lemma FirstOneIsMinHash(matrix: array2<int>, rows: seq<string>, perm: seq<nat>, d: nat, shingles: set<string>, m: MinPos)
    requires matrix.Length0 == |rows| && d < matrix.Length1 && RowsIn(perm, |rows|)
    requires forall i :: 0 <= i < |rows| ==> (matrix[i, d] == 1 <==> rows[i] in shingles)
    requires IsFirstOne(matrix, perm, d, m)
    ensures m == MinHash(rows, perm, shingles)
  {
    forall q | 0 <= q < |perm| && (m.Infinity? || q < m.p) ensures rows[perm[q]] !in shingles {
      assert matrix[perm[q], d] != 1;
    }
    if m.At? {
      assert matrix[perm[m.p], d] == 1;
    }
    MinHashUnique(rows, perm, shingles, m);
  }

  /** Jaccard similarity of two shingle sets; `0.0` when both are empty. */
  function Jaccard(a: set<string>, b: set<string>): real {
    if |a + b| != 0 then (|a * b| as real) / (|a + b| as real) else 0.0
  }

  /**
   * The score lies in `[0, 1]`, is symmetric, is `1` exactly for two equal
   * non-empty sets and `0` exactly for disjoint ones.
   */
  lemma JaccardProperties(a: set<string>, b: set<string>)
    ensures 0.0 <= Jaccard(a, b) <= 1.0
    ensures Jaccard(a, b) == Jaccard(b, a)
    ensures Jaccard(a, b) == 1.0 <==> a == b && a != {}
    ensures Jaccard(a, b) == 0.0 <==> a * b == {}
  {
    assert a + b == b + a && a * b == b * a;
    SubsetCard(a * b, a + b);
    if a * b == a + b {
      assert a == b by {
        assert a <= a + b && b <= a + b;
      }
    }
    if a != {} && a * b == {} {
      var x :| x in a;
      assert x in a + b;
    }
  }

  /**
   * Python's `MinHashLSH`: a corpus and a number of hash functions. Both
   * are fixed after construction.
   */
  class MinHashLsh {
    const documents: seq<string>
    const numHashes: nat

    constructor (documents: seq<string>, numHashes: nat)
      ensures this.documents == documents && this.numHashes == numHashes
    {
      this.documents := documents;
      this.numHashes := numHashes;
    }

    /**
     * `build_characteristic_matrix`: one row per distinct shingle of the
     * corpus, in the (unspecified) iteration order of the shingle set, one
     * column per document, and a 1 exactly where the document has the shingle.
     */
    method BuildCharacteristicMatrix() returns (ghost rows: seq<string>, matrix: array2<int>)
      ensures fresh(matrix)
      ensures Distinct(rows) && Elems(rows) == AllShingles(documents)
      ensures matrix.Length0 == |rows| && matrix.Length1 == |documents|
      ensures forall i, j :: 0 <= i < |rows| && 0 <= j < |documents| ==>
        matrix[i, j] == if rows[i] in ShingleSet(documents[j], DefaultK) then 1 else 0
    {
      var shingleSets: seq<set<string>> := [];
      var allShingles: set<string> := {};
      for j := 0 to |documents|
        invariant |shingleSets| == j
        invariant forall j' :: 0 <= j' < j ==> shingleSets[j'] == ShingleSet(documents[j'], DefaultK)
        invariant allShingles == AllShingles(documents[..j])
      {
        var shingles := ShingleDocument(documents[j], DefaultK);
        assert documents[..j + 1][..j] == documents[..j];
        allShingles := allShingles + shingles;
        shingleSets := shingleSets + [shingles];
      }
      assert documents[..|documents|] == documents;
      var order := SetToSeq(allShingles);
      rows := order;
      matrix := new int[|order|, |documents|]((i, j) => 0);
      for i := 0 to |order|
        invariant forall i', j :: 0 <= i' < i && 0 <= j < |documents| ==>
          matrix[i', j] == if order[i'] in shingleSets[j] then 1 else 0
        invariant forall i', j :: i <= i' < |order| && 0 <= j < |documents| ==> matrix[i', j] == 0
      {
        MarkRow(matrix, i, order[i], shingleSets);
      }
    }

    /**
     * `min_hash_signature` with the permutations given: entry `(h, d)` is
     * the MinHash of document `d`'s shingles under permutation `h`, so
     * documents with equal shingle sets get equal columns.
     */
    method MinHashSignature(perms: seq<seq<nat>>) returns (ghost rows: seq<string>, sig: array2<MinPos>)
      requires |perms| == numHashes
      requires forall h :: 0 <= h < |perms| ==> IsPermutation(perms[h], |AllShingles(documents)|)
      ensures fresh(sig)
      ensures Distinct(rows) && Elems(rows) == AllShingles(documents)
      ensures sig.Length0 == numHashes && sig.Length1 == |documents|
      ensures forall h :: 0 <= h < |perms| ==> RowsIn(perms[h], |rows|)
      ensures forall h, d :: 0 <= h < numHashes && 0 <= d < |documents| ==>
        sig[h, d] == MinHash(rows, perms[h], ShingleSet(documents[d], DefaultK))
      ensures forall h, d1, d2 ::
        && 0 <= h < numHashes && 0 <= d1 < |documents| && 0 <= d2 < |documents|
        && ShingleSet(documents[d1], DefaultK) == ShingleSet(documents[d2], DefaultK)
        ==> sig[h, d1] == sig[h, d2]
    {
      var matrix;
      rows, matrix := BuildCharacteristicMatrix();
      ElemsCard(rows);
      sig := new MinPos[numHashes, matrix.Length1]((h, d) => Infinity);
      for d := 0 to matrix.Length1
        modifies sig
        invariant forall h, d' :: 0 <= h < numHashes && 0 <= d' < d ==>
          sig[h, d'] == MinHash(rows, perms[h], ShingleSet(documents[d'], DefaultK))
        invariant forall h, d' :: 0 <= h < numHashes && d <= d' < |documents| ==> sig[h, d'] == Infinity
      {
        SignColumn(sig, matrix, perms, d);
        forall h | 0 <= h < numHashes
          ensures sig[h, d] == MinHash(rows, perms[h], ShingleSet(documents[d], DefaultK))
        {
          FirstOneIsMinHash(matrix, rows, perms[h], d, ShingleSet(documents[d], DefaultK), sig[h, d]);
        }
      }
    }

    /** The inner loop of `min_hash_signature`: column `d` under every permutation. */
    static method SignColumn(sig: array2<MinPos>, matrix: array2<int>, perms: seq<seq<nat>>, d: nat)
      requires d < sig.Length1 && d < matrix.Length1 && sig.Length0 == |perms|
      requires forall h :: 0 <= h < |perms| ==> RowsIn(perms[h], matrix.Length0)
      requires forall h :: 0 <= h < |perms| ==> sig[h, d] == Infinity
      modifies sig
      ensures forall h :: 0 <= h < |perms| ==> IsFirstOne(matrix, perms[h], d, sig[h, d])
      ensures forall h, d' :: 0 <= h < sig.Length0 && 0 <= d' < sig.Length1 && d' != d ==>
        sig[h, d'] == old(sig[h, d'])
    {
      for h := 0 to |perms|
        invariant forall h' :: 0 <= h' < h ==> IsFirstOne(matrix, perms[h'], d, sig[h', d])
        invariant forall h' :: h <= h' < |perms| ==> sig[h', d] == Infinity
        invariant forall h', d' :: 0 <= h' < sig.Length0 && 0 <= d' < sig.Length1 && d' != d ==>
          sig[h', d'] == old(sig[h', d'])
      {
        var m := FirstOne(matrix, perms[h], d);
        if m.At? {
          sig[h, d] := m;
        }
      }
    }

    /**
     * `lsh_buckets`: for each band, each document index is appended to the
     * bucket of its band slice, giving exactly the map `Buckets`.
     */
    method LshBuckets(sig: array2<MinPos>, bands: nat, rowsPerBand: nat) returns (buckets: map<BucketKey, seq<nat>>)
      ensures buckets == Buckets(sig, bands, rowsPerBand)
    {
      buckets := map[];
      for band := 0 to bands
        invariant BucketsUpTo(sig, band, rowsPerBand, buckets)
      {
        buckets := BucketBand(sig, band, rowsPerBand, buckets);
      }
      BucketsUpToIsBuckets(sig, bands, rowsPerBand, buckets);
    }

    /** The inner loop of `lsh_buckets`: one band, documents in ascending order. */
    static method BucketBand(sig: array2<MinPos>, band: nat, r: nat, before: map<BucketKey, seq<nat>>)
      returns (buckets: map<BucketKey, seq<nat>>)
      requires BucketsUpTo(sig, band, r, before)
      ensures BucketsUpTo(sig, band + 1, r, buckets)
    {
      buckets := before;
      for d := 0 to sig.Length1
        invariant BandProgress(sig, band, r, d, buckets)
      {
        var key := (BandSlice(sig, band, r, d), band);
        BandStep(sig, band, r, d, buckets);
        buckets := buckets[key := (if key in buckets then buckets[key] else []) + [d]];
      }
      BandDone(sig, band, r, buckets);
    }

    /**
     * `perform_lsh`: the signature under the given permutations, then the
     * buckets with 10 bands of 10 rows.
     */
    method PerformLsh(perms: seq<seq<nat>>) returns (ghost rows: seq<string>, ghost sig: array2<MinPos>, buckets: map<BucketKey, seq<nat>>)
      requires |perms| == numHashes
      requires forall h :: 0 <= h < |perms| ==> IsPermutation(perms[h], |AllShingles(documents)|)
      ensures fresh(sig)
      ensures Distinct(rows) && Elems(rows) == AllShingles(documents)
      ensures sig.Length0 == numHashes && sig.Length1 == |documents|
      ensures forall h :: 0 <= h < |perms| ==> RowsIn(perms[h], |rows|)
      ensures forall h, d :: 0 <= h < numHashes && 0 <= d < |documents| ==>
        sig[h, d] == MinHash(rows, perms[h], ShingleSet(documents[d], DefaultK))
      ensures buckets == Buckets(sig, Bands, RowsPerBand)
    {
      var s;
      rows, s := MinHashSignature(perms);
      sig := s;
      buckets := LshBuckets(s, Bands, RowsPerBand);
    }
  }

  /** The bucket map while band `band` has been done for the documents before `d`. */
  predicate BandProgress(sig: array2<MinPos>, band: nat, r: nat, d: nat, buckets: map<BucketKey, seq<nat>>)
    reads sig
    requires d <= sig.Length1
  {
    && (forall key :: key in buckets ==> key.1 <= band && buckets[key] != [])
    && EarlierBands(sig, band, r, buckets)
    && CurrentBand(sig, band, r, d, buckets)
  }

  /** The bands before `band` are complete. */
  predicate EarlierBands(sig: array2<MinPos>, band: nat, r: nat, buckets: map<BucketKey, seq<nat>>)
    reads sig
  {
    && (forall key :: key in buckets && key.1 < band ==> buckets[key] == DocsWith(sig, key.1, r, key.0, sig.Length1))
    && (forall b, d' :: 0 <= b < band && 0 <= d' < sig.Length1 ==> (BandSlice(sig, b, r, d'), b) in buckets)
  }

  /** Band `band` holds the documents before `d`. */
  predicate CurrentBand(sig: array2<MinPos>, band: nat, r: nat, d: nat, buckets: map<BucketKey, seq<nat>>)
    reads sig
    requires d <= sig.Length1
  {
    && (forall key :: key in buckets && key.1 == band ==> buckets[key] == DocsWith(sig, band, r, key.0, d))
    && (forall d' :: 0 <= d' < d ==> (BandSlice(sig, band, r, d'), band) in buckets)
  }

  /** Appending document `d` to the bucket of its slice keeps the progress facts. */
  lemma BandStep(sig: array2<MinPos>, band: nat, r: nat, d: nat, buckets: map<BucketKey, seq<nat>>)
    requires d < sig.Length1 && BandProgress(sig, band, r, d, buckets)
    ensures var key := (BandSlice(sig, band, r, d), band);
      BandProgress(sig, band, r, d + 1, buckets[key := (if key in buckets then buckets[key] else []) + [d]])
  {
    var key := (BandSlice(sig, band, r, d), band);
    var next := buckets[key := (if key in buckets then buckets[key] else []) + [d]];
    EarlierBandsStep(sig, band, r, buckets, key, (if key in buckets then buckets[key] else []) + [d]);
    CurrentBandStep(sig, band, r, d, buckets);
  }

  lemma EarlierBandsStep(sig: array2<MinPos>, band: nat, r: nat, buckets: map<BucketKey, seq<nat>>, key: BucketKey, ds: seq<nat>)
    requires EarlierBands(sig, band, r, buckets) && key.1 == band
    ensures EarlierBands(sig, band, r, buckets[key := ds])
  {
    var next := buckets[key := ds];
    forall key' | key' in next && key'.1 < band
      ensures next[key'] == DocsWith(sig, key'.1, r, key'.0, sig.Length1)
    {
      assert key' != key && key' in buckets;
    }
  }

  lemma CurrentBandStep(sig: array2<MinPos>, band: nat, r: nat, d: nat, buckets: map<BucketKey, seq<nat>>)
    requires d < sig.Length1 && CurrentBand(sig, band, r, d, buckets)
    ensures var key := (BandSlice(sig, band, r, d), band);
      CurrentBand(sig, band, r, d + 1, buckets[key := (if key in buckets then buckets[key] else []) + [d]])
  {
    var key := (BandSlice(sig, band, r, d), band);
    var next := buckets[key := (if key in buckets then buckets[key] else []) + [d]];
    if key !in buckets {
      NoEarlierDocs(sig, band, r, key.0, d, buckets);
    }
    forall key' | key' in next && key'.1 == band ensures next[key'] == DocsWith(sig, band, r, key'.0, d + 1) {
      DocsWithStep(sig, band, r, key'.0, d);
    }
  }

  lemma DocsWithStep(sig: array2<MinPos>, band: nat, r: nat, slice: seq<MinPos>, d: nat)
    requires d < sig.Length1
    ensures DocsWith(sig, band, r, slice, d + 1)
      == DocsWith(sig, band, r, slice, d) + (if BandSlice(sig, band, r, d) == slice then [d] else [])
  {
  }

  /** A key not yet in the map has no earlier document of this band. */
  lemma NoEarlierDocs(sig: array2<MinPos>, band: nat, r: nat, slice: seq<MinPos>, d: nat, buckets: map<BucketKey, seq<nat>>)
    requires d <= sig.Length1
    requires forall d' :: 0 <= d' < d ==> (BandSlice(sig, band, r, d'), band) in buckets
    requires (slice, band) !in buckets
    ensures DocsWith(sig, band, r, slice, d) == []
  {
  }

  /** After the last document the band is complete. */
  lemma BandDone(sig: array2<MinPos>, band: nat, r: nat, buckets: map<BucketKey, seq<nat>>)
    requires BandProgress(sig, band, r, sig.Length1, buckets)
    ensures BucketsUpTo(sig, band + 1, r, buckets)
  {
  }
}
