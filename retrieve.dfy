/** Retrieval: over-fetching from the vector store, priority reranking, page
    retrieval, context windows around a chunk id, and the length-budgeted
    packing of retrieved chunks for the model. The store and the embedding
    similarity are parameters. */
module Retrieve {
  import opened Text
  import opened Meta
  import Ingest

  // ---------------------------------------------------------------------------
  // A stable descending sort (Python's `list.sort(key=..., reverse=True)`)

  /** Insert `x` before the first element whose key is not greater than its own. */
  function InsertDesc<T>(x: T, r: seq<T>, key: T -> real): (o: seq<T>)
    ensures |o| == |r| + 1
  {
    if r == [] then [x]
    else if key(x) >= key(r[0]) then [x] + r
    else [r[0]] + InsertDesc(x, r[1..], key)
  }

  /** Insertion adds exactly `x`. */
  lemma {:induction false} InsertDescPerm<T>(x: T, r: seq<T>, key: T -> real)
    ensures multiset(InsertDesc(x, r, key)) == multiset(r) + multiset{x}
    decreases |r|
  {
    if r != [] && key(x) < key(r[0]) {
      InsertDescPerm(x, r[1..], key);
      assert r == [r[0]] + r[1..];
    }
  }

  /** Insertion sort from the back: the earlier of two equal keys stays in front. */
  function SortDesc<T>(s: seq<T>, key: T -> real): (o: seq<T>)
    ensures |o| == |s|
  {
    if s == [] then [] else InsertDesc(s[0], SortDesc(s[1..], key), key)
  }

  /** The sort is a permutation of its input. */
  lemma {:induction false} SortDescPerm<T>(s: seq<T>, key: T -> real)
    ensures multiset(SortDesc(s, key)) == multiset(s)
  {
    if s != [] {
      SortDescPerm(s[1..], key);
      InsertDescPerm(s[0], SortDesc(s[1..], key), key);
      assert s == [s[0]] + s[1..];
    }
  }

  predicate NonIncreasing<T>(s: seq<T>, key: T -> real) {
    forall i, j :: 0 <= i < j < |s| ==> key(s[i]) >= key(s[j])
  }

  /** The elements of `s` whose key is `v`, in order. */
  function KeyFilter<T>(s: seq<T>, key: T -> real, v: real): seq<T> {
    if s == [] then []
    else (if key(s[0]) == v then [s[0]] else []) + KeyFilter(s[1..], key, v)
  }

  lemma {:induction false} InsertDescSorted<T>(x: T, r: seq<T>, key: T -> real)
    requires NonIncreasing(r, key)
    ensures NonIncreasing(InsertDesc(x, r, key), key)
    decreases |r|
  {
    if r != [] && key(x) < key(r[0]) {
      var tail := InsertDesc(x, r[1..], key);
      assert NonIncreasing(r[1..], key) by {
        forall i, j | 0 <= i < j < |r[1..]| ensures key(r[1..][i]) >= key(r[1..][j]) {
          assert r[1..][i] == r[i + 1] && r[1..][j] == r[j + 1];
        }
      }
      InsertDescSorted(x, r[1..], key);
      InsertDescPerm(x, r[1..], key);
      forall j | 0 <= j < |tail| ensures key(r[0]) >= key(tail[j]) {
        assert tail[j] in multiset(tail);
        assert tail[j] in multiset(r[1..]) + multiset{x};
        if tail[j] != x {
          assert tail[j] in r[1..];
          var k :| 0 <= k < |r[1..]| && r[1..][k] == tail[j];
          assert r[k + 1] == tail[j];
        }
      }
      var o := [r[0]] + tail;
      forall i, j | 0 <= i < j < |o| ensures key(o[i]) >= key(o[j]) {
        if i > 0 {
          assert o[i] == tail[i - 1] && o[j] == tail[j - 1];
        } else {
          assert o[j] == tail[j - 1];
        }
      }
    }
  }

  /** The sort yields non-increasing keys. */
  lemma {:induction false} SortDescSorted<T>(s: seq<T>, key: T -> real)
    ensures NonIncreasing(SortDesc(s, key), key)
  {
    if s != [] {
      SortDescSorted(s[1..], key);
      InsertDescSorted(s[0], SortDesc(s[1..], key), key);
    }
  }

  lemma {:induction false} InsertDescFilter<T>(x: T, r: seq<T>, key: T -> real, v: real)
    ensures KeyFilter(InsertDesc(x, r, key), key, v) == (if key(x) == v then [x] else []) + KeyFilter(r, key, v)
    decreases |r|
  {
    if r != [] && key(x) < key(r[0]) {
      var t := InsertDesc(x, r[1..], key);
      InsertDescFilter(x, r[1..], key, v);
      var o := [r[0]] + t;
      assert InsertDesc(x, r, key) == o;
      assert o[1..] == t;
      var xs := if key(x) == v then [x] else [];
      var hs := if key(r[0]) == v then [r[0]] else [];
      assert KeyFilter(o, key, v) == hs + (xs + KeyFilter(r[1..], key, v));
      assert KeyFilter(r, key, v) == hs + KeyFilter(r[1..], key, v);
      // `x` and `r[0]` have different keys, so at most one of them is kept.
      assert hs == [] || xs == [];
    } else if r != [] {
      var o := [x] + r;
      assert o[1..] == r;
    }
  }

  /** The sort is stable: the elements with any one key keep their relative order. */
  lemma {:induction false} SortDescStable<T>(s: seq<T>, key: T -> real, v: real)
    ensures KeyFilter(SortDesc(s, key), key, v) == KeyFilter(s, key, v)
  {
    if s != [] {
      SortDescStable(s[1..], key, v);
      InsertDescFilter(s[0], SortDesc(s[1..], key), key, v);
    }
  }

  // ---------------------------------------------------------------------------
  // Retrieved chunks and the store

  /** A retrieved chunk. `distance` is absent for page retrieval; the boost fields are
      present only after priority reranking. */
  datatype Hit = Hit(
    chunkId: string,
    chunkText: string,
    metadata: Metadata,
    distance: Option<real>,
    similarity: real,
    rank: nat,
    boostedSimilarity: Option<real>,
    priorityBoost: Option<real>)

  /** A record as the store returns it: id, document text and flattened metadata. */
  datatype StoredChunk = StoredChunk(id: string, document: string, metadata: Metadata)

  /** One nearest-neighbour match with its distance from the query. */
  datatype Match = Match(chunk: StoredChunk, distance: real)

  /** The store's answer for one query; `hasDistances` says whether distances were included. */
  datatype QueryResult = QueryResult(matches: seq<Match>, hasDistances: bool)

  /** The vector store and the embedding model, as far as retrieval uses them:
      `query(text, nResults, filter)`, `getPage(filename, page)`, `getIds(ids)` (None when
      the store raises) and `similarity(query, text)`, the cosine similarity of the embeddings. */
  datatype Store = Store(
    query: (string, int, Option<Metadata>) -> QueryResult,
    getPage: (string, int) -> seq<StoredChunk>,
    getIds: seq<string> -> Option<seq<StoredChunk>>,
    similarity: (string, string) -> real)

  datatype Retriever = Retriever(store: Store, topK: int)

  /** The hit built from the store's `i`-th match. */
  function HitOf(m: Match, hasDistances: bool, i: nat): (h: Hit)
    ensures h.distance == Some(if hasDistances then m.distance else 0.0)
    ensures h.similarity + (if hasDistances then m.distance else 0.0) == 1.0
    ensures h.rank == i && h.chunkId == m.chunk.id
  {
    Hit(m.chunk.id, m.chunk.document, m.chunk.metadata,
        Some(if hasDistances then m.distance else 0.0),
        if hasDistances then 1.0 - m.distance else 1.0,
        i, None, None)
  }

  function Hits(res: QueryResult): (hs: seq<Hit>)
    ensures |hs| == |res.matches|
  {
    seq(|res.matches|, i requires 0 <= i < |res.matches| => HitOf(res.matches[i], res.hasDistances, i))
  }

  // ---------------------------------------------------------------------------
  // Priority reranking

  /** The fixed weight table; any other priority weighs 1.0. */
  function PriorityWeight(priority: Value): (w: real)
    ensures 1.0 <= w <= 1.3
    ensures w > 1.0 <==> priority in {Str("rubric"), Str("slides"), Str("textbook")}
  {
    if priority == Str("rubric") then 1.3
    else if priority == Str("slides") then 1.2
    else if priority == Str("textbook") then 1.1
    else 1.0
  }

  /** The boost of a chunk: its priority weight, times 1.1 when trusted; a missing priority
      counts as "normal" and a missing trust flag as true. */
  function BoostFactor(metadata: Metadata): (b: real)
    ensures b == PriorityWeight(Get(metadata, "priority", Str("normal"))) *
                 (if Truthy(Get(metadata, "trusted", Bool(true))) then 1.1 else 1.0)
    ensures 1.0 <= b <= 1.43
  {
    var boost := PriorityWeight(Get(metadata, "priority", Str("normal")));
    if Truthy(Get(metadata, "trusted", Bool(true))) then boost * 1.1 else boost
  }

  function Boost(h: Hit): Hit {
    h.(boostedSimilarity := Some(h.similarity * BoostFactor(h.metadata)),
       priorityBoost := Some(BoostFactor(h.metadata)))
  }

  /** The score a chunk is ranked by: its boosted similarity, else its similarity. */
  function BoostedKey(h: Hit): real {
    match h.boostedSimilarity
    case Some(b) => b
    case None => h.similarity
  }

  function SimilarityKey(h: Hit): real {
    h.similarity
  }

  /** `for i, chunk in enumerate(chunks): chunk['rank'] = i` */
  function Ranked(s: seq<Hit>): (r: seq<Hit>)
    ensures |r| == |s|
    ensures forall i :: 0 <= i < |r| ==> r[i] == s[i].(rank := i)
  {
    seq(|s|, i requires 0 <= i < |s| => s[i].(rank := i))
  }

  function BoostAll(s: seq<Hit>): (r: seq<Hit>)
    ensures |r| == |s|
    ensures forall i :: 0 <= i < |s| ==> r[i] == Boost(s[i])
  {
    seq(|s|, i requires 0 <= i < |s| => Boost(s[i]))
  }

  /** The result of `_apply_priority_boost`. */
  function Rerank(s: seq<Hit>): seq<Hit> {
    Ranked(SortDesc(BoostAll(s), BoostedKey))
  }

  /** `_apply_priority_boost`: record each chunk's boost, sort by boosted similarity
      (descending, stable), then renumber the ranks. */
  method ApplyPriorityBoost(chunks: seq<Hit>) returns (r: seq<Hit>)
    ensures r == Rerank(chunks)
  {
    var boosted := [];
    var k := 0;
    while k < |chunks|
      invariant 0 <= k <= |chunks|
      invariant boosted == BoostAll(chunks[..k])
    {
      var chunk := chunks[k];
      var priority := Get(chunk.metadata, "priority", Str("normal"));
      var trusted := Get(chunk.metadata, "trusted", Bool(true));
      var boost := PriorityWeight(priority);
      if Truthy(trusted) {
        boost := boost * 1.1;
      }
      var updated := chunk.(boostedSimilarity := Some(chunk.similarity * boost), priorityBoost := Some(boost));
      assert boost == BoostFactor(chunk.metadata);
      assert updated == Boost(chunk);
      assert BoostAll(chunks[..k + 1]) == BoostAll(chunks[..k]) + [Boost(chunk)];
      boosted := boosted + [updated];
      k := k + 1;
    }
    assert chunks[..|chunks|] == chunks;
    var sorted := SortDesc(boosted, BoostedKey);
    r := [];
    k := 0;
    while k < |sorted|
      invariant 0 <= k <= |sorted|
      invariant r == Ranked(sorted[..k])
    {
      r := r + [sorted[k].(rank := k)];
      k := k + 1;
    }
    assert sorted[..|sorted|] == sorted;
  }

  /** Reranking permutes the boosted chunks, orders them by non-increasing boosted similarity,
      keeps the order of ties, and renumbers the ranks 0..n-1; nothing else about a chunk changes. */
  lemma RerankSpec(s: seq<Hit>, v: real)
    ensures var sorted := SortDesc(BoostAll(s), BoostedKey);
            var r := Rerank(s);
            |r| == |s| &&
            multiset(sorted) == multiset(BoostAll(s)) &&
            (forall i :: 0 <= i < |r| ==> r[i] == sorted[i].(rank := i) && r[i].rank == i) &&
            NonIncreasing(r, BoostedKey) &&
            KeyFilter(sorted, BoostedKey, v) == KeyFilter(BoostAll(s), BoostedKey, v)
  {
    var sorted := SortDesc(BoostAll(s), BoostedKey);
    SortDescPerm(BoostAll(s), BoostedKey);
    SortDescSorted(BoostAll(s), BoostedKey);
    SortDescStable(BoostAll(s), BoostedKey, v);
    var r := Rerank(s);
    forall i, j | 0 <= i < j < |r| ensures BoostedKey(r[i]) >= BoostedKey(r[j]) {
      assert BoostedKey(r[i]) == BoostedKey(sorted[i]);
      assert BoostedKey(r[j]) == BoostedKey(sorted[j]);
    }
  }

  /** The chunk records its boost and its boosted similarity. */
  predicate CarriesBoost(h: Hit) {
    h.priorityBoost == Some(BoostFactor(h.metadata)) &&
    h.boostedSimilarity == Some(h.similarity * BoostFactor(h.metadata))
  }

  /** Sorting keeps exactly the elements it was given. */
  lemma SortDescElements<T>(s: seq<T>, key: T -> real, x: T)
    ensures x in SortDesc(s, key) <==> x in s
  {
    var o := SortDesc(s, key);
    SortDescPerm(s, key);
    assert x in o <==> x in multiset(o);
    assert x in s <==> x in multiset(s);
  }

  lemma BoostCarries(x: Hit)
    ensures CarriesBoost(Boost(x))
  {
    var y := Boost(x);
    assert y.metadata == x.metadata;
    assert y.priorityBoost == Some(BoostFactor(x.metadata));
  }

  lemma CarriesBoostRank(h: Hit, i: nat)
    requires CarriesBoost(h)
    ensures CarriesBoost(h.(rank := i))
  {
    var y := h.(rank := i);
    assert y.metadata == h.metadata && y.similarity == h.similarity;
    assert y.priorityBoost == h.priorityBoost && y.boostedSimilarity == h.boostedSimilarity;
  }

  /** After reranking, every chunk carries its boost and its boosted similarity. */
  lemma RerankCarriesBoost(s: seq<Hit>, i: nat)
    requires i < |s|
    ensures CarriesBoost(Rerank(s)[i])
  {
    var b := BoostAll(s);
    var sorted := SortDesc(b, BoostedKey);
    var h := sorted[i];
    SortDescElements(b, BoostedKey, h);
    var j :| 0 <= j < |b| && b[j] == h;
    assert h == Boost(s[j]);
    BoostCarries(s[j]);
    CarriesBoostRank(h, i);
    assert Rerank(s)[i] == h.(rank := i);
  }
  /** Reranked chunks are in non-increasing boosted similarity. */
  lemma RerankNonIncreasing(s: seq<Hit>)
    ensures NonIncreasing(Rerank(s), BoostedKey)
  {
    var sorted := SortDesc(BoostAll(s), BoostedKey);
    SortDescSorted(BoostAll(s), BoostedKey);
    var r := Rerank(s);
    forall i, j | 0 <= i < j < |r| ensures BoostedKey(r[i]) >= BoostedKey(r[j]) {
      assert BoostedKey(r[i]) == BoostedKey(sorted[i]);
      assert BoostedKey(r[j]) == BoostedKey(sorted[j]);
    }
  }

  /** In a sequence ordered by non-increasing key, a larger key comes first. */
  lemma LargerKeyFirst<T>(r: seq<T>, key: T -> real, i: nat, j: nat)
    requires NonIncreasing(r, key) && i < |r| && j < |r|
    requires key(r[i]) > key(r[j])
    ensures i < j
  {
  }

  /** After reranking, `a` comes before `b` when its boosted similarity is the larger. */
  lemma {:induction false} BoostedOrder(s: seq<Hit>, a: Hit, b: Hit)
    requires BoostedKey(Boost(a)) > BoostedKey(Boost(b))
    ensures var r := Rerank(s);
      forall i, j ::
        (0 <= i < |r| && 0 <= j < |r| &&
         r[i] == Boost(a).(rank := i) && r[j] == Boost(b).(rank := j)) ==> i < j
  {
    var r := Rerank(s);
    RerankNonIncreasing(s);
    forall i, j | 0 <= i < |r| && 0 <= j < |r| &&
                  r[i] == Boost(a).(rank := i) && r[j] == Boost(b).(rank := j)
      ensures i < j
    {
      assert BoostedKey(r[i]) == BoostedKey(Boost(a));
      assert BoostedKey(r[j]) == BoostedKey(Boost(b));
      LargerKeyFirst(r, BoostedKey, i, j);
    }
  }

  /** Every input chunk appears, boosted and re-ranked, in the reranked list. */
  lemma RerankHolds(s: seq<Hit>, p: nat)
    requires p < |s|
    ensures var r := Rerank(s);
      exists i :: 0 <= i < |r| && r[i] == Boost(s[p]).(rank := i)
  {
    var sorted := SortDesc(BoostAll(s), BoostedKey);
    assert BoostAll(s)[p] == Boost(s[p]);
    SortDescElements(BoostAll(s), BoostedKey, Boost(s[p]));
    var i :| 0 <= i < |sorted| && sorted[i] == Boost(s[p]);
    assert Rerank(s)[i] == Boost(s[p]).(rank := i);
  }

  /** Of two chunks with the same positive similarity, the one with the larger boost
      comes first after reranking: it is present, and every position holding it
      precedes every position holding the other. */
  lemma LargerBoostRanksFirst(s: seq<Hit>, p: nat, q: nat)
    requires p < |s| && q < |s|
    requires s[p].similarity == s[q].similarity > 0.0
    requires BoostFactor(s[p].metadata) > BoostFactor(s[q].metadata)
    ensures var r := Rerank(s);
      (exists i :: 0 <= i < |r| && r[i] == Boost(s[p]).(rank := i)) &&
      forall i, j ::
        (0 <= i < |r| && 0 <= j < |r| &&
         r[i] == Boost(s[p]).(rank := i) && r[j] == Boost(s[q]).(rank := j)) ==> i < j
  {
    MulStrict(s[p].similarity, BoostFactor(s[p].metadata), BoostFactor(s[q].metadata));
    assert BoostedKey(Boost(s[p])) == s[p].similarity * BoostFactor(s[p].metadata);
    assert BoostedKey(Boost(s[q])) == s[q].similarity * BoostFactor(s[q].metadata);
    BoostedOrder(s, s[p], s[q]);
    RerankHolds(s, p);
  }

  lemma MulStrict(x: real, a: real, b: real)
    requires x > 0.0 && a > b
    ensures x * a > x * b
  {
  }

  /** The metadata of a trusted rubric chunk and of an untrusted normal one. */
  predicate RubricTrusted(h: Hit) {
    Get(h.metadata, "priority", Str("normal")) == Str("rubric") &&
    Truthy(Get(h.metadata, "trusted", Bool(true)))
  }

  predicate NormalUntrusted(h: Hit) {
    Get(h.metadata, "priority", Str("normal")) == Str("normal") &&
    !Truthy(Get(h.metadata, "trusted", Bool(true)))
  }

  /** Boosting by priority: a trusted rubric chunk (1.3 × 1.1) ranks above an untrusted
      normal chunk (1.0 × 1.0) of the same positive similarity. */
  lemma RubricTrustedOutranksNormal(s: seq<Hit>, p: nat, q: nat)
    requires p < |s| && q < |s| && RubricTrusted(s[p]) && NormalUntrusted(s[q])
    requires s[p].similarity == s[q].similarity > 0.0
    ensures var r := Rerank(s);
      (exists i :: 0 <= i < |r| && r[i] == Boost(s[p]).(rank := i)) &&
      forall i, j ::
        (0 <= i < |r| && 0 <= j < |r| &&
         r[i] == Boost(s[p]).(rank := i) && r[j] == Boost(s[q]).(rank := j)) ==> i < j
  {
    assert BoostFactor(s[p].metadata) == 1.3 * 1.1;
    assert BoostFactor(s[q].metadata) == 1.0;
    LargerBoostRanksFirst(s, p, q);
  }

  /** The similarity is `1 - distance`, negative for a distance above 1, and the boost then
      multiplies it further below zero: the untrusted normal chunk ranks above the trusted
      rubric chunk of the same negative similarity. */
  lemma NegativeSimilarityInvertsBoost(s: seq<Hit>, p: nat, q: nat)
    requires p < |s| && q < |s| && RubricTrusted(s[p]) && NormalUntrusted(s[q])
    requires s[p].similarity == s[q].similarity < 0.0
    ensures var r := Rerank(s);
      (exists i :: 0 <= i < |r| && r[i] == Boost(s[q]).(rank := i)) &&
      forall i, j ::
        (0 <= i < |r| && 0 <= j < |r| &&
         r[i] == Boost(s[q]).(rank := i) && r[j] == Boost(s[p]).(rank := j)) ==> i < j
  {
    var x := s[p].similarity;
    assert BoostFactor(s[p].metadata) == 1.3 * 1.1;
    assert BoostFactor(s[q].metadata) == 1.0;
    assert BoostedKey(Boost(s[p])) == x * (1.3 * 1.1) < x * 1.0 == BoostedKey(Boost(s[q]));
    BoostedOrder(s, s[q], s[p]);
    RerankHolds(s, q);
  }



  // ---------------------------------------------------------------------------
  // retrieve

  /** `seq[:k]` in Python, where a negative `k` drops that many elements from the end. */
  function PyPrefix<T>(s: seq<T>, k: int): (r: seq<T>)
    ensures r <= s
    ensures k >= 0 ==> |r| == Min(k, |s|)
    ensures k < 0 ==> |r| == Max(0, |s| + k)
  {
    if k >= 0 then s[..Min(k, |s|)] else s[..Max(0, |s| + k)]
  }

  /** The k used: the argument when one is given, else the retriever's default. */
  function EffectiveK(ret: Retriever, topK: Option<int>): int {
    if topK.Some? then topK.value else ret.topK
  }

  /** How many results are requested from the store: twice k when boosting. */
  function FetchSize(k: int, priorityBoost: bool): (n: int)
    ensures priorityBoost ==> n == 2 * k
    ensures !priorityBoost ==> n == k
  {
    if priorityBoost then k * 2 else k
  }

  /** What `retrieve` returns for the store's answer `res`. */
  function RetrieveResult(res: QueryResult, k: int, priorityBoost: bool): seq<Hit> {
    var hits := Hits(res);
    PyPrefix(if priorityBoost && hits != [] then Rerank(hits) else hits, k)
  }

  /** `retrieve`: over-fetch, turn distances into similarities, rerank, keep the first k. */
  method RetrieveChunks(ret: Retriever, query: string, topK: Option<int>, filter: Option<Metadata>,
                        priorityBoost: bool)
    returns (hits: seq<Hit>)
    ensures var k := EffectiveK(ret, topK);
            hits == RetrieveResult(ret.store.query(query, FetchSize(k, priorityBoost), filter), k, priorityBoost)
  {
    var k := if topK.Some? then topK.value else ret.topK;
    var results := ret.store.query(query, if priorityBoost then k * 2 else k, filter);
    var retrieved := [];
    var i := 0;
    while i < |results.matches|
      invariant 0 <= i <= |results.matches|
      invariant |retrieved| == i
      invariant forall j :: 0 <= j < i ==> retrieved[j] == HitOf(results.matches[j], results.hasDistances, j)
    {
      var m := results.matches[i];
      var chunkData := Hit(m.chunk.id, m.chunk.document, m.chunk.metadata,
                           Some(if results.hasDistances then m.distance else 0.0),
                           if results.hasDistances then 1.0 - m.distance else 1.0,
                           i, None, None);
      retrieved := retrieved + [chunkData];
      i := i + 1;
    }
    assert retrieved == Hits(results);
    if priorityBoost && retrieved != [] {
      retrieved := ApplyPriorityBoost(retrieved);
    }
    hits := PyPrefix(retrieved, k);
  }

  /** The result never holds more than k chunks, and it is the first chunks of the
      (reranked) store answer. An empty answer gives an empty result. */
  lemma RetrieveBounded(res: QueryResult, k: int, priorityBoost: bool)
    ensures k >= 0 ==> |RetrieveResult(res, k, priorityBoost)| <= k
    ensures res.matches == [] ==> RetrieveResult(res, k, priorityBoost) == []
    ensures RetrieveResult(res, k, priorityBoost) <= (if priorityBoost && res.matches != [] then Rerank(Hits(res)) else Hits(res))
  {
  }

  /** Without boosting, hit i is the store's match i, with similarity 1 - distance and rank i. */
  lemma RetrieveUnboosted(res: QueryResult, k: int, i: nat)
    requires i < |RetrieveResult(res, k, false)|
    ensures var h := RetrieveResult(res, k, false)[i];
            i < |res.matches| && h.chunkId == res.matches[i].chunk.id && h.rank == i &&
            h.similarity == (if res.hasDistances then 1.0 - res.matches[i].distance else 1.0)
  {
  }

  /** With boosting, the result is ranked 0.. in order of non-increasing boosted similarity. */
  lemma RetrieveBoostedOrder(res: QueryResult, k: int)
    requires res.matches != []
    ensures var r := RetrieveResult(res, k, true);
            NonIncreasing(r, BoostedKey) && forall i :: 0 <= i < |r| ==> r[i].rank == i
  {
    RerankSpec(Hits(res), 0.0);
    var r := RetrieveResult(res, k, true);
    var full := Rerank(Hits(res));
    assert r <= full;
    forall i, j | 0 <= i < j < |r| ensures BoostedKey(r[i]) >= BoostedKey(r[j]) {
      assert r[i] == full[i] && r[j] == full[j];
    }
  }

  // ---------------------------------------------------------------------------
  // retrieve_by_page

  /** Whether a query string is given and non-empty (`if query and chunks:`). */
  predicate HasQuery(query: Option<string>) {
    query.Some? && query.value != []
  }

  function PageHit(c: StoredChunk, i: nat): Hit {
    Hit(c.id, c.document, c.metadata, None, 1.0, i, None, None)
  }

  function PageHits(records: seq<StoredChunk>): (hs: seq<Hit>)
    ensures |hs| == |records|
  {
    seq(|records|, i requires 0 <= i < |records| => PageHit(records[i], i))
  }

  function Rescored(store: Store, query: string, s: seq<Hit>): (r: seq<Hit>)
    ensures |r| == |s|
  {
    seq(|s|, i requires 0 <= i < |s| => s[i].(similarity := store.similarity(query, s[i].chunkText)))
  }

  /** What `retrieve_by_page` returns. */
  function PageResult(store: Store, records: seq<StoredChunk>, query: Option<string>): seq<Hit> {
    var hits := PageHits(records);
    if HasQuery(query) && hits != [] then
      Ranked(SortDesc(Rescored(store, query.value, hits), SimilarityKey))
    else hits
  }

  /** `retrieve_by_page`: the page's chunks in store order with similarity 1.0, re-scored
      against the query and re-sorted when a query is given. */
  method RetrieveByPage(ret: Retriever, filename: string, page: int, query: Option<string>)
    returns (chunks: seq<Hit>)
    ensures chunks == PageResult(ret.store, ret.store.getPage(filename, page), query)
  {
    var results := ret.store.getPage(filename, page);
    chunks := PageChunks(results);
    if HasQuery(query) && chunks != [] {
      chunks := RerankPage(ret.store, query.value, chunks);
    }
  }

  /** The first loop of `retrieve_by_page`: one hit per record, ranked by position. */
  method PageChunks(results: seq<StoredChunk>) returns (chunks: seq<Hit>)
    ensures chunks == PageHits(results)
  {
    chunks := [];
    var i := 0;
    while i < |results|
      invariant 0 <= i <= |results|
      invariant |chunks| == i
      invariant forall j :: 0 <= j < i ==> chunks[j] == PageHit(results[j], j)
    {
      chunks := chunks + [PageHit(results[i], i)];
      i := i + 1;
    }
  }

  /** The re-ranking of `retrieve_by_page`: every hit re-scored against the query, sorted
      by non-increasing similarity and re-ranked by position. */
  method RerankPage(store: Store, query: string, chunks: seq<Hit>) returns (ranked: seq<Hit>)
    ensures ranked == Ranked(SortDesc(Rescored(store, query, chunks), SimilarityKey))
  {
    var scored := RescorePage(store, query, chunks);
    var sorted := SortDesc(scored, SimilarityKey);
    ranked := RankHits(sorted);
  }

  /** The similarity loop of `retrieve_by_page`. */
  method RescorePage(store: Store, query: string, chunks: seq<Hit>) returns (scored: seq<Hit>)
    ensures scored == Rescored(store, query, chunks)
  {
    scored := [];
    var k := 0;
    while k < |chunks|
      invariant 0 <= k <= |chunks|
      invariant |scored| == k
      invariant forall j :: 0 <= j < k ==>
                  scored[j] == chunks[j].(similarity := store.similarity(query, chunks[j].chunkText))
    {
      var similarity := store.similarity(query, chunks[k].chunkText);
      scored := scored + [chunks[k].(similarity := similarity)];
      k := k + 1;
    }
  }

  /** The re-ranking loop of `retrieve_by_page`: each hit's rank becomes its position. */
  method RankHits(sorted: seq<Hit>) returns (ranked: seq<Hit>)
    ensures ranked == Ranked(sorted)
  {
    ranked := [];
    var k := 0;
    while k < |sorted|
      invariant 0 <= k <= |sorted|
      invariant |ranked| == k
      invariant forall j :: 0 <= j < k ==> ranked[j] == sorted[j].(rank := j)
    {
      ranked := ranked + [sorted[k].(rank := k)];
      k := k + 1;
    }
  }

  /** Page retrieval returns one hit per stored chunk of the page, ranked 0..n-1; with a query,
      in order of non-increasing similarity to it. */
  lemma PageResultSpec(store: Store, records: seq<StoredChunk>, query: Option<string>)
    ensures var r := PageResult(store, records, query);
            |r| == |records| &&
            (forall i :: 0 <= i < |r| ==> r[i].rank == i) &&
            (HasQuery(query) ==> NonIncreasing(r, SimilarityKey)) &&
            (!HasQuery(query) ==> forall i :: 0 <= i < |r| ==> r[i].chunkId == records[i].id && r[i].similarity == 1.0)
  {
    var hits := PageHits(records);
    if HasQuery(query) && hits != [] {
      var sorted := SortDesc(Rescored(store, query.value, hits), SimilarityKey);
      SortDescSorted(Rescored(store, query.value, hits), SimilarityKey);
      var r := Ranked(sorted);
      forall i, j | 0 <= i < j < |r| ensures SimilarityKey(r[i]) >= SimilarityKey(r[j]) {
        assert SimilarityKey(r[i]) == SimilarityKey(sorted[i]);
        assert SimilarityKey(r[j]) == SimilarityKey(sorted[j]);
      }
    }
  }

  // ---------------------------------------------------------------------------
  // get_context_window

  /** A chunk fetched by id, with its position in the store's answer. */
  datatype ContextChunk = ContextChunk(chunkId: string, chunkText: string, metadata: Metadata, rank: nat)

  /** The offsets in [lo, hi], ascending, whose chunk index is kept: the centre, and every
      other offset whose index is not negative. */
  function KeptOffsets(index: int, lo: int, hi: int): seq<int>
    decreases hi - lo
  {
    if hi < lo then []
    else KeptOffsets(index, lo, hi - 1) + (if hi == 0 || index + hi >= 0 then [hi] else [])
  }

  /** The id asked for at `offset`: the centre id verbatim, else `{base}_c{index + offset}`. */
  function CandidateId(chunkId: string, base: string, index: int, offset: int): string {
    if offset == 0 then chunkId else base + "_c" + IntToString(index + offset)
  }

  function CandidateIds(chunkId: string, base: string, index: int, offsets: seq<int>): (ids: seq<string>)
    ensures |ids| == |offsets|
  {
    seq(|offsets|, k requires 0 <= k < |offsets| => CandidateId(chunkId, base, index, offsets[k]))
  }

  /** The offsets kept are exactly those in [lo, hi] that are the centre or give a
      non-negative index, in strictly ascending order, and at most hi - lo + 1 of them. */
  lemma {:induction false} KeptOffsetsSpec(index: int, lo: int, hi: int)
    ensures var ks := KeptOffsets(index, lo, hi);
            (forall o :: o in ks <==> lo <= o <= hi && (o == 0 || index + o >= 0)) &&
            (forall i, j :: 0 <= i < j < |ks| ==> ks[i] < ks[j]) &&
            |ks| <= Max(0, hi - lo + 1)
    decreases hi - lo
  {
    if hi >= lo {
      KeptOffsetsSpec(index, lo, hi - 1);
      var front := KeptOffsets(index, lo, hi - 1);
      var ks := KeptOffsets(index, lo, hi);
      assert ks == front + (if hi == 0 || index + hi >= 0 then [hi] else []);
      forall i, j | 0 <= i < j < |ks| ensures ks[i] < ks[j] {
        if j >= |front| {
          assert ks[i] == front[i] && front[i] in front;
        }
      }
    }
  }

  /** The loop of `get_context_window` over `range(-window_size, window_size + 1)`. */
  method CollectCandidates(chunkId: string, base: string, index: int, windowSize: int)
    returns (ids: seq<string>)
    ensures ids == CandidateIds(chunkId, base, index, KeptOffsets(index, -windowSize, windowSize))
  {
    ids := [];
    if -windowSize > windowSize {
      return;
    }
    var offset := -windowSize;
    while offset <= windowSize
      invariant -windowSize <= offset <= windowSize + 1
      invariant ids == CandidateIds(chunkId, base, index, KeptOffsets(index, -windowSize, offset - 1))
      decreases windowSize - offset
    {
      ghost var before := KeptOffsets(index, -windowSize, offset - 1);
      if offset == 0 {
        ids := ids + [chunkId];
      } else {
        var newIndex := index + offset;
        if newIndex >= 0 {
          ids := ids + [base + "_c" + IntToString(newIndex)];
        }
      }
      assert KeptOffsets(index, -windowSize, offset) ==
             before + (if offset == 0 || index + offset >= 0 then [offset] else []);
      offset := offset + 1;
    }
  }

  /** The fetched chunks, in the store's order, ranked by position. */
  function ContextChunks(records: seq<StoredChunk>): (cs: seq<ContextChunk>)
    ensures |cs| == |records|
  {
    seq(|records|, i requires 0 <= i < |records| =>
      ContextChunk(records[i].id, records[i].document, records[i].metadata, i))
  }

  method FetchContext(store: Store, ids: seq<string>) returns (chunks: seq<ContextChunk>)
    ensures chunks == (match store.getIds(ids) case None => [] case Some(recs) => ContextChunks(recs))
  {
    match store.getIds(ids) {
      case None =>
        chunks := [];
      case Some(results) =>
        chunks := [];
        var i := 0;
        while i < |results|
          invariant 0 <= i <= |results|
          invariant chunks == ContextChunks(results[..i])
        {
          chunks := chunks + [ContextChunk(results[i].id, results[i].document, results[i].metadata, i)];
          i := i + 1;
        }
        assert results[..|results|] == results;
    }
  }

  /** `int(parts[1])` raises on a malformed index; the exception escapes `get_context_window`. */
  function InvalidIndex(s: string): string {
    "invalid literal for int() with base 10: '" + s + "'"
  }

  /** What `get_context_window` returns, as written: ids are split on every "_c". */
  function ContextWindowResult(store: Store, chunkId: string, windowSize: int): Result<seq<ContextChunk>> {
    var parts := SplitOn(chunkId, "_c");
    if |parts| != 2 then Ok([])
    else match ParseInt(parts[1])
      case None => Err(InvalidIndex(parts[1]))
      case Some(index) =>
        var ids := CandidateIds(chunkId, parts[0], index, KeptOffsets(index, -windowSize, windowSize));
        Ok(match store.getIds(ids) case None => [] case Some(recs) => ContextChunks(recs))
  }

  /** `get_context_window` as written. */
  method GetContextWindow(ret: Retriever, chunkId: string, windowSize: int)
    returns (r: Result<seq<ContextChunk>>)
    ensures r == ContextWindowResult(ret.store, chunkId, windowSize)
  {
    var parts := SplitOn(chunkId, "_c");
    if |parts| != 2 {
      return Ok([]);
    }
    var base := parts[0];
    match ParseInt(parts[1]) {
      case None =>
        r := Err(InvalidIndex(parts[1]));
      case Some(chunkIndex) =>
        var adjacentIds := CollectCandidates(chunkId, base, chunkIndex, windowSize);
        var chunks := FetchContext(ret.store, adjacentIds);
        r := Ok(chunks);
    }
  }

  /** As written, a chunk id is only understood when it contains "_c" exactly once; an
      index that `int()` rejects is an error, and a negative window asks for nothing. */
  lemma ContextWindowCases(store: Store, chunkId: string, windowSize: int)
    ensures |SplitOn(chunkId, "_c")| != 2 ==> ContextWindowResult(store, chunkId, windowSize) == Ok([])
    ensures ContextWindowResult(store, chunkId, windowSize).Err? <==>
            |SplitOn(chunkId, "_c")| == 2 && ParseInt(SplitOn(chunkId, "_c")[1]).None?
  {
  }

  /** The ids a well-formed request asks for: the centre id and the neighbours within the
      window with a non-negative index, ascending, at most 2w + 1 of them. */
  lemma CandidatesSpec(chunkId: string, base: string, index: int, w: int)
    ensures var ks := KeptOffsets(index, -w, w);
            var ids := CandidateIds(chunkId, base, index, ks);
            (w >= 0 <==> chunkId in ids) &&
            |ids| <= Max(0, 2 * w + 1) &&
            (forall k :: 0 <= k < |ks| ==> -w <= ks[k] <= w && (ks[k] == 0 || index + ks[k] >= 0)) &&
            (forall k :: 0 <= k < |ks| && ks[k] != 0 ==> ids[k] == base + "_c" + NatToString(index + ks[k])) &&
            (forall i, j :: 0 <= i < j < |ks| ==> ks[i] < ks[j])
  {
    KeptOffsetsSpec(index, -w, w);
    var ks := KeptOffsets(index, -w, w);
    var ids := CandidateIds(chunkId, base, index, ks);
    if w >= 0 {
      assert 0 in ks;
      var k :| 0 <= k < |ks| && ks[k] == 0;
      assert ids[k] == chunkId;
    }
    forall k | 0 <= k < |ks| ensures -w <= ks[k] <= w && (ks[k] == 0 || index + ks[k] >= 0) {
      assert ks[k] in ks;
    }
  }

  // The splitting defect: a file name containing "_c".

  /** As written, the context window of any chunk of a file whose name contains "_c"
      (such as "lab_calc.txt") is empty: its id splits into three or more parts. */
  lemma AsWrittenMissesUnderscoreCFile(store: Store, filename: string, page: int, index: nat, w: int, p: nat)
    requires OccursAt(filename, "_c", p)
    ensures ContextWindowResult(store, Ingest.ChunkId(filename, page, index), w) == Ok([])
  {
    var prefix := filename + "_p" + IntToString(page);
    var id := Ingest.ChunkId(filename, page, index);
    assert id == prefix + "_c" + NatToString(index);
    assert id[p..p + 2] == filename[p..p + 2];
    assert OccursAt(id, "_c", |prefix|);
    SplitOnTwoOccurrences(id, "_c", p, |prefix|);
  }

  /** For instance, the first chunk of "lab_calc.txt" has no context window. */
  lemma AsWrittenExample(store: Store)
    ensures ContextWindowResult(store, "lab_calc.txt_p1_c0", 1) == Ok([])
  {
    assert "lab_calc.txt"[3..5] == "_c";
    AsWrittenMissesUnderscoreCFile(store, "lab_calc.txt", 1, 0, 1, 3);
    assert Ingest.ChunkId("lab_calc.txt", 1, 0) == "lab_calc.txt_p1_c0";
  }

  /** The id's index, read from after the last "_c" (`rsplit("_c", 1)`). */
  function ParseChunkId(chunkId: string): Option<(string, int)> {
    match FindLast(chunkId, "_c")
    case None => None
    case Some(i) =>
      match ParseInt(chunkId[i + 2..])
      case None => None
      case Some(index) => Some((chunkId[..i], index))
  }

  /** The corrected window: split the id at its last "_c" only. An id without "_c" gives []
      and a malformed index raises, as before. */
  function ContextWindowCorrected(store: Store, chunkId: string, windowSize: int): Result<seq<ContextChunk>> {
    match FindLast(chunkId, "_c")
    case None => Ok([])
    case Some(i) =>
      match ParseInt(chunkId[i + 2..])
      case None => Err(InvalidIndex(chunkId[i + 2..]))
      case Some(index) =>
        var ids := CandidateIds(chunkId, chunkId[..i], index, KeptOffsets(index, -windowSize, windowSize));
        Ok(match store.getIds(ids) case None => [] case Some(recs) => ContextChunks(recs))
  }

  /** `get_context_window` with the id split at its last "_c". */
  method GetContextWindowCorrected(ret: Retriever, chunkId: string, windowSize: int)
    returns (r: Result<seq<ContextChunk>>)
    ensures r == ContextWindowCorrected(ret.store, chunkId, windowSize)
  {
    match FindLast(chunkId, "_c") {
      case None =>
        r := Ok([]);
      case Some(i) =>
        var base := chunkId[..i];
        match ParseInt(chunkId[i + 2..]) {
          case None =>
            r := Err(InvalidIndex(chunkId[i + 2..]));
          case Some(chunkIndex) =>
            var adjacentIds := CollectCandidates(chunkId, base, chunkIndex, windowSize);
            var chunks := FetchContext(ret.store, adjacentIds);
            r := Ok(chunks);
        }
    }
  }

  /** The last "_c" of a chunker id is the one before its index. */
  lemma LastUnderscoreCOfChunkId(filename: string, page: int, index: nat)
    ensures var prefix := filename + "_p" + IntToString(page);
            FindLast(Ingest.ChunkId(filename, page, index), "_c") == Some(|prefix|)
  {
    var prefix := filename + "_p" + IntToString(page);
    var digits := NatToString(index);
    var id := Ingest.ChunkId(filename, page, index);
    assert id == prefix + "_c" + digits;
    LastOccurrenceBeforeDigits(prefix, digits);
  }

  /** Corrected, every chunker id parses back to its page prefix and index, whatever
      the file name, so the window asks for exactly the ids of its neighbours on the page. */
  lemma CorrectedParsesChunkerIds(filename: string, page: int, index: nat)
    ensures ParseChunkId(Ingest.ChunkId(filename, page, index)) == Some((filename + "_p" + IntToString(page), index))
    ensures forall o :: o != 0 && index + o >= 0 ==>
      CandidateId(Ingest.ChunkId(filename, page, index), filename + "_p" + IntToString(page), index, o)
        == Ingest.ChunkId(filename, page, index + o)
  {
    var prefix := filename + "_p" + IntToString(page);
    var id := Ingest.ChunkId(filename, page, index);
    LastUnderscoreCOfChunkId(filename, page, index);
    assert id[|prefix| + 2..] == NatToString(index);
    assert id[..|prefix|] == prefix;
    ParseIntOfNatToString(index);
  }

  /** The corrected window for a chunker id, with store answer `recs`, is the answer to a
      request for the neighbours' chunker ids. */
  lemma CorrectedWindowOfChunkerId(store: Store, filename: string, page: int, index: nat, w: int)
    ensures var id := Ingest.ChunkId(filename, page, index);
            var ids := CandidateIds(id, filename + "_p" + IntToString(page), index, KeptOffsets(index, -w, w));
            ContextWindowCorrected(store, id, w) ==
              Ok(match store.getIds(ids) case None => [] case Some(recs) => ContextChunks(recs))
  {
    var prefix := filename + "_p" + IntToString(page);
    var id := Ingest.ChunkId(filename, page, index);
    LastUnderscoreCOfChunkId(filename, page, index);
    assert id[|prefix| + 2..] == NatToString(index);
    assert id[..|prefix|] == prefix;
    ParseIntOfNatToString(index);
  }

  // ---------------------------------------------------------------------------
  // format_retrieved_chunks

  /** `[doc:{filename} | p:{page} | chunk:{id}]`, with "unknown" and 0 for missing fields. */
  function Citation(h: Hit): string {
    "[doc:" + Show(Get(h.metadata, "filename", Str("unknown"))) +
    " | p:" + Show(Get(h.metadata, "page", Int(0))) +
    " | chunk:" + h.chunkId + "]"
  }

  function Entry(h: Hit): (e: string)
    ensures |e| >= 2
  {
    Citation(h) + "\n" + h.chunkText + "\n"
  }

  function TotalLength(entries: seq<string>): nat {
    if entries == [] then 0 else TotalLength(entries[..|entries| - 1]) + |entries[|entries| - 1]|
  }

  /** One more entry adds its length to the running total. */
  lemma PackStep(entries: seq<string>, i: nat)
    requires i < |entries|
    ensures entries[..i + 1] == entries[..i] + [entries[i]]
    ensures TotalLength(entries[..i + 1]) == TotalLength(entries[..i]) + |entries[i]|
  {
    assert entries[..i + 1][..i] == entries[..i];
  }

  function Entries(chunks: seq<Hit>): (es: seq<string>)
    ensures |es| == |chunks|
  {
    seq(|chunks|, i requires 0 <= i < |chunks| => Entry(chunks[i]))
  }

  /** How many entries are packed when the first `i` already fit: stop before the first
      entry that takes the total past `maxLength`. */
  function PackCount(entries: seq<string>, maxLength: int, i: nat): (m: nat)
    requires i <= |entries|
    ensures i <= m <= |entries|
    decreases |entries| - i
  {
    if i == |entries| || TotalLength(entries[..i + 1]) > maxLength then i
    else PackCount(entries, maxLength, i + 1)
  }

  /** The packed entries are a prefix of the input that fits the budget, and the first
      entry left out is the one that would have overflowed it. */
  lemma {:induction false} PackCountSpec(entries: seq<string>, maxLength: int, i: nat)
    requires i <= |entries|
    requires i > 0 ==> TotalLength(entries[..i]) <= maxLength
    ensures var m := PackCount(entries, maxLength, i);
            (m > 0 ==> TotalLength(entries[..m]) <= maxLength) &&
            (m < |entries| ==> TotalLength(entries[..m + 1]) > maxLength)
    decreases |entries| - i
  {
    if i < |entries| && TotalLength(entries[..i + 1]) <= maxLength {
      PackCountSpec(entries, maxLength, i + 1);
    }
  }

  /** What `format_retrieved_chunks` returns. */
  function FormatResult(chunks: seq<Hit>, maxLength: int): string {
    var entries := Entries(chunks);
    Join("\n---\n", entries[..PackCount(entries, maxLength, 0)])
  }

  /** `format_retrieved_chunks`: add entries while the running total stays within the
      budget, stop at the first that would exceed it, and join them with separators. */
  method FormatRetrievedChunks(chunks: seq<Hit>, maxLength: int) returns (s: string)
    ensures s == FormatResult(chunks, maxLength)
  {
    ghost var entries := Entries(chunks);
    ghost var packed := PackCount(entries, maxLength, 0);
    var formatted := [];
    var totalLength := 0;
    var i := 0;
    while i < |chunks|
      invariant 0 <= i <= |chunks|
      invariant formatted == entries[..i]
      invariant totalLength == TotalLength(formatted)
      invariant PackCount(entries, maxLength, i) == packed
    {
      var entry := Entry(chunks[i]);
      PackStep(entries, i);
      if totalLength + |entry| > maxLength {
        assert packed == i;
        break;
      }
      formatted := formatted + [entry];
      totalLength := totalLength + |entry|;
      i := i + 1;
    }
    assert packed == i;
    s := Join("\n---\n", formatted);
  }


  /** The formatted chunks are the longest prefix of the input whose entries fit within
      `maxLength` characters in total. */
  lemma FormatPacksPrefix(chunks: seq<Hit>, maxLength: int)
    ensures var entries := Entries(chunks);
            var m := PackCount(entries, maxLength, 0);
            FormatResult(chunks, maxLength) == Join("\n---\n", entries[..m]) &&
            (m > 0 ==> TotalLength(entries[..m]) <= maxLength) &&
            (m < |chunks| ==> TotalLength(entries[..m + 1]) > maxLength)
  {
    PackCountSpec(Entries(chunks), maxLength, 0);
  }
}
