/**
 * MLES.SearchKNN (MLES/MLES.cs:161-246) as a function of the layers and of the
 * state a search reads and writes: the ranking cache, the number of cache entries
 * allocated so far and the position in the session's random sample stream.
 */
module KnnSearch {
  import opened Wrappers
  import opened Vectors
  import opened Items
  import opened Ranking
  import opened Dropout
  import opened DotNetRandom
  import opened CacheFormat
  import opened Sampling
  import opened Hierarchy

  /** What a search ranks: a layer by index, or a given set of items (the display, a cluster's items). */
  datatype Candidates = LayerAt(index: int) | ItemSet(items: seq<Item>)

  /** The state a search updates: the cache, cache allocations so far, samples drawn so far. */
  datatype SearchState = SearchState(cache: Cache, attempts: nat, drawn: nat)

  /**
   * How an MLES caches: whether a cache file name was given, the entry length, and
   * whether the n-th entry allocation runs out of memory.
   */
  datatype CacheConfig = CacheConfig(enabled: bool, length: int, outOfMemory: nat -> bool)

  /** The items a search ranks; a layer index outside the layers raises IndexOutOfRange. */
  function CandidateItems(layers: seq<seq<Item>>, source: Candidates): (r: Result<seq<Item>>)
    ensures r.Err? <==> source.LayerAt? && !(0 <= source.index < |layers|)
    ensures r.Err? ==> r.error == IndexOutOfRange
    ensures r.Ok? && source.LayerAt? ==> r.value == layers[source.index]
    ensures r.Ok? && source.ItemSet? ==> r.value == source.items
  {
    match source
    case LayerAt(index) => if 0 <= index < |layers| then Ok(layers[index]) else Err(IndexOutOfRange)
    case ItemSet(items) => Ok(items)
  }

  /**
   * Whether the candidates are the dataset array itself (set.Equals(Dataset)): the
   * last layer. A given item set is always a new array, never the dataset.
   */
  predicate OnDataset(layers: seq<seq<Item>>, source: Candidates)
  {
    source.LayerAt? && 0 <= source.index == |layers| - 1
  }

  /** The dataset items a cache entry lists, in order. */
  function CachedItems(dataset: seq<Item>, ids: seq<int>): (r: seq<Item>)
    requires forall i :: 0 <= i < |ids| ==> 0 <= ids[i] < |dataset|
    ensures |r| == |ids| && forall i :: 0 <= i < |ids| ==> r[i] == dataset[ids[i]]
  {
    seq(|ids|, i requires 0 <= i < |ids| => dataset[ids[i]])
  }

  /**
   * The ranking a search walks: on a cache hit the cached entry, otherwise all
   * candidates by increasing squared distance to the query. A candidate whose
   * descriptor is shorter than the query's makes the distance loop read past it.
   */
  function Ranked(dataset: seq<Item>, cache: Cache, hit: bool, query: Item, candidates: seq<Item>): (r: Result<seq<Item>>)
    requires hit ==> query.id in cache && forall i :: 0 <= i < |cache[query.id]| ==> 0 <= cache[query.id][i] < |dataset|
    ensures !hit ==> (r.Ok? <==> Comparable(query.descriptor, candidates))
    ensures r.Err? ==> r.error == IndexOutOfRange
    ensures !hit && r.Ok? ==> multiset(r.value) == multiset(candidates) && Comparable(query.descriptor, r.value) &&
                               SortedBy(query.descriptor, r.value)
  {
    if hit then Ok(CachedItems(dataset, cache[query.id]))
    else if Comparable(query.descriptor, candidates) then
      RankSorted(query.descriptor, candidates);
      Ok(Rank(query.descriptor, candidates))
    else Err(IndexOutOfRange)
  }

  /**
   * Storing a fresh ranking under `key` (MLES.cs:210-223): a negative entry length
   * cannot be allocated, an allocation that runs out of memory empties the cache, a
   * ranking shorter than the entry cannot be copied, and otherwise the ids of the
   * first `length` ranked items are added unless `key` already has an entry (TryAdd).
   */
  function StoreRanking(length: int, outOfMemory: bool, cache: Cache, key: int, ranked: seq<Item>): (r: Result<Cache>)
    ensures r.Err? <==> length < 0 || (!outOfMemory && |ranked| < length)
    ensures r.Err? ==> r.error == (if length < 0 then Overflow else Argument)
    ensures r.Ok? && outOfMemory ==> r.value == map[]
    ensures r.Ok? && !outOfMemory ==>
      r.value.Keys == cache.Keys + {key} &&
      (forall other :: other in cache ==> r.value[other] == cache[other]) &&
      (key !in cache ==> |r.value[key]| == length && forall i :: 0 <= i < length ==> r.value[key][i] == ranked[i].id)
  {
    if length < 0 then Err(Overflow)
    else if outOfMemory then Ok(map[])
    else if |ranked| < length then Err(Argument)
    else if key in cache then Ok(cache)
    else Ok(cache[key := Ids(ranked[..length])])
  }

  /**
   * One SearchKNN call: the candidates, their ranking (cached or computed), the
   * cache update of a computed dataset ranking, then the walk that drops, skips
   * already used items and stops at nResults. Errors leave the cache and the sample
   * stream as they were; only a failed copy has already allocated an entry.
   */
  function Search(layers: seq<seq<Item>>, config: CacheConfig, s: SearchState, stream: nat -> int, query: Item,
                  source: Candidates, nResults: int, filter: DropFilter, excluded: seq<Item>): (r: (Result<seq<Item>>, SearchState))
    requires |layers| > 0 && IsSampleStream(stream)
    requires EntriesFit(s.cache, config.length, |layers[|layers| - 1]|)
    ensures r.0.Err? ==> r.1.cache == s.cache && r.1.drawn == s.drawn
    ensures s.drawn <= r.1.drawn
  {
    var candidates := CandidateItems(layers, source);
    if candidates.Err? then (Err(candidates.error), s)
    else
      var caching := OnDataset(layers, source) && config.enabled;
      var hit := caching && query.id in s.cache;
      var ranked := Ranked(layers[|layers| - 1], s.cache, hit, query, candidates.value);
      if ranked.Err? then (Err(ranked.error), s)
      else
        var storing := caching && !hit;
        var attempts := if storing && config.length >= 0 then s.attempts + 1 else s.attempts;
        var stored := if storing then StoreRanking(config.length, config.outOfMemory(s.attempts), s.cache, query.id, ranked.value)
                      else Ok(s.cache);
        if stored.Err? then (Err(stored.error), s.(attempts := attempts))
        else
          var walk := Walk(ranked.value, nResults, filter, stream, s.drawn, excluded, []);
          (Ok(walk.0), SearchState(stored.value, attempts, walk.1))
  }

  /** Whether a search is answered from the cache. */
  predicate Hits(layers: seq<seq<Item>>, config: CacheConfig, cache: Cache, query: Item, source: Candidates)
  {
    OnDataset(layers, source) && config.enabled && query.id in cache
  }

  /**
   * A computed search returns candidates only, none of them already used, at most
   * nResults of them when nResults is positive, nearest first, and without
   * duplicates when the candidates have none.
   */
  lemma SearchFindsNearest(layers: seq<seq<Item>>, config: CacheConfig, s: SearchState, stream: nat -> int, query: Item,
                           source: Candidates, nResults: int, filter: DropFilter, excluded: seq<Item>)
    requires |layers| > 0 && IsSampleStream(stream)
    requires EntriesFit(s.cache, config.length, |layers[|layers| - 1]|)
    requires !Hits(layers, config, s.cache, query, source)
    ensures var (r, _) := Search(layers, config, s, stream, query, source, nResults, filter, excluded);
      var candidates := CandidateItems(layers, source);
      r.Ok? ==>
        candidates.Ok? &&
        (forall k :: 0 <= k < |r.value| ==> r.value[k] in candidates.value && r.value[k] !in excluded) &&
        (nResults > 0 ==> |r.value| <= nResults) &&
        Comparable(query.descriptor, r.value) && SortedBy(query.descriptor, r.value) &&
        (NoDuplicates(candidates.value) ==> NoDuplicates(r.value))
  {
    var (r, _) := Search(layers, config, s, stream, query, source, nResults, filter, excluded);
    var candidates := CandidateItems(layers, source);
    ComputedSearch(layers, config, s, stream, query, source, nResults, filter, excluded);
    if r.Ok? {
      hide *;
      var ranked := Rank(query.descriptor, candidates.value);
      RankSorted(query.descriptor, candidates.value);
      assert [] + ranked == ranked;
      WalkExtends(ranked, nResults, filter, stream, s.drawn, excluded, []);
      WalkSorted(query.descriptor, ranked, nResults, filter, stream, s.drawn, excluded, []);
      forall k | 0 <= k < |r.value|
        ensures r.value[k] in candidates.value
      {
        assert r.value[k] in multiset(ranked);
      }
      if nResults > 0 {
        WalkBounded(ranked, nResults, filter, stream, s.drawn, excluded, []);
      }
      if NoDuplicates(candidates.value) {
        PermutationKeepsDistinct(candidates.value, ranked);
        WalkDistinct(ranked, nResults, filter, stream, s.drawn, excluded, []);
      }
    }
  }

  /** A computed search that succeeds walks the ranking of its candidates from the current sample position. */
  lemma ComputedSearch(layers: seq<seq<Item>>, config: CacheConfig, s: SearchState, stream: nat -> int, query: Item,
                       source: Candidates, nResults: int, filter: DropFilter, excluded: seq<Item>)
    requires |layers| > 0 && IsSampleStream(stream)
    requires EntriesFit(s.cache, config.length, |layers[|layers| - 1]|)
    requires !Hits(layers, config, s.cache, query, source)
    ensures var (r, _) := Search(layers, config, s, stream, query, source, nResults, filter, excluded);
      var candidates := CandidateItems(layers, source);
      r.Ok? ==>
        candidates.Ok? && Comparable(query.descriptor, candidates.value) &&
        r.value == Walk(Rank(query.descriptor, candidates.value), nResults, filter, stream, s.drawn, excluded, []).0
  {
  }

  /** A sequence with the same elements as one without duplicates has none either. */
  lemma PermutationKeepsDistinct<T>(s: seq<T>, t: seq<T>)
    requires multiset(s) == multiset(t) && NoDuplicates(s)
    ensures NoDuplicates(t)
  {
    forall i, j | 0 <= i < j < |t|
      ensures t[i] != t[j]
    {
      if t[i] == t[j] {
        var x := t[i];
        assert multiset(t[..i + 1])[x] >= 1;
        assert t == t[..j] + [t[j]] + t[j + 1..];
        assert t[..j] == t[..i] + [t[i]] + t[i + 1..j];
        assert multiset(t)[x] >= 2;
        DistinctCount(s, x);
        assert false;
      }
    }
  }

  /** In a sequence without duplicates every element occurs at most once. */
  lemma {:induction false} DistinctCount<T>(s: seq<T>, x: T)
    requires NoDuplicates(s)
    ensures multiset(s)[x] <= 1
    decreases |s|
  {
    if |s| > 0 {
      var tail := s[1..];
      assert s == [s[0]] + tail;
      assert NoDuplicates(tail) by {
        forall i, j | 0 <= i < j < |tail|
          ensures tail[i] != tail[j]
        {
          assert tail[i] == s[i + 1] && tail[j] == s[j + 1];
        }
      }
      DistinctCount(tail, x);
      if s[0] == x {
        forall k | 0 <= k < |tail|
          ensures tail[k] != x
        {
          assert tail[k] == s[k + 1];
        }
      }
    }
  }

  /**
   * Without dropout a computed search returns the first nResults candidates not
   * already used, nearest first, and draws no sample.
   */
  lemma SearchWithoutDropout(layers: seq<seq<Item>>, config: CacheConfig, s: SearchState, stream: nat -> int, query: Item,
                             source: Candidates, nResults: int, excluded: seq<Item>)
    requires |layers| > 0 && IsSampleStream(stream)
    requires EntriesFit(s.cache, config.length, |layers[|layers| - 1]|)
    requires !Hits(layers, config, s.cache, query, source) && nResults > 0
    ensures var (r, after) := Search(layers, config, s, stream, query, source, nResults, NoDropout, excluded);
      r.Ok? ==> r.value == Take(Without(Rank(query.descriptor, CandidateItems(layers, source).value), excluded), nResults) &&
                after.drawn == s.drawn
  {
    var (r, after) := Search(layers, config, s, stream, query, source, nResults, NoDropout, excluded);
    if r.Ok? {
      var ranked := Rank(query.descriptor, CandidateItems(layers, source).value);
      WalkStopsEarly(ranked, nResults, NoDropout, stream, s.drawn, excluded, []);
      WalkWithoutDropout(ranked, stream, s.drawn, excluded, []);
      assert [] + Without(ranked, excluded) == Without(ranked, excluded);
      WalkNoDropoutDrawsNothing(ranked, nResults, stream, s.drawn, excluded, []);
    }
  }

  /** A walk without dropout consumes no sample, whatever the limit. */
  lemma {:induction false} WalkNoDropoutDrawsNothing(ranked: seq<Item>, nResults: int, stream: nat -> int, pos: nat,
                                                      excluded: seq<Item>, acc: seq<Item>)
    requires IsSampleStream(stream)
    ensures Walk(ranked, nResults, NoDropout, stream, pos, excluded, acc).1 == pos
    decreases |ranked|
  {
    if |ranked| > 0 {
      var acc' := if ranked[0] !in excluded then acc + [ranked[0]] else acc;
      WalkNoDropoutDrawsNothing(ranked[1..], nResults, stream, pos, excluded, acc');
    }
  }

  /** A cache hit returns items of the cached entry only, none already used, at most nResults when positive. */
  lemma SearchHitUsesEntry(layers: seq<seq<Item>>, config: CacheConfig, s: SearchState, stream: nat -> int, query: Item,
                           source: Candidates, nResults: int, filter: DropFilter, excluded: seq<Item>)
    requires |layers| > 0 && IsSampleStream(stream)
    requires EntriesFit(s.cache, config.length, |layers[|layers| - 1]|)
    requires Hits(layers, config, s.cache, query, source)
    ensures var (r, after) := Search(layers, config, s, stream, query, source, nResults, filter, excluded);
      r.Ok? && after.cache == s.cache && after.attempts == s.attempts &&
      (forall k :: 0 <= k < |r.value| ==> r.value[k] in CachedItems(layers[|layers| - 1], s.cache[query.id]) &&
                                          r.value[k] !in excluded) &&
      (nResults > 0 ==> |r.value| <= nResults)
  {
    var ranked := CachedItems(layers[|layers| - 1], s.cache[query.id]);
    WalkExtends(ranked, nResults, filter, stream, s.drawn, excluded, []);
    if nResults > 0 {
      WalkBounded(ranked, nResults, filter, stream, s.drawn, excluded, []);
    }
  }

  /** When the dataset items' ids are their positions, a ranking of the dataset lists dataset ids only. */
  lemma RankedIdsInRange(q: Vec, dataset: seq<Item>)
    requires Comparable(q, dataset) && Ids(dataset) == Range(|dataset|)
    ensures |Rank(q, dataset)| == |dataset|
    ensures forall i :: 0 <= i < |dataset| ==> 0 <= Rank(q, dataset)[i].id < |dataset|
  {
    var ranked := Rank(q, dataset);
    assert |ranked| == |multiset(ranked)| == |multiset(dataset)| == |dataset|;
    forall i | 0 <= i < |dataset|
      ensures 0 <= ranked[i].id < |dataset|
    {
      assert ranked[i] in multiset(dataset);
      var k :| 0 <= k < |dataset| && dataset[k] == ranked[i];
      assert Ids(dataset)[k] == k;
    }
  }

  /** Storing a ranking whose first `length` items are dataset items keeps every entry fitting. */
  lemma StoreRankingFits(length: int, outOfMemory: bool, cache: Cache, key: int, ranked: seq<Item>, n: nat)
    requires EntriesFit(cache, length, n)
    requires forall i :: 0 <= i < |ranked| && i < length ==> 0 <= ranked[i].id < n
    ensures var r := StoreRanking(length, outOfMemory, cache, key, ranked); r.Ok? ==> EntriesFit(r.value, length, n)
  {
  }

  /**
   * When the dataset items' ids are their positions, a search keeps every cache
   * entry a list of `length` dataset ids, and a stored entry holds the ids of the
   * query's nearest dataset items in ranking order.
   */
  lemma SearchKeepsCacheFit(layers: seq<seq<Item>>, config: CacheConfig, s: SearchState, stream: nat -> int, query: Item,
                            source: Candidates, nResults: int, filter: DropFilter, excluded: seq<Item>)
    requires |layers| > 0 && IsSampleStream(stream)
    requires EntriesFit(s.cache, config.length, |layers[|layers| - 1]|)
    requires Ids(layers[|layers| - 1]) == Range(|layers[|layers| - 1]|)
    ensures var (r, after) := Search(layers, config, s, stream, query, source, nResults, filter, excluded);
      EntriesFit(after.cache, config.length, |layers[|layers| - 1]|) &&
      (r.Ok? && query.id in after.cache && query.id !in s.cache ==>
        Comparable(query.descriptor, layers[|layers| - 1]) &&
        0 <= config.length <= |Rank(query.descriptor, layers[|layers| - 1])| &&
        after.cache[query.id] == Ids(Rank(query.descriptor, layers[|layers| - 1])[..config.length]))
  {
    hide Walk, Rank;
    var dataset := layers[|layers| - 1];
    var (r, after) := Search(layers, config, s, stream, query, source, nResults, filter, excluded);
    var candidates := CandidateItems(layers, source);
    if candidates.Ok? {
      var caching := OnDataset(layers, source) && config.enabled;
      var hit := caching && query.id in s.cache;
      var ranked := Ranked(dataset, s.cache, hit, query, candidates.value);
      if ranked.Ok? && caching && !hit {
        var stored := StoreRanking(config.length, config.outOfMemory(s.attempts), s.cache, query.id, ranked.value);
        assert after.cache == if stored.Ok? then stored.value else s.cache;
        assert candidates.value == dataset && ranked.value == Rank(query.descriptor, dataset);
        RankedIdsInRange(query.descriptor, dataset);
        StoreRankingFits(config.length, config.outOfMemory(s.attempts), s.cache, query.id, ranked.value, |dataset|);
      } else {
        assert after.cache == s.cache;
      }
    } else {
      assert after.cache == s.cache;
    }
  }
}
