/**
 * BrowsingSession (BrowsingSession.cs): a simulated user who repeatedly picks the
 * displayed item nearest to the item they look for, zooms into its cluster or pans
 * within the current layer, and is shown a fresh display of DisplaySize items. The
 * functions below give each operation as a function of the session's state, the
 * MLES layers and cache configuration and the session's random sample stream; the
 * class BrowsingSession follows the source's mutable object and is proved equal to them.
 */
module Browsing {
  import opened Wrappers
  import opened Vectors
  import opened Items
  import opened Ranking
  import opened Dropout
  import opened DotNetRandom
  import opened CacheFormat
  import opened Sampling
  import opened Hierarchy
  import opened KnnSearch
  import Mles

  /** One step's snapshot: the display before the step, the item picked, the depths before the step. */
  datatype BrowsingLog = BrowsingLog(display: seq<Item>, selectedItem: Item, layerDepth: int, browsingDepth: int)

  /** The session's fixed parameters. */
  datatype Settings = Settings(displaySize: int, zoomingStep: int, coherence: int, dropFactor: real, searched: Item)

  /**
   * The session's changing state: Display, Log, DisplayedCounter, LayerDepth,
   * CurrentZoomingStep and BrowsingDepth, with the MLES cache and the session's
   * sample position that its searches update.
   */
  datatype Session = Session(display: seq<Item>, log: seq<BrowsingLog>, counter: map<int, int>, layerDepth: int,
                             zoomCounter: int, browsingDepth: int, search: SearchState)

  /** What a search needs of the layers and the cache: a dataset whose ids are positions, fitting cache entries. */
  ghost predicate SearchReady(layers: seq<seq<Item>>, config: CacheConfig, s: SearchState)
  {
    |layers| > 0 && EntriesFit(s.cache, config.length, |layers[|layers| - 1]|) &&
    Ids(layers[|layers| - 1]) == Range(|layers[|layers| - 1]|)
  }

  /** How many of the items carry `id`. */
  function Occurrences(items: seq<Item>, id: int): nat
  {
    if |items| == 0 then 0
    else Occurrences(items[..|items| - 1], id) + if items[|items| - 1].id == id then 1 else 0
  }

  /** One more exposure of `id`: a first exposure counts 1. */
  function Bump(counter: map<int, int>, id: int): map<int, int>
  {
    counter[id := if id in counter then counter[id] + 1 else 1]
  }

  /** IncrementDisplayedCount: every shown item bumps its id's counter, in display order. */
  function Counted(counter: map<int, int>, items: seq<Item>): map<int, int>
  {
    if |items| == 0 then counter else Bump(Counted(counter, items[..|items| - 1]), items[|items| - 1].id)
  }

  /**
   * Counting adds exactly one per occurrence: an id is counted afterwards iff it was
   * before or is shown, and its count grows by its number of occurrences.
   */
  lemma {:induction false} CountedAddsOccurrences(counter: map<int, int>, items: seq<Item>, id: int)
    ensures id in Counted(counter, items) <==> id in counter || Occurrences(items, id) > 0
    ensures id in Counted(counter, items) ==>
      Counted(counter, items)[id] == (if id in counter then counter[id] else 0) + Occurrences(items, id)
    decreases |items|
  {
    if |items| > 0 {
      CountedAddsOccurrences(counter, items[..|items| - 1], id);
    }
  }

  /** Whether some displayed item has the id looked for (DisplayContainsSearchedItem). */
  predicate ShowsId(display: seq<Item>, id: int)
  {
    exists i :: 0 <= i < |display| && display[i].id == id
  }

  /** HasItemDroppedOut as the search's drop predicate: the counter and DropFactor at the time of the search. */
  function ExposureFilter(counter: map<int, int>, dropFactor: real): DropFilter
  {
    ByExposure(counter, dropFactor)
  }

  /**
   * SelectRandomItem: the `coherence` displayed items nearest to the searched item,
   * without dropout; a single one is taken as it is, otherwise Next(count - 1) picks
   * one, which throws for an empty list.
   */
  function SelectQuery(layers: seq<seq<Item>>, config: CacheConfig, stream: nat -> int, s: SearchState,
                       searched: Item, display: seq<Item>, coherence: int): (Result<Item>, SearchState)
    requires SearchReady(layers, config, s) && IsSampleStream(stream)
  {
    var (nearest, s1) := Search(layers, config, s, stream, searched, ItemSet(display), coherence, NoDropout, []);
    if nearest.Err? then (Err(nearest.error), s1)
    else PickQuery(stream, s1, nearest.value)
  }

  /**
   * The pick among the nearest items: the only one, or one drawn with Next(n - 1),
   * which never picks the last; none at all throws.
   */
  function PickQuery(stream: nat -> int, s: SearchState, nearest: seq<Item>): (Result<Item>, SearchState)
    requires IsSampleStream(stream)
  {
    if |nearest| == 1 then (Ok(nearest[0]), s)
    else if |nearest| == 0 then (Err(ArgumentOutOfRange), s)
    else (Ok(nearest[Scale(stream(s.drawn), |nearest| - 1)]), s.(drawn := s.drawn + 1))
  }

  /**
   * LoopAddLayerItems: while the display is short, ask layer `layerId` for the
   * shortfall, excluding what is already shown, and append the answer; the watchdog
   * counts the searches made so far and the twelfth search throws, even when it
   * filled the display.
   */
  function TopUp(layers: seq<seq<Item>>, config: CacheConfig, stream: nat -> int, s: SearchState, query: Item,
                 layerId: int, nResults: int, filter: DropFilter, display: seq<Item>, watchdog: nat): (Result<seq<Item>>, SearchState)
    requires SearchReady(layers, config, s) && IsSampleStream(stream) && watchdog <= 11
    decreases 11 - watchdog
  {
    if |display| >= nResults then (Ok(display), s)
    else
      var (found, s1) := Search(layers, config, s, stream, query, LayerAt(layerId), nResults - |display|, filter, display);
      if found.Err? then (Err(found.error), s1)
      else if watchdog > 10 then (Err(NotImplemented), s1)
      else
        SearchKeepsReady(layers, config, s, stream, query, LayerAt(layerId), nResults - |display|, filter, display);
        TopUp(layers, config, stream, s1, query, layerId, nResults, filter, display + found.value, watchdog + 1)
  }

  /**
   * query.ClusterItems: the items of layer `layerId` at the query's child positions.
   * A dataset item has none (null); a position outside the layer stands for a child
   * that is not an item of that layer.
   */
  function ChildItems(layers: seq<seq<Item>>, layerId: int, query: Item): (r: Result<seq<Item>>)
    ensures r.Ok? ==> query.children.Some? && 0 <= layerId < |layers| && |r.value| == |query.children.value|
    ensures r.Ok? ==> forall i :: 0 <= i < |r.value| ==>
      query.children.value[i] < |layers[layerId]| && r.value[i] == layers[layerId][query.children.value[i]]
    ensures r.Err? ==> r.error == (if query.children.None? then NullReference else IndexOutOfRange)
  {
    if query.children.None? then Err(NullReference)
    else
      var children := query.children.value;
      if !(0 <= layerId < |layers|) || exists i :: 0 <= i < |children| && children[i] >= |layers[layerId]| then
        Err(IndexOutOfRange)
      else Ok(seq(|children|, i requires 0 <= i < |children| => layers[layerId][children[i]]))
  }

  /**
   * GenerateNewDisplayZoom / GenerateNewDisplayPan: a zoom starts from the query's
   * cluster items nearest to it, a pan from nothing; both are topped up from layer
   * `layerId`.
   */
  function NewDisplay(layers: seq<seq<Item>>, config: CacheConfig, stream: nat -> int, s: SearchState, filter: DropFilter,
                      query: Item, zoom: bool, layerId: int, nResults: int): (Result<seq<Item>>, SearchState)
    requires SearchReady(layers, config, s) && IsSampleStream(stream)
  {
    if zoom then
      var children := ChildItems(layers, layerId, query);
      if children.Err? then (Err(children.error), s)
      else ZoomDisplay(layers, config, stream, s, filter, query, children.value, layerId, nResults)
    else TopUp(layers, config, stream, s, query, layerId, nResults, filter, [], 0)
  }

  /** The zoom once the cluster items are known: the ones nearest the query, topped up from layer `layerId`. */
  function ZoomDisplay(layers: seq<seq<Item>>, config: CacheConfig, stream: nat -> int, s: SearchState, filter: DropFilter,
                       query: Item, children: seq<Item>, layerId: int, nResults: int): (Result<seq<Item>>, SearchState)
    requires SearchReady(layers, config, s) && IsSampleStream(stream)
  {
    var (seeded, s1) := Search(layers, config, s, stream, query, ItemSet(children), nResults, filter, []);
    if seeded.Err? then (Err(seeded.error), s1)
    else
      SearchKeepsReady(layers, config, s, stream, query, ItemSet(children), nResults, filter, []);
      TopUp(layers, config, stream, s1, query, layerId, nResults, filter, seeded.value, 0)
  }

  /** Whether a step zooms: a layer below exists and the zoom counter, before it counts this step, is a multiple of ZoomingStep. */
  predicate Zooms(layerCount: int, layerDepth: int, zoomCounter: int, zoomingStep: int)
    requires zoomingStep != 0
  {
    // C#'s truncating % and Dafny's Euclidean % agree on whether the remainder is zero.
    layerDepth < layerCount - 1 && zoomCounter % zoomingStep == 0
  }

  /**
   * SelectRandomItemAndGenerateNewDisplay: pick the query, then carry on with the
   * rest of the step. On an error the state is what the source leaves behind when it
   * throws.
   */
  function Step(layers: seq<seq<Item>>, config: CacheConfig, stream: nat -> int, p: Settings, st: Session): (r: (Result<real>, Session))
    requires SearchReady(layers, config, st.search) && IsSampleStream(stream)
    ensures r.0.Ok? ==> r.1.browsingDepth == st.browsingDepth + 1 && |r.1.log| == |st.log| + 1
  {
    var (selected, s1) := SelectQuery(layers, config, stream, st.search, p.searched, st.display, p.coherence);
    if selected.Err? then (Err(selected.error), st.(search := s1))
    else
      SelectKeepsReady(layers, config, stream, st.search, p.searched, st.display, p.coherence);
      Advance(layers, config, stream, p, st.(search := s1), selected.value)
  }

  /**
   * The step once `query` is picked: log the state before the step, decide zoom or
   * pan (the counter advances only when a layer below exists, and a zero ZoomingStep
   * then divides by zero), rebuild and count the display, advance BrowsingDepth, and
   * return the query's squared distance to the searched item.
   */
  function Advance(layers: seq<seq<Item>>, config: CacheConfig, stream: nat -> int, p: Settings, st: Session,
                   query: Item): (r: (Result<real>, Session))
    requires SearchReady(layers, config, st.search) && IsSampleStream(stream)
    ensures r.1.log == st.log + [BrowsingLog(st.display, query, st.layerDepth, st.browsingDepth)]
    ensures r.0.Ok? ==> r.1.browsingDepth == st.browsingDepth + 1
  {
    var log := st.log + [BrowsingLog(st.display, query, st.layerDepth, st.browsingDepth)];
    var canZoom := st.layerDepth < |layers| - 1;
    var zoomCounter := if canZoom then st.zoomCounter + 1 else st.zoomCounter;
    if canZoom && p.zoomingStep == 0 then (Err(DivideByZero), st.(log := log, zoomCounter := zoomCounter))
    else
      var zoom := canZoom && Zooms(|layers|, st.layerDepth, st.zoomCounter, p.zoomingStep);
      Redisplay(layers, config, stream, p, st.(log := log, zoomCounter := zoomCounter), query, zoom)
  }

  /**
   * The step once zoom or pan is decided: a zoom goes one layer down; the display is
   * cleared, rebuilt and counted, BrowsingDepth advances, and the distance is taken.
   */
  function Redisplay(layers: seq<seq<Item>>, config: CacheConfig, stream: nat -> int, p: Settings, st: Session,
                     query: Item, zoom: bool): (r: (Result<real>, Session))
    requires SearchReady(layers, config, st.search) && IsSampleStream(stream)
    ensures r.1.log == st.log && r.1.zoomCounter == st.zoomCounter
    ensures r.0.Ok? ==> r.1.browsingDepth == st.browsingDepth + 1
  {
    var layerDepth := if zoom then st.layerDepth + 1 else st.layerDepth;
    Shown(p, st, query, layerDepth, NewDisplay(layers, config, stream, st.search, ExposureFilter(st.counter, p.dropFactor),
                                               query, zoom, layerDepth, p.displaySize))
  }

  /**
   * The step once the new display is built or has failed: on failure the display
   * stays cleared; otherwise it is shown and counted, BrowsingDepth advances and the
   * distance is taken.
   */
  function Shown(p: Settings, st: Session, query: Item, layerDepth: int, next: (Result<seq<Item>>, SearchState)): (Result<real>, Session)
  {
    if next.0.Err? then (Err(next.0.error), st.(display := [], layerDepth := layerDepth, search := next.1))
    else
      var after := st.(display := next.0.value, counter := Counted(st.counter, next.0.value), layerDepth := layerDepth,
                       browsingDepth := st.browsingDepth + 1, search := next.1);
      if |p.searched.descriptor| < |query.descriptor| then (Err(IndexOutOfRange), after)
      else (Ok(DistanceSqr(query.descriptor, p.searched.descriptor)), after)
  }

  /** A search keeps the cache fitting the dataset. */
  lemma SearchKeepsReady(layers: seq<seq<Item>>, config: CacheConfig, s: SearchState, stream: nat -> int, query: Item,
                         source: Candidates, nResults: int, filter: DropFilter, excluded: seq<Item>)
    requires SearchReady(layers, config, s) && IsSampleStream(stream)
    ensures SearchReady(layers, config, Search(layers, config, s, stream, query, source, nResults, filter, excluded).1)
  {
    SearchKeepsCacheFit(layers, config, s, stream, query, source, nResults, filter, excluded);
  }

  /** Selecting the query keeps the cache fitting the dataset. */
  lemma SelectKeepsReady(layers: seq<seq<Item>>, config: CacheConfig, stream: nat -> int, s: SearchState,
                         searched: Item, display: seq<Item>, coherence: int)
    requires SearchReady(layers, config, s) && IsSampleStream(stream)
    ensures SearchReady(layers, config, SelectQuery(layers, config, stream, s, searched, display, coherence).1)
  {
    SearchKeepsReady(layers, config, s, stream, searched, ItemSet(display), coherence, NoDropout, []);
  }

  /**
   * What any search returns: candidates only, none of them excluded, at most nResults
   * of them when nResults is positive; a cache hit lists dataset items, which are the
   * candidates of a dataset search.
   */
  lemma SearchResult(layers: seq<seq<Item>>, config: CacheConfig, s: SearchState, stream: nat -> int, query: Item,
                     source: Candidates, nResults: int, filter: DropFilter, excluded: seq<Item>)
    requires SearchReady(layers, config, s) && IsSampleStream(stream)
    ensures var (r, after) := Search(layers, config, s, stream, query, source, nResults, filter, excluded);
      var candidates := CandidateItems(layers, source);
      SearchReady(layers, config, after) &&
      (r.Ok? ==> candidates.Ok?) &&
      (r.Ok? ==> forall k :: 0 <= k < |r.value| ==> r.value[k] in candidates.value && r.value[k] !in excluded) &&
      (r.Ok? && nResults > 0 ==> |r.value| <= nResults)
  {
    SearchKeepsReady(layers, config, s, stream, query, source, nResults, filter, excluded);
    if Hits(layers, config, s.cache, query, source) {
      SearchHitUsesEntry(layers, config, s, stream, query, source, nResults, filter, excluded);
      var dataset := layers[|layers| - 1];
      var entry := CachedItems(dataset, s.cache[query.id]);
      forall x | x in entry
        ensures x in dataset
      {
        var i :| 0 <= i < |entry| && entry[i] == x;
        assert dataset[s.cache[query.id][i]] == x;
      }
    } else {
      SearchFindsNearest(layers, config, s, stream, query, source, nResults, filter, excluded);
    }
  }

  /**
   * LoopAddLayerItems keeps what was shown and appends items of layer `layerId`; a
   * successful top-up ends exactly when the display holds nResults items, never
   * more, since each search asks only for the shortfall.
   */
  lemma {:induction false} TopUpFills(layers: seq<seq<Item>>, config: CacheConfig, stream: nat -> int, s: SearchState,
                                      query: Item, layerId: int, nResults: int, filter: DropFilter, display: seq<Item>,
                                      watchdog: nat)
    requires SearchReady(layers, config, s) && IsSampleStream(stream) && watchdog <= 11
    ensures var (r, after) := TopUp(layers, config, stream, s, query, layerId, nResults, filter, display, watchdog);
      SearchReady(layers, config, after) &&
      (r.Ok? ==> |r.value| == (if |display| >= nResults then |display| else nResults) &&
                 r.value[..|display|] == display &&
                 forall k :: |display| <= k < |r.value| ==> 0 <= layerId < |layers| && r.value[k] in layers[layerId])
    decreases 11 - watchdog
  {
    hide Search;
    if |display| < nResults {
      var (found, s1) := Search(layers, config, s, stream, query, LayerAt(layerId), nResults - |display|, filter, display);
      SearchResult(layers, config, s, stream, query, LayerAt(layerId), nResults - |display|, filter, display);
      if found.Ok? && watchdog <= 10 {
        var next := display + found.value;
        TopUpFills(layers, config, stream, s1, query, layerId, nResults, filter, next, watchdog + 1);
        var (r, _) := TopUp(layers, config, stream, s1, query, layerId, nResults, filter, next, watchdog + 1);
        if r.Ok? {
          AppendedFromLayer(layers[layerId], display, found.value, r.value);
        }
      }
    }
  }

  /**
   * A display that extends `display` + `found` with items of a layer extends
   * `display` with items of that layer, when `found` holds items of the layer.
   */
  lemma AppendedFromLayer(layer: seq<Item>, display: seq<Item>, found: seq<Item>, shown: seq<Item>)
    requires |display| + |found| <= |shown| && shown[..|display| + |found|] == display + found
    requires forall k :: 0 <= k < |found| ==> found[k] in layer
    requires forall k :: |display| + |found| <= k < |shown| ==> shown[k] in layer
    ensures shown[..|display|] == display
    ensures forall k :: |display| <= k < |shown| ==> shown[k] in layer
  {
    var next := display + found;
    assert shown[..|display|] == shown[..|next|][..|display|];
    forall k | |display| <= k < |shown|
      ensures shown[k] in layer
    {
      if k < |next| {
        assert shown[k] == shown[..|next|][k] == next[k] == found[k - |display|];
      }
    }
  }

  /** The watchdog: a twelfth search throws even when it filled the display. */
  lemma TwelfthSearchThrows(layers: seq<seq<Item>>, config: CacheConfig, stream: nat -> int, s: SearchState,
                            query: Item, layerId: int, nResults: int, filter: DropFilter, display: seq<Item>)
    requires SearchReady(layers, config, s) && IsSampleStream(stream) && |display| < nResults
    requires Search(layers, config, s, stream, query, LayerAt(layerId), nResults - |display|, filter, display).0.Ok?
    ensures TopUp(layers, config, stream, s, query, layerId, nResults, filter, display, 11).0 == Err(NotImplemented)
  {
  }

  /**
   * A new display (zoom or pan) holds exactly DisplaySize items when that is
   * positive, and every one of them is an item of layer `layerId`.
   */
  lemma NewDisplayFills(layers: seq<seq<Item>>, config: CacheConfig, stream: nat -> int, s: SearchState, filter: DropFilter,
                        query: Item, zoom: bool, layerId: int, nResults: int)
    requires SearchReady(layers, config, s) && IsSampleStream(stream)
    ensures var (r, after) := NewDisplay(layers, config, stream, s, filter, query, zoom, layerId, nResults);
      SearchReady(layers, config, after) &&
      (r.Ok? && nResults > 0 ==> |r.value| == nResults) &&
      (r.Ok? ==> forall k :: 0 <= k < |r.value| ==> 0 <= layerId < |layers| && r.value[k] in layers[layerId])
  {
    if zoom {
      var children := ChildItems(layers, layerId, query);
      if children.Ok? {
        var (seeded, s1) := Search(layers, config, s, stream, query, ItemSet(children.value), nResults, filter, []);
        SearchResult(layers, config, s, stream, query, ItemSet(children.value), nResults, filter, []);
        if seeded.Ok? {
          forall k | 0 <= k < |seeded.value|
            ensures seeded.value[k] in layers[layerId]
          {
            var i :| 0 <= i < |children.value| && children.value[i] == seeded.value[k];
          }
          TopUpFills(layers, config, stream, s1, query, layerId, nResults, filter, seeded.value, 0);
          var (r, _) := TopUp(layers, config, stream, s1, query, layerId, nResults, filter, seeded.value, 0);
          if r.Ok? {
            forall k | 0 <= k < |seeded.value|
              ensures r.value[k] == seeded.value[k]
            {
              assert r.value[..|seeded.value|][k] == r.value[k];
            }
          }
        }
      }
    } else {
      TopUpFills(layers, config, stream, s, query, layerId, nResults, filter, [], 0);
    }
  }

  /** Every cached ranking lists each dataset position at most once. */
  ghost predicate EntriesDistinct(cache: Cache)
  {
    forall key :: key in cache ==> NoDuplicates(cache[key])
  }

  /** The dataset's items carry their positions as ids, so no item is in it twice. */
  lemma DatasetDistinct(dataset: seq<Item>)
    requires Ids(dataset) == Range(|dataset|)
    ensures NoDuplicates(dataset)
    ensures forall x :: x in dataset ==> 0 <= x.id < |dataset| && dataset[x.id] == x
  {
    forall i, j | 0 <= i < j < |dataset|
      ensures dataset[i] != dataset[j]
    {
      assert Ids(dataset)[i] == i && Ids(dataset)[j] == j;
    }
    forall x | x in dataset
      ensures 0 <= x.id < |dataset| && dataset[x.id] == x
    {
      var i :| 0 <= i < |dataset| && dataset[i] == x;
      assert Ids(dataset)[i] == i;
    }
  }

  /**
   * Every layer FillLayers builds holds no item twice: each item carries its own
   * position as its local id, so the premise of the distinctness lemmas below on
   * the layer always holds for a built index.
   */
  lemma BuiltLayersDistinct(tables: seq<Table>, vectors: seq<Vec>)
    ensures var r := BuildLayers(tables, vectors);
      r.Ok? ==> forall l :: 0 <= l < |r.value| ==> NoDuplicates(r.value[l])
  {
    BuildLayersSpec(tables, vectors);
    var r := BuildLayers(tables, vectors);
    if r.Ok? {
      var layers: seq<seq<Item>> := r.value;
      forall l | 0 <= l < |layers|
        ensures NoDuplicates(layers[l])
      {
        forall i, j | 0 <= i < j < |layers[l]|
          ensures layers[l][i] != layers[l][j]
        {
          if l < |tables| {
            assert ClusterItem(tables[l], vectors, layers[l], Ids(layers[l + 1]), i);
            assert ClusterItem(tables[l], vectors, layers[l], Ids(layers[l + 1]), j);
          }
          assert layers[l][i].localId == i && layers[l][j].localId == j;
        }
      }
    }
  }

  /** Two lists without repeats, sharing no item, make a list without repeats. */
  lemma DistinctAppend(a: seq<Item>, b: seq<Item>)
    requires NoDuplicates(a) && NoDuplicates(b)
    requires forall k :: 0 <= k < |b| ==> b[k] !in a
    ensures NoDuplicates(a + b)
  {
    forall i, j | 0 <= i < j < |a + b|
      ensures (a + b)[i] != (a + b)[j]
    {
      if i < |a| <= j {
        assert (a + b)[j] == b[j - |a|];
      }
    }
  }

  /**
   * A search keeps every cached ranking free of repeats (a stored ranking is the
   * ids of distinct dataset items), and returns no item twice when its candidates
   * hold none twice: a computed ranking permutes the candidates, a cached one
   * lists distinct positions of the dataset.
   */
  lemma SearchDistinct(layers: seq<seq<Item>>, config: CacheConfig, s: SearchState, stream: nat -> int, query: Item,
                       source: Candidates, nResults: int, filter: DropFilter, excluded: seq<Item>)
    requires SearchReady(layers, config, s) && IsSampleStream(stream) && EntriesDistinct(s.cache)
    ensures var (r, after) := Search(layers, config, s, stream, query, source, nResults, filter, excluded);
      var candidates := CandidateItems(layers, source);
      EntriesDistinct(after.cache) &&
      (r.Ok? && candidates.Ok? && NoDuplicates(candidates.value) ==> NoDuplicates(r.value))
  {
    SearchKeepsEntriesDistinct(layers, config, s, stream, query, source, nResults, filter, excluded);
    var candidates := CandidateItems(layers, source);
    if candidates.Ok? {
      var hit := OnDataset(layers, source) && config.enabled && query.id in s.cache;
      var ranked := Ranked(layers[|layers| - 1], s.cache, hit, query, candidates.value);
      if ranked.Ok? {
        RankedDistinct(layers[|layers| - 1], s.cache, hit, query, candidates.value);
        if NoDuplicates(ranked.value) {
          assert [] + ranked.value == ranked.value;
          WalkDistinct(ranked.value, nResults, filter, stream, s.drawn, excluded, []);
        }
      }
    }
  }

  /**
   * A ranking repeats no item when it is a cached entry of distinct dataset
   * positions, or when it is computed from candidates without repeats.
   */
  lemma RankedDistinct(dataset: seq<Item>, cache: Cache, hit: bool, query: Item, candidates: seq<Item>)
    requires hit ==> query.id in cache && forall i :: 0 <= i < |cache[query.id]| ==> 0 <= cache[query.id][i] < |dataset|
    requires Ids(dataset) == Range(|dataset|) && EntriesDistinct(cache)
    ensures var ranked := Ranked(dataset, cache, hit, query, candidates);
      ranked.Ok? && (hit || NoDuplicates(candidates)) ==> NoDuplicates(ranked.value)
  {
    var ranked := Ranked(dataset, cache, hit, query, candidates);
    if ranked.Ok? {
      if hit {
        DatasetDistinct(dataset);
        var entry := cache[query.id];
        forall i, j | 0 <= i < j < |ranked.value|
          ensures ranked.value[i] != ranked.value[j]
        {
          assert Ids(dataset)[entry[i]] == entry[i] && Ids(dataset)[entry[j]] == entry[j];
        }
      } else if NoDuplicates(candidates) {
        PermutationKeepsDistinct(candidates, ranked.value);
      }
    }
  }

  /** The cache a search leaves has no ranking with a repeat, when the one it found had none. */
  lemma SearchKeepsEntriesDistinct(layers: seq<seq<Item>>, config: CacheConfig, s: SearchState, stream: nat -> int,
                                   query: Item, source: Candidates, nResults: int, filter: DropFilter, excluded: seq<Item>)
    requires SearchReady(layers, config, s) && IsSampleStream(stream) && EntriesDistinct(s.cache)
    ensures EntriesDistinct(Search(layers, config, s, stream, query, source, nResults, filter, excluded).1.cache)
  {
    hide Walk, Rank, Ranked, CandidateItems;
    var dataset := layers[|layers| - 1];
    var candidates := CandidateItems(layers, source);
    if candidates.Ok? {
      var caching := OnDataset(layers, source) && config.enabled;
      var hit := caching && query.id in s.cache;
      var ranked := Ranked(dataset, s.cache, hit, query, candidates.value);
      if ranked.Ok? && caching && !hit {
        var stored := StoreRanking(config.length, config.outOfMemory(s.attempts), s.cache, query.id, ranked.value);
        if stored.Ok? && !config.outOfMemory(s.attempts) {
          StoredDistinct(dataset, ranked.value, config.length);
          assert stored.value == s.cache[query.id := Ids(ranked.value[..config.length])];
        }
      }
    }
  }

  /** The ids of the first entries of a ranking of the whole dataset are all different. */
  lemma StoredDistinct(dataset: seq<Item>, ranked: seq<Item>, length: nat)
    requires Ids(dataset) == Range(|dataset|) && multiset(ranked) == multiset(dataset) && length <= |ranked|
    ensures NoDuplicates(Ids(ranked[..length]))
  {
    DatasetDistinct(dataset);
    PermutationKeepsDistinct(dataset, ranked);
    var stored := Ids(ranked[..length]);
    forall i, j | 0 <= i < j < length
      ensures stored[i] != stored[j]
    {
      assert ranked[i] in multiset(dataset) && ranked[j] in multiset(dataset);
    }
  }

  /**
   * LoopAddLayerItems never shows an item twice: each search excludes what is
   * already displayed, so a top-up of a display without repeats, from a layer
   * without repeats, has none; the cache keeps its rankings free of repeats.
   */
  lemma {:induction false} TopUpDistinct(layers: seq<seq<Item>>, config: CacheConfig, stream: nat -> int, s: SearchState,
                                         query: Item, layerId: int, nResults: int, filter: DropFilter, display: seq<Item>,
                                         watchdog: nat)
    requires SearchReady(layers, config, s) && IsSampleStream(stream) && watchdog <= 11 && EntriesDistinct(s.cache)
    requires 0 <= layerId < |layers| ==> NoDuplicates(layers[layerId])
    ensures var (r, after) := TopUp(layers, config, stream, s, query, layerId, nResults, filter, display, watchdog);
      EntriesDistinct(after.cache) && (r.Ok? && NoDuplicates(display) ==> NoDuplicates(r.value))
    decreases 11 - watchdog
  {
    hide Search;
    if |display| < nResults {
      var (found, s1) := Search(layers, config, s, stream, query, LayerAt(layerId), nResults - |display|, filter, display);
      SearchResult(layers, config, s, stream, query, LayerAt(layerId), nResults - |display|, filter, display);
      SearchDistinct(layers, config, s, stream, query, LayerAt(layerId), nResults - |display|, filter, display);
      if found.Ok? && watchdog <= 10 {
        var next := display + found.value;
        if NoDuplicates(display) {
          DistinctAppend(display, found.value);
        }
        TopUpDistinct(layers, config, stream, s1, query, layerId, nResults, filter, next, watchdog + 1);
      }
    }
  }

  /**
   * A new display (zoom or pan) never shows an item twice when layer `layerId`
   * holds no item twice and the query lists no child position twice.
   */
  lemma NewDisplayDistinct(layers: seq<seq<Item>>, config: CacheConfig, stream: nat -> int, s: SearchState, filter: DropFilter,
                           query: Item, zoom: bool, layerId: int, nResults: int)
    requires SearchReady(layers, config, s) && IsSampleStream(stream) && EntriesDistinct(s.cache)
    requires 0 <= layerId < |layers| ==> NoDuplicates(layers[layerId])
    requires query.children.Some? ==> NoDuplicates(query.children.value)
    ensures var (r, after) := NewDisplay(layers, config, stream, s, filter, query, zoom, layerId, nResults);
      EntriesDistinct(after.cache) && (r.Ok? ==> NoDuplicates(r.value))
  {
    if zoom {
      var children := ChildItems(layers, layerId, query);
      if children.Ok? {
        var cs := children.value;
        forall i, j | 0 <= i < j < |cs|
          ensures cs[i] != cs[j]
        {
          assert query.children.value[i] != query.children.value[j];
        }
        SearchDistinct(layers, config, s, stream, query, ItemSet(cs), nResults, filter, []);
        SearchKeepsReady(layers, config, s, stream, query, ItemSet(cs), nResults, filter, []);
        var (seeded, s1) := Search(layers, config, s, stream, query, ItemSet(cs), nResults, filter, []);
        if seeded.Ok? {
          TopUpDistinct(layers, config, stream, s1, query, layerId, nResults, filter, seeded.value, 0);
        }
      }
    } else {
      TopUpDistinct(layers, config, stream, s, query, layerId, nResults, filter, [], 0);
    }
  }

  /** Nothing is excluded from a ranking by an empty list. */
  lemma {:induction false} WithoutNothing(ranked: seq<Item>)
    ensures Without(ranked, []) == ranked
    decreases |ranked|
  {
    if |ranked| > 0 {
      WithoutNothing(ranked[1..]);
      assert [ranked[0]] + ranked[1..] == ranked;
    }
  }

  /** The search behind SelectRandomItem: the display ranked by distance, no sample drawn, the cache untouched. */
  lemma SearchDisplay(layers: seq<seq<Item>>, config: CacheConfig, stream: nat -> int, s: SearchState,
                      searched: Item, display: seq<Item>, coherence: int)
    requires SearchReady(layers, config, s) && IsSampleStream(stream) && coherence > 0
    ensures var (found, s1) := Search(layers, config, s, stream, searched, ItemSet(display), coherence, NoDropout, []);
      s1.cache == s.cache && s1.attempts == s.attempts && s1.drawn == s.drawn &&
      (found.Ok? ==> Comparable(searched.descriptor, display) &&
                     found.value == Take(Rank(searched.descriptor, display), coherence))
  {
    var (found, s1) := Search(layers, config, s, stream, searched, ItemSet(display), coherence, NoDropout, []);
    SearchWithoutDropout(layers, config, s, stream, searched, ItemSet(display), coherence, []);
    if found.Ok? {
      WithoutNothing(Rank(searched.descriptor, display));
    }
  }

  /** The pick proper: one of the nearest, never the last of two or more, and a sample only for such a pick. */
  lemma PickQueryPicks(stream: nat -> int, s: SearchState, nearest: seq<Item>)
    requires IsSampleStream(stream)
    ensures var (r, after) := PickQuery(stream, s, nearest);
      after.cache == s.cache && after.attempts == s.attempts &&
      (r.Err? <==> |nearest| == 0) &&
      (r.Ok? ==> exists i :: 0 <= i < |nearest| && r.value == nearest[i] && (|nearest| >= 2 ==> i < |nearest| - 1)) &&
      after.drawn == s.drawn + (if |nearest| >= 2 then 1 else 0)
  {
    if |nearest| >= 2 {
      var i := Scale(stream(s.drawn), |nearest| - 1);
      assert PickQuery(stream, s, nearest).0.value == nearest[i];
    } else if |nearest| == 1 {
      assert PickQuery(stream, s, nearest).0.value == nearest[0];
    }
  }

  /**
   * SelectRandomItem picks one of the `coherence` displayed items nearest to the
   * searched item, never the last of two or more, and an empty display throws. Only
   * a pick among two or more consumes a sample, and the cache is not touched.
   */
  lemma SelectQueryPicksNearest(layers: seq<seq<Item>>, config: CacheConfig, stream: nat -> int, s: SearchState,
                                searched: Item, display: seq<Item>, coherence: int)
    requires SearchReady(layers, config, s) && IsSampleStream(stream) && coherence > 0
    ensures var (r, after) := SelectQuery(layers, config, stream, s, searched, display, coherence);
      (|display| == 0 ==> r == Err(ArgumentOutOfRange)) &&
      after.cache == s.cache && after.attempts == s.attempts &&
      (r.Err? ==> after.drawn == s.drawn) &&
      (r.Ok? ==> Comparable(searched.descriptor, display)) &&
      (r.Ok? ==>
        var nearest := Take(Rank(searched.descriptor, display), coherence);
        (exists i :: 0 <= i < |nearest| && r.value == nearest[i] && (|nearest| >= 2 ==> i < |nearest| - 1)) &&
        after.drawn == s.drawn + (if |nearest| >= 2 then 1 else 0))
  {
    var (found, s1) := Search(layers, config, s, stream, searched, ItemSet(display), coherence, NoDropout, []);
    SearchDisplay(layers, config, stream, s, searched, display, coherence);
    if found.Ok? {
      assert SelectQuery(layers, config, stream, s, searched, display, coherence) == PickQuery(stream, s1, found.value);
      PickQueryPicks(stream, s1, found.value);
      if |display| == 0 {
        assert Rank(searched.descriptor, display) == [];
      }
    } else {
      assert SelectQuery(layers, config, stream, s, searched, display, coherence) == (Err(found.error), s1);
    }
  }

  /**
   * A step logs exactly one entry, the state before it with the item picked, unless
   * the pick itself throws; a completed step advances BrowsingDepth by exactly one.
   */
  lemma StepLogs(layers: seq<seq<Item>>, config: CacheConfig, stream: nat -> int, p: Settings, st: Session)
    requires SearchReady(layers, config, st.search) && IsSampleStream(stream)
    ensures var (r, after) := Step(layers, config, stream, p, st);
      var selected := SelectQuery(layers, config, stream, st.search, p.searched, st.display, p.coherence).0;
      (selected.Err? ==> r == Err(selected.error) && after.log == st.log && after.display == st.display) &&
      (selected.Ok? ==> after.log == st.log + [BrowsingLog(st.display, selected.value, st.layerDepth, st.browsingDepth)]) &&
      (r.Ok? ==> after.browsingDepth == st.browsingDepth + 1)
  {
  }

  /**
   * The zoom rule: the zoom counter advances exactly when a layer below exists; with
   * a zero ZoomingStep that step divides by zero; otherwise the step zooms one layer
   * down iff the counter was a multiple of ZoomingStep, so LayerDepth never passes
   * the last layer.
   */
  lemma ZoomRule(layers: seq<seq<Item>>, config: CacheConfig, stream: nat -> int, p: Settings, st: Session, query: Item)
    requires SearchReady(layers, config, st.search) && IsSampleStream(stream)
    ensures var (r, after) := Advance(layers, config, stream, p, st, query);
      var canZoom := st.layerDepth < |layers| - 1;
      after.zoomCounter == (if canZoom then st.zoomCounter + 1 else st.zoomCounter) &&
      (canZoom && p.zoomingStep == 0 ==> r == Err(DivideByZero) && after.layerDepth == st.layerDepth) &&
      (p.zoomingStep != 0 ==>
        after.layerDepth == st.layerDepth + if Zooms(|layers|, st.layerDepth, st.zoomCounter, p.zoomingStep) then 1 else 0) &&
      (0 <= st.layerDepth < |layers| ==> 0 <= after.layerDepth < |layers|)
  {
  }

  /**
   * A completed step shows exactly DisplaySize items (when positive), all of the
   * layer it ends on, counts each of them once more, and keeps the cache fitting.
   */
  lemma AdvanceShows(layers: seq<seq<Item>>, config: CacheConfig, stream: nat -> int, p: Settings, st: Session, query: Item)
    requires SearchReady(layers, config, st.search) && IsSampleStream(stream)
    ensures var (r, after) := Advance(layers, config, stream, p, st, query);
      SearchReady(layers, config, after.search) &&
      (r.Ok? && p.displaySize > 0 ==> |after.display| == p.displaySize) &&
      (r.Ok? ==> after.counter == Counted(st.counter, after.display)) &&
      (r.Ok? ==> forall k :: 0 <= k < |after.display| ==>
                   0 <= after.layerDepth < |layers| && after.display[k] in layers[after.layerDepth])
  {
    var log := st.log + [BrowsingLog(st.display, query, st.layerDepth, st.browsingDepth)];
    var canZoom := st.layerDepth < |layers| - 1;
    var zoomCounter := if canZoom then st.zoomCounter + 1 else st.zoomCounter;
    if !(canZoom && p.zoomingStep == 0) {
      var zoom := canZoom && Zooms(|layers|, st.layerDepth, st.zoomCounter, p.zoomingStep);
      RedisplayShows(layers, config, stream, p, st.(log := log, zoomCounter := zoomCounter), query, zoom);
      assert Advance(layers, config, stream, p, st, query) ==
             Redisplay(layers, config, stream, p, st.(log := log, zoomCounter := zoomCounter), query, zoom);
    } else {
      assert Advance(layers, config, stream, p, st, query) == (Err(DivideByZero), st.(log := log, zoomCounter := zoomCounter));
    }
  }

  /** The same for the step once zoom or pan is decided. */
  lemma RedisplayShows(layers: seq<seq<Item>>, config: CacheConfig, stream: nat -> int, p: Settings, st: Session,
                       query: Item, zoom: bool)
    requires SearchReady(layers, config, st.search) && IsSampleStream(stream)
    ensures var (r, after) := Redisplay(layers, config, stream, p, st, query, zoom);
      SearchReady(layers, config, after.search) &&
      (r.Ok? && p.displaySize > 0 ==> |after.display| == p.displaySize) &&
      (r.Ok? ==> after.counter == Counted(st.counter, after.display)) &&
      (r.Ok? ==> forall k :: 0 <= k < |after.display| ==>
                   0 <= after.layerDepth < |layers| && after.display[k] in layers[after.layerDepth])
  {
    var layerDepth := if zoom then st.layerDepth + 1 else st.layerDepth;
    var filter := ExposureFilter(st.counter, p.dropFactor);
    var next := NewDisplay(layers, config, stream, st.search, filter, query, zoom, layerDepth, p.displaySize);
    NewDisplayFills(layers, config, stream, st.search, filter, query, zoom, layerDepth, p.displaySize);
    var spec := Redisplay(layers, config, stream, p, st, query, zoom);
    assert spec.1.search == next.1 && spec.1.layerDepth == layerDepth;
    if next.0.Ok? {
      assert spec.1.display == next.0.value;
    }
  }

  /** Advance in terms of the log entry, the zoom counter and the zoom decision. */
  lemma AdvanceParts(layers: seq<seq<Item>>, config: CacheConfig, stream: nat -> int, p: Settings, st: Session, query: Item)
    requires SearchReady(layers, config, st.search) && IsSampleStream(stream)
    ensures var canZoom := st.layerDepth < |layers| - 1;
      var logged := st.(log := st.log + [BrowsingLog(st.display, query, st.layerDepth, st.browsingDepth)],
                        zoomCounter := if canZoom then st.zoomCounter + 1 else st.zoomCounter);
      Advance(layers, config, stream, p, st, query) ==
        if canZoom && p.zoomingStep == 0 then (Err(DivideByZero), logged)
        else Redisplay(layers, config, stream, p, logged, query,
                       canZoom && Zooms(|layers|, st.layerDepth, st.zoomCounter, p.zoomingStep))
  {
  }

  /** Any step, completed or not, keeps the cache fitting the dataset. */
  lemma StepKeepsReady(layers: seq<seq<Item>>, config: CacheConfig, stream: nat -> int, p: Settings, st: Session)
    requires SearchReady(layers, config, st.search) && IsSampleStream(stream)
    ensures SearchReady(layers, config, Step(layers, config, stream, p, st).1.search)
  {
    var (selected, s1) := SelectQuery(layers, config, stream, st.search, p.searched, st.display, p.coherence);
    SelectKeepsReady(layers, config, stream, st.search, p.searched, st.display, p.coherence);
    if selected.Ok? {
      AdvanceShows(layers, config, stream, p, st.(search := s1), selected.value);
    }
  }

  /** The session object: its settings, its mutable state, the index it browses and its own random generator. */
  class BrowsingSession {
    const id: int
    const displaySize: int
    const zoomingStep: int
    const browsingCoherence: int
    const dropFactor: real
    const mles: Mles.Mles
    const searchedItem: Item
    const random: Rng
    var currentZoomingStep: int
    var layerDepth: int
    var browsingDepth: int
    var display: seq<Item>
    var log: seq<BrowsingLog>
    var displayedCounter: map<int, int>

    /** The search state the session's searches update: the index's cache and the session's sample position. */
    function Searched(): SearchState
      reads mles`cache, mles`insertAttempts, random`drawn
    {
      SearchState(mles.cache, mles.insertAttempts, random.drawn)
    }

    function State(): Session
      reads this, mles`cache, mles`insertAttempts, random`drawn
    {
      Session(display, log, displayedCounter, layerDepth, currentZoomingStep, browsingDepth, Searched())
    }

    function Params(): Settings
    {
      Settings(displaySize, zoomingStep, browsingCoherence, dropFactor, searchedItem)
    }

    ghost predicate Valid()
      reads mles, mles.layers, mles.dataset, random`drawn
    {
      mles.Valid() && mles.CacheValid() && random.Valid() && SearchReady(mles.Contents(), mles.Config(), Searched())
    }

    /** A valid index with fitting cache entries is ready for searching. */
    lemma ReadyOf()
      requires mles.Valid() && mles.CacheValid()
      ensures SearchReady(mles.Contents(), mles.Config(), Searched())
    {
      mles.DatasetShape();
    }

    /** new BrowsingSession(...): depths and zoom counter 0, empty display, log and counter, new Random(randomSeed). */
    constructor (id: int, displaySize: int, zoomingStep: int, browsingCoherence: int, dropFactor: real, randomSeed: int,
                 seeded: int -> (nat -> int), mles: Mles.Mles, searchedItem: Item)
      requires IsSampleStream(seeded(randomSeed))
      ensures this.id == id && this.mles == mles && this.searchedItem == searchedItem
      ensures Params() == Settings(displaySize, zoomingStep, browsingCoherence, dropFactor, searchedItem)
      ensures fresh(random) && random.stream == seeded(randomSeed)
      ensures State() == Session([], [], map[], 0, 0, 0, SearchState(mles.cache, mles.insertAttempts, 0))
      ensures mles.Valid() && mles.CacheValid() ==> Valid()
    {
      this.id := id;
      this.displaySize := displaySize;
      this.zoomingStep := zoomingStep;
      currentZoomingStep := 0;
      this.browsingCoherence := browsingCoherence;
      this.dropFactor := dropFactor;
      layerDepth := 0;
      random := new Rng(seeded(randomSeed));
      displayedCounter := map[];
      this.mles := mles;
      this.searchedItem := searchedItem;
      display := [];
      browsingDepth := 0;
      log := [];
      new;
      if mles.Valid() && mles.CacheValid() {
        ReadyOf();
      }
    }

    /** LoadZeroPageDisplay: the items are appended in order and counted as shown. */
    method LoadZeroPageDisplay(items: seq<Item>)
      modifies this`display, this`displayedCounter
      ensures display == old(display) + items
      ensures displayedCounter == Counted(old(displayedCounter), items)
    {
      display := display + items;
      IncrementDisplayedCount(items);
    }

    /** IncrementDisplayedCount: one more exposure per occurrence, a first one counting 1. */
    method IncrementDisplayedCount(items: seq<Item>)
      modifies this`displayedCounter
      ensures displayedCounter == Counted(old(displayedCounter), items)
    {
      for i := 0 to |items|
        invariant displayedCounter == Counted(old(displayedCounter), items[..i])
      {
        assert items[..i + 1][..i] == items[..i];
        var key := items[i].id;
        if key in displayedCounter {
          displayedCounter := displayedCounter[key := displayedCounter[key] + 1];
        } else {
          displayedCounter := displayedCounter[key := 1];
        }
      }
      assert items[..|items|] == items;
    }

    /** DisplayContainsSearchedItem: whether some displayed item has the searched item's id. */
    method DisplayContainsSearchedItem() returns (found: bool)
      ensures found <==> ShowsId(display, searchedItem.id)
    {
      for i := 0 to |display|
        invariant forall k :: 0 <= k < i ==> display[k].id != searchedItem.id
      {
        if display[i].id == searchedItem.id {
          return true;
        }
      }
      return false;
    }

    /**
     * HasItemDroppedOut: an id never shown is kept without drawing; otherwise one
     * sample decides, against 1 - 1/(hitCount * DropFactor).
     */
    method HasItemDroppedOut(id: int) returns (dropped: bool)
      requires random.Valid()
      modifies random`drawn
      ensures (dropped, random.drawn) == DropDecision(ExposureFilter(displayedCounter, dropFactor), random.stream, old(random.drawn), id)
    {
      if id !in displayedCounter {
        return false;
      }
      var hitCount := displayedCounter[id];
      var fraction := random.NextDouble();
      dropped := Drops(hitCount, dropFactor, fraction);
    }

    /** SelectRandomItem: the nearest displayed items, then one of them picked with Next(count - 1). */
    method SelectRandomItem() returns (r: Result<Item>)
      requires Valid()
      modifies mles`cache, mles`insertAttempts, random`drawn
      ensures Valid() && mles.Contents() == old(mles.Contents())
      ensures (r, Searched()) == SelectQuery(old(mles.Contents()), mles.Config(), random.stream, old(Searched()),
                                             searchedItem, display, browsingCoherence)
    {
      var nearest := mles.SearchKNN(searchedItem, ItemSet(display), browsingCoherence, NoDropout, random, []);
      ReadyOf();
      if nearest.Err? {
        return Err(nearest.error);
      }
      r := Pick(nearest.value);
    }

    /** The pick of SelectRandomItem among the nearest items. */
    method Pick(nearest: seq<Item>) returns (r: Result<Item>)
      requires Valid()
      modifies random`drawn
      ensures Valid() && mles.Contents() == old(mles.Contents())
      ensures (r, Searched()) == PickQuery(random.stream, old(Searched()), nearest)
    {
      ghost var before := Searched();
      if |nearest| == 1 {
        return Ok(nearest[0]);
      }
      var index := random.NextBelow(|nearest| - 1);
      if index.Err? {
        return Err(index.error);
      }
      r := Ok(nearest[index.value]);
      assert Searched() == before.(drawn := before.drawn + 1);
      ReadyOf();
    }

    /** query.ClusterItems: the query's children, looked up in layer `layerId`. */
    method ClusterItems(query: Item, layerId: int) returns (r: Result<seq<Item>>)
      ensures r == ChildItems(mles.Contents(), layerId, query)
    {
      if query.children.None? {
        return Err(NullReference);
      }
      var children := query.children.value;
      if !(0 <= layerId < |mles.layers|) {
        return Err(IndexOutOfRange);
      }
      var layer := mles.layers[layerId];
      var items := [];
      for i := 0 to |children|
        invariant |items| == i && forall k :: 0 <= k < i ==> children[k] < layer.Length && items[k] == layer[children[k]]
      {
        if children[i] >= layer.Length {
          return Err(IndexOutOfRange);
        }
        items := items + [layer[children[i]]];
      }
      ghost var layers := mles.Contents();
      assert layers[layerId] == layer[..];
      assert !exists k :: 0 <= k < |children| && children[k] >= |layers[layerId]|;
      assert items == seq(|children|, k requires 0 <= k < |children| => layers[layerId][children[k]]);
      return Ok(items);
    }

    /**
     * LoopAddLayerItems: search layer `layerId` for the shortfall, excluding what is
     * shown, until the display is full; the twelfth search throws.
     */
    method LoopAddLayerItems(query: Item, layerId: int, nResults: int, displayItems: seq<Item>) returns (r: Result<seq<Item>>)
      requires Valid()
      modifies mles`cache, mles`insertAttempts, random`drawn
      ensures Valid() && mles.Contents() == old(mles.Contents())
      ensures (r, Searched()) == TopUp(old(mles.Contents()), mles.Config(), random.stream, old(Searched()), query, layerId,
                                       nResults, ExposureFilter(displayedCounter, dropFactor), displayItems, 0)
    {
      hide Search;
      ghost var layers := mles.Contents();
      var filter := ExposureFilter(displayedCounter, dropFactor);
      var items := displayItems;
      var watchdog := 0;
      while |items| < nResults
        invariant Valid() && mles.Contents() == layers && watchdog <= 11
        invariant TopUp(layers, mles.Config(), random.stream, Searched(), query, layerId, nResults, filter, items, watchdog)
               == TopUp(layers, mles.Config(), random.stream, old(Searched()), query, layerId, nResults, filter, displayItems, 0)
        decreases 11 - watchdog
      {
        var found := mles.SearchKNN(query, LayerAt(layerId), nResults - |items|, filter, random, items);
        ReadyOf();
        if found.Err? {
          return Err(found.error);
        }
        items := items + found.value;
        if watchdog > 10 {
          return Err(NotImplemented);
        }
        watchdog := watchdog + 1;
      }
      return Ok(items);
    }

    /** GenerateNewDisplayZoom: clear, seed with the query's nearest cluster items, top up, count. */
    method GenerateNewDisplayZoom(query: Item, layerId: int, nResults: int) returns (o: Outcome)
      requires Valid()
      modifies this`display, this`displayedCounter, mles`cache, mles`insertAttempts, random`drawn
      ensures Valid() && mles.Contents() == old(mles.Contents())
      ensures var (shown, s) := NewDisplay(old(mles.Contents()), mles.Config(), random.stream, old(Searched()),
                                           ExposureFilter(old(displayedCounter), dropFactor), query, true, layerId, nResults);
        Searched() == s && (o.Pass? <==> shown.Ok?) &&
        (shown.Err? ==> o == Fail(shown.error) && display == [] && displayedCounter == old(displayedCounter)) &&
        (shown.Ok? ==> display == shown.value && displayedCounter == Counted(old(displayedCounter), shown.value))
    {
      display := [];
      var children := ClusterItems(query, layerId);
      if children.Err? {
        return Fail(children.error);
      }
      var items := FillZoom(query, layerId, nResults, children.value);
      if items.Err? {
        return Fail(items.error);
      }
      Present(items.value);
      return Pass;
    }

    /** The searches of a zoom: the cluster items nearest the query, then LoopAddLayerItems. */
    method FillZoom(query: Item, layerId: int, nResults: int, children: seq<Item>) returns (r: Result<seq<Item>>)
      requires Valid()
      modifies mles`cache, mles`insertAttempts, random`drawn
      ensures Valid() && mles.Contents() == old(mles.Contents())
      ensures (r, Searched()) == ZoomDisplay(old(mles.Contents()), mles.Config(), random.stream, old(Searched()),
                                             ExposureFilter(displayedCounter, dropFactor), query, children, layerId, nResults)
    {
      var seeded := mles.SearchKNN(query, ItemSet(children), nResults, ExposureFilter(displayedCounter, dropFactor), random, []);
      ReadyOf();
      if seeded.Err? {
        return Err(seeded.error);
      }
      r := LoopAddLayerItems(query, layerId, nResults, seeded.value);
    }

    /** GenerateNewDisplayPan: clear, fill from layer `layerId`, count. */
    method GenerateNewDisplayPan(query: Item, layerId: int, nResults: int) returns (o: Outcome)
      requires Valid()
      modifies this`display, this`displayedCounter, mles`cache, mles`insertAttempts, random`drawn
      ensures Valid() && mles.Contents() == old(mles.Contents())
      ensures var (shown, s) := NewDisplay(old(mles.Contents()), mles.Config(), random.stream, old(Searched()),
                                           ExposureFilter(old(displayedCounter), dropFactor), query, false, layerId, nResults);
        Searched() == s && (o.Pass? <==> shown.Ok?) &&
        (shown.Err? ==> o == Fail(shown.error) && display == [] && displayedCounter == old(displayedCounter)) &&
        (shown.Ok? ==> display == shown.value && displayedCounter == Counted(old(displayedCounter), shown.value))
    {
      display := [];
      var items := LoopAddLayerItems(query, layerId, nResults, []);
      if items.Err? {
        return Fail(items.error);
      }
      Present(items.value);
      return Pass;
    }

    /** The end of GenerateNewDisplayZoom and GenerateNewDisplayPan: count the new items and show them. */
    method Present(items: seq<Item>)
      requires Valid()
      modifies this`display, this`displayedCounter
      ensures Valid() && mles.Contents() == old(mles.Contents()) && Searched() == old(Searched())
      ensures display == items && displayedCounter == Counted(old(displayedCounter), items)
    {
      IncrementDisplayedCount(items);
      display := items;
    }

    /** SelectRandomItemAndGenerateNewDisplay: one browsing step, returning the query's squared distance to the target. */
    method SelectRandomItemAndGenerateNewDisplay() returns (r: Result<real>)
      requires Valid()
      modifies this, mles`cache, mles`insertAttempts, random`drawn
      ensures Valid() && mles.Contents() == old(mles.Contents())
      ensures (r, State()) == Step(old(mles.Contents()), mles.Config(), random.stream, Params(), old(State()))
    {
      var selected := SelectRandomItem();
      if selected.Err? {
        return Err(selected.error);
      }
      r := GenerateNewDisplay(selected.value);
    }

    /** The rest of the step once the query is picked: log, then decide zoom or pan. */
    method GenerateNewDisplay(query: Item) returns (r: Result<real>)
      requires Valid()
      modifies this, mles`cache, mles`insertAttempts, random`drawn
      ensures Valid() && mles.Contents() == old(mles.Contents())
      ensures (r, State()) == Advance(old(mles.Contents()), mles.Config(), random.stream, Params(), old(State()), query)
    {
      ghost var before := State();
      AdvanceParts(mles.Contents(), mles.Config(), random.stream, Params(), before, query);
      log := log + [BrowsingLog(display, query, layerDepth, browsingDepth)];
      var zoom := false;
      if layerDepth < |mles.layers| - 1 {
        var counter := currentZoomingStep;
        currentZoomingStep := currentZoomingStep + 1;
        if zoomingStep == 0 {
          return Err(DivideByZero);
        }
        zoom := counter % zoomingStep == 0;
      }
      assert zoom == (before.layerDepth < |mles.Contents()| - 1 &&
                      Zooms(|mles.Contents()|, before.layerDepth, before.zoomCounter, zoomingStep));
      r := ShowNewDisplay(query, zoom);
    }

    /** Zoom one layer down or pan, rebuild the display, advance BrowsingDepth, take the distance. */
    method ShowNewDisplay(query: Item, zoom: bool) returns (r: Result<real>)
      requires Valid()
      modifies this`layerDepth, this`display, this`displayedCounter, this`browsingDepth,
               mles`cache, mles`insertAttempts, random`drawn
      ensures Valid() && mles.Contents() == old(mles.Contents())
      ensures (r, State()) == Redisplay(old(mles.Contents()), mles.Config(), random.stream, Params(), old(State()), query, zoom)
    {
      ghost var layers := mles.Contents();
      ghost var config := mles.Config();
      ghost var before := State();
      assert SearchReady(layers, config, before.search);
      ghost var spec := Redisplay(layers, config, random.stream, Params(), before, query, zoom);
      var o, next := Rebuild(query, zoom);
      assert spec == Shown(Params(), before, query, layerDepth, next);
      r := Finish(query, o, before, next);
      assert mles.Config() == config;
    }

    /** After the rebuild: a failed one throws, otherwise the step concludes. */
    method Finish(query: Item, o: Outcome, ghost before: Session, ghost next: (Result<seq<Item>>, SearchState)) returns (r: Result<real>)
      requires Valid()
      requires o.Pass? <==> next.0.Ok?
      requires next.0.Err? ==> o == Fail(next.0.error) && State() == before.(display := [], layerDepth := layerDepth, search := next.1)
      requires next.0.Ok? ==> State() == before.(display := next.0.value, counter := Counted(before.counter, next.0.value),
                                                 layerDepth := layerDepth, search := next.1)
      modifies this`browsingDepth
      ensures Valid() && mles.Contents() == old(mles.Contents()) && mles.Config() == old(mles.Config())
      ensures (r, State()) == Shown(Params(), before, query, old(layerDepth), next)
    {
      if o.Fail? {
        r := Err(o.error);
      } else {
        r := Conclude(query);
      }
    }

    /** The end of a step: BrowsingDepth advances, then the query's squared distance to the searched item. */
    method Conclude(query: Item) returns (r: Result<real>)
      requires Valid()
      modifies this`browsingDepth
      ensures Valid() && mles.Contents() == old(mles.Contents())
      ensures State() == old(State()).(browsingDepth := old(browsingDepth) + 1)
      ensures r == if |searchedItem.descriptor| < |query.descriptor| then Err(IndexOutOfRange)
                   else Ok(DistanceSqr(query.descriptor, searchedItem.descriptor))
    {
      browsingDepth := browsingDepth + 1;
      if |searchedItem.descriptor| < |query.descriptor| {
        return Err(IndexOutOfRange);
      }
      var distance := GetDistanceSqr(query.descriptor, searchedItem.descriptor);
      return Ok(distance);
    }

    /** A zoom goes one layer down; either way the display is rebuilt from the current layer and counted. */
    method Rebuild(query: Item, zoom: bool) returns (o: Outcome, ghost next: (Result<seq<Item>>, SearchState))
      requires Valid()
      modifies this`layerDepth, this`display, this`displayedCounter, mles`cache, mles`insertAttempts, random`drawn
      ensures Valid() && mles.Contents() == old(mles.Contents()) && mles.Config() == old(mles.Config())
      ensures next == NewDisplay(old(mles.Contents()), old(mles.Config()), random.stream, old(Searched()),
                                 ExposureFilter(old(displayedCounter), dropFactor), query, zoom, layerDepth, displaySize)
      ensures layerDepth == if zoom then old(layerDepth) + 1 else old(layerDepth)
      ensures o.Pass? <==> next.0.Ok?
      ensures next.0.Err? ==> o == Fail(next.0.error) && State() == old(State()).(display := [], layerDepth := layerDepth, search := next.1)
      ensures next.0.Ok? ==> State() == old(State()).(display := next.0.value, counter := Counted(old(displayedCounter), next.0.value),
                                                      layerDepth := layerDepth, search := next.1)
    {
      ghost var layers := mles.Contents();
      ghost var config := mles.Config();
      ghost var s := Searched();
      assert SearchReady(layers, config, s);
      hide NewDisplay, Mles.Mles.Valid, Mles.Mles.CacheValid;
      var depth := if zoom then layerDepth + 1 else layerDepth;
      next := NewDisplay(layers, config, random.stream, s, ExposureFilter(displayedCounter, dropFactor), query, zoom, depth, displaySize);
      if zoom {
        layerDepth := depth;
        o := GenerateNewDisplayZoom(query, depth, displaySize);
      } else {
        o := GenerateNewDisplayPan(query, depth, displaySize);
      }
      assert mles.Config() == config;
    }
  }
}
