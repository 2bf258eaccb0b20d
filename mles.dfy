/**
 * MLES, the layered index the simulator browses (MLES/MLES.cs): the dataset
 * items, the layers built over them from clustering tables, and the ranking
 * cache of full-dataset searches with its file format.
 */
module Mles {
  import opened Wrappers
  import opened Vectors
  import opened Items
  import opened Hierarchy
  import opened Ranking
  import opened Dropout
  import opened DotNetRandom
  import opened CacheFormat
  import opened KnnSearch

  /** Position of the first item of `layer` with the given id: Where(item => item.Id == id).First(). */
  method FirstWithId(layer: array<Item>, id: int) returns (r: Option<nat>)
    ensures r == FirstIndex(Ids(layer[..]), id)
  {
    var i := 0;
    while i < layer.Length
      invariant 0 <= i <= layer.Length
      invariant id !in Ids(layer[..])[..i]
    {
      if layer[i].id == id {
        assert Ids(layer[..])[i] == id;
        return Some(i);
      }
      assert Ids(layer[..])[..i + 1] == Ids(layer[..])[..i] + [layer[i].id];
      i := i + 1;
    }
    assert Ids(layer[..])[..i] == Ids(layer[..]);
    return None;
  }

  /** TestLayerChildrenCount: the summed member counts must equal the expected count. */
  method TestLayerChildrenCount(table: Table, expectedCount: int) returns (r: Outcome)
    ensures r == if MemberCount(table) == expectedCount then Pass else Fail(Argument)
  {
    var childrenCount := 0;
    for j := 0 to |table|
      invariant childrenCount == MemberCount(table[..j])
    {
      assert table[..j + 1][..j] == table[..j];
      childrenCount := childrenCount + |table[j].1|;
    }
    assert table[..|table|] == table;
    if childrenCount != expectedCount {
      return Fail(Argument);
    }
    return Pass;
  }

  /**
   * ComputeDistancesDatasetCPU (MLES.cs:248-256): the squared distance of every
   * candidate to the query, or IndexOutOfRange from the first candidate whose
   * descriptor is shorter than the query's.
   */
  method ComputeDistances(q: Vec, candidates: seq<Item>) returns (r: Result<seq<real>>)
    ensures r.Ok? <==> Comparable(q, candidates)
    ensures r.Err? ==> r.error == IndexOutOfRange
    ensures r.Ok? ==> |r.value| == |candidates| && forall i :: 0 <= i < |candidates| ==> r.value[i] == Key(q, candidates[i])
  {
    var distances := [];
    for i := 0 to |candidates|
      invariant Comparable(q, candidates[..i])
      invariant |distances| == i && forall k :: 0 <= k < i ==> distances[k] == Key(q, candidates[k])
    {
      if |q| > |candidates[i].descriptor| {
        return Err(IndexOutOfRange);
      }
      var d := GetDistanceSqr(q, candidates[i].descriptor);
      distances := distances + [d];
    }
    assert candidates[..|candidates|] == candidates;
    return Ok(distances);
  }

  /**
   * The filter loop of SearchKNN (MLES.cs:226-245): each ranked item is put to the
   * drop predicate, kept when not dropped and not already used, and the loop returns
   * as soon as nResults items are kept.
   */
  method FilterResults(ranked: seq<Item>, nResults: int, filter: DropFilter, random: Rng, excluded: seq<Item>)
    returns (results: seq<Item>)
    requires random.Valid()
    modifies random`drawn
    ensures (results, random.drawn) == Walk(ranked, nResults, filter, random.stream, old(random.drawn), excluded, [])
  {
    results := [];
    for i := 0 to |ranked|
      invariant Walk(ranked, nResults, filter, random.stream, old(random.drawn), excluded, [])
             == Walk(ranked[i..], nResults, filter, random.stream, random.drawn, excluded, results)
    {
      assert ranked[i..][1..] == ranked[i + 1..];
      var dropped := HasDroppedOut(filter, random, ranked[i].id);
      if !dropped && ranked[i] !in excluded {
        results := results + [ranked[i]];
      }
      if |results| == nResults {
        return;
      }
    }
  }

  /** Layers 0 .. k (when they build) stacked on the layers already built below them. */
  function Stack(upper: Result<seq<seq<Item>>>, lower: seq<seq<Item>>): Result<seq<seq<Item>>>
  {
    if upper.Err? then upper else Ok(upper.value + lower)
  }

  /** One pass of FillLayers moves a layer from the layers still to build to those built. */
  lemma StackStep(tables: seq<Table>, k: nat, below: seq<Item>, vectors: seq<Vec>, lower: seq<seq<Item>>)
    requires 0 < k <= |tables|
    requires k == |tables| ==> Ids(below) == Range(|below|)
    ensures var step := LayerStep(tables[k - 1], below, vectors, k == |tables|);
      (step.Err? ==> Stack(BuildFrom(tables, k, below, vectors), lower) == Err(step.error)) &&
      (step.Ok? ==> Stack(BuildFrom(tables, k, below, vectors), lower) ==
                    Stack(BuildFrom(tables, k - 1, step.value.0, vectors), [step.value.1] + lower))
  {
    hide LayerStep;
    var step := LayerStep(tables[k - 1], below, vectors, k == |tables|);
    if step.Ok? {
      var upper := BuildFrom(tables, k - 1, step.value.0, vectors);
      if upper.Ok? {
        assert upper.value + [step.value.1] + lower == upper.value + ([step.value.1] + lower);
      }
    }
  }

  class Mles {
    var dataset: array<Item>
    /** Layers[k] for k in 0 .. |tables|; the last one is the dataset array itself. */
    var layers: seq<array<Item>>
    /** Query id -> ids of the first cachedArrayLength dataset items ranked for it. */
    var cache: Cache
    var cachedArrayLength: int
    /** None when caching is disabled. */
    const cacheFilename: Option<string>
    /** Whether the n-th allocation of a cache entry runs out of memory. */
    const outOfMemory: nat -> bool
    /** How many cache entries were allocated so far. */
    var insertAttempts: nat
    /** The descriptors the dataset was filled from. */
    ghost var vectors: seq<Vec>
    /** The clustering tables the layers were built from. */
    ghost var tables: seq<Table>

    ghost function Contents(): seq<seq<Item>>
      reads this`layers, layers
    {
      var arrays := layers;
      seq(|arrays|, k requires 0 <= k < |arrays| reads arrays => arrays[k][..])
    }

    /** The layers are what FillLayers builds from `tables` over the dataset, whose array is shared with the last layer. */
    ghost predicate Valid()
      reads this`layers, this`tables, this`dataset, this`vectors, layers, dataset
    {
      |layers| == |tables| + 1 && layers[|tables|] == dataset &&
      (forall k :: 0 <= k < |tables| ==> layers[k] != dataset) &&
      |vectors| == dataset.Length &&
      BuildLayers(tables, vectors) == Ok(Contents())
    }

    /** Every cache entry holds cachedArrayLength dataset ids. */
    ghost predicate CacheValid()
      reads this`cache, this`cachedArrayLength, this`dataset
    {
      EntriesFit(cache, cachedArrayLength, dataset.Length)
    }

    /** The first part of new MLES(...): FillDataset, with caching set up and the cache empty. */
    constructor (vectors: seq<Vec>, cacheFilename: Option<string>, outOfMemory: nat -> bool)
      ensures fresh(dataset) && dataset[..] == DatasetItems(vectors) && this.vectors == vectors
      ensures layers == [] && cache == map[] && cachedArrayLength == 1000 && insertAttempts == 0
      ensures this.cacheFilename == cacheFilename && this.outOfMemory == outOfMemory
    {
      dataset := new Item[0];
      layers := [];
      cache := map[];
      cachedArrayLength := 1000;
      this.cacheFilename := cacheFilename;
      this.outOfMemory := outOfMemory;
      insertAttempts := 0;
      new;
      FillDataset(vectors);
    }

    /** FillDataset: item i has id and local id i, descriptor i, no children, no parent. */
    method FillDataset(vectors: seq<Vec>)
      modifies this`dataset, this`vectors
      ensures fresh(dataset) && dataset[..] == DatasetItems(vectors) && this.vectors == vectors
    {
      var items := new Item[|vectors|];
      for i := 0 to |vectors|
        invariant forall j :: 0 <= j < i ==> items[j] == DatasetItems(vectors)[j]
      {
        items[i] := NewItem(i, i, vectors[i], None);
      }
      dataset := items;
      this.vectors := vectors;
    }

    /** The members of one cluster as positions in the layer below (MLES.cs:105-121). */
    method ResolveClusterItems(below: array<Item>, members: seq<int>, bottom: bool) returns (r: Result<seq<nat>>)
      requires bottom ==> below == dataset && Ids(below[..]) == Range(below.Length)
      ensures r == ResolveMembers(Ids(below[..]), members, bottom)
    {
      hide FirstIndex;
      var children: seq<nat> := [];
      for i := 0 to |members|
        invariant ResolveMembers(Ids(below[..]), members[..i], bottom) == Ok(children)
      {
        assert members[..i + 1][..i] == members[..i];
        var id := members[i];
        if bottom {
          if !(0 <= id < dataset.Length) {
            assert id !in Ids(below[..]);
            return Err(IndexOutOfRange);
          }
          FirstIndexOfRange(below.Length, id);
          children := children + [id];
        } else {
          var found := FirstWithId(below, id);
          if found.None? {
            return Err(InvalidOperation);
          }
          children := children + [found.value];
        }
      }
      assert members[..|members|] == members;
      return Ok(children);
    }

    lemma LayerStepPrefixErr(table: Table, i: nat, below: seq<Item>, bottom: bool)
      requires i <= |table|
      requires bottom ==> Ids(below) == Range(|below|)
      requires LayerStep(table[..i], below, vectors, bottom).Err?
      ensures LayerStep(table, below, vectors, bottom) == LayerStep(table[..i], below, vectors, bottom)
      decreases |table| - i
    {
      if i < |table| {
        var init := table[..|table| - 1];
        assert init[..i] == table[..i];
        LayerStepPrefixErr(init, i, below, bottom);
      } else {
        assert table[..i] == table;
      }
    }

    /** SetParentItem on every member of cluster j, in order (MLES.cs:123-126). */
    method SetClusterParents(below: array<Item>, children: seq<nat>, j: nat)
      requires forall i :: 0 <= i < |children| ==> children[i] < below.Length
      modifies below
      ensures below[..] == SetParents(old(below[..]), children, j)
    {
      for i := 0 to |children|
        invariant forall k :: 0 <= k < below.Length ==>
          below[k] == if k in children[..i] then old(below[k]).(parent := Some(j)) else old(below[k])
      {
        assert children[..i + 1] == children[..i] + [children[i]];
        SetParentItem(below, children[i], j);
      }
      assert children[..|children|] == children;
    }

    /** The item for cluster j of the table (MLES.cs:101-122). */
    method NewClusterItem(cluster: Cluster, j: nat, below: array<Item>, bottom: bool) returns (r: Result<Item>)
      requires |vectors| == dataset.Length
      requires forall i :: 0 <= i < dataset.Length ==> dataset[i].descriptor == vectors[i]
      requires bottom ==> below == dataset && Ids(below[..]) == Range(below.Length)
      ensures r == MakeItem(cluster, j, Ids(below[..]), vectors, bottom)
    {
      var globalId := cluster.0;
      if !(0 <= globalId < dataset.Length) {
        return Err(IndexOutOfRange);
      }
      var descriptor := dataset[globalId].descriptor;
      var children := ResolveClusterItems(below, cluster.1, bottom);
      if children.Err? {
        return Err(children.error);
      }
      return Ok(NewItem(globalId, j, descriptor, Some(children.value)));
    }

    /** Cluster j: its item goes to layer[j] and becomes its members' parent (MLES.cs:100-126). */
    method AddCluster(table: Table, j: nat, below: array<Item>, layer: array<Item>, bottom: bool, ghost original: seq<Item>)
      returns (r: Outcome)
      requires j < |table| == layer.Length && layer != below
      requires |vectors| == dataset.Length
      requires forall i :: 0 <= i < dataset.Length ==> dataset[i].descriptor == vectors[i]
      requires bottom ==> below == dataset && Ids(original) == Range(|original|)
      requires Ids(below[..]) == Ids(original)
      requires LayerStep(table[..j], original, vectors, bottom) == Ok((layer[..j], below[..]))
      modifies below, layer
      ensures r.Pass? ==> LayerStep(table[..j + 1], original, vectors, bottom) == Ok((layer[..j + 1], below[..]))
      ensures r.Fail? ==> LayerStep(table, original, vectors, bottom) == Err(r.error)
      ensures forall i :: 0 <= i < below.Length ==> below[i] == old(below[i]).(parent := below[i].parent)
    {
      hide MakeItem, ResolveMembers, SetParents;
      assert table[..j + 1][..j] == table[..j];
      var item := NewClusterItem(table[j], j, below, bottom);
      if item.Err? {
        LayerStepPrefixErr(table, j + 1, original, bottom);
        return Fail(item.error);
      }
      ghost var items := layer[..j];
      layer[j] := item.value;
      SetClusterParents(below, item.value.children.value, j);
      assert layer[..j + 1] == items + [item.value];
      return Pass;
    }

    /** One pass of FillLayers' outer loop (MLES.cs:94-127): a new layer over `below`, whose parent links it sets. */
    method BuildLayer(table: Table, below: array<Item>, bottom: bool) returns (r: Result<array<Item>>)
      requires |vectors| == dataset.Length
      requires forall i :: 0 <= i < dataset.Length ==> dataset[i].descriptor == vectors[i]
      requires bottom ==> below == dataset && Ids(below[..]) == Range(below.Length)
      modifies below
      ensures forall i :: 0 <= i < below.Length ==> below[i] == old(below[i]).(parent := below[i].parent)
      ensures var step := LayerStep(table, old(below[..]), vectors, bottom);
        (r.Ok? <==> step.Ok?) && (r.Err? ==> r.error == step.error) &&
        (r.Ok? ==> fresh(r.value) && r.value[..] == step.value.0 && below[..] == step.value.1)
    {
      ghost var original := below[..];
      assert LayerStep(table[..0], original, vectors, bottom) == Ok(([], original));
      hide *;
      var layer := new Item[|table|];
      for j := 0 to |table|
        invariant forall i :: 0 <= i < below.Length ==> below[i] == original[i].(parent := below[i].parent)
        invariant forall i :: 0 <= i < dataset.Length ==> dataset[i].descriptor == vectors[i]
        invariant LayerStep(table[..j], original, vectors, bottom) == Ok((layer[..j], below[..]))
      {
        assert Ids(below[..]) == Ids(original);
        var added := AddCluster(table, j, below, layer, bottom, original);
        if added.Fail? {
          return Err(added.error);
        }
      }
      assert table[..|table|] == table;
      return Ok(layer);
    }

    /**
     * The loop of FillLayers (MLES.cs:87-128): the arrays of layers 0 .. |tables|,
     * built bottom-up, with the dataset array last and every other one new.
     */
    method BuildAllLayers(tables: seq<Table>) returns (r: Result<seq<array<Item>>>)
      requires |vectors| == dataset.Length && dataset[..] == DatasetItems(vectors)
      modifies dataset
      ensures var goal := BuildLayers(tables, vectors);
        (r.Ok? <==> goal.Ok?) && (r.Err? ==> goal == Err(r.error)) &&
        (r.Ok? ==> |r.value| == |goal.value| == |tables| + 1 && r.value[|tables|] == dataset &&
                   (forall k :: 0 <= k < |tables| ==> r.value[k] != dataset) &&
                   (forall k :: 0 <= k <= |tables| ==> r.value[k][..] == goal.value[k]))
    {
      var below := dataset;
      var built := [dataset];
      ghost var lower: seq<seq<Item>> := [];
      ghost var goal := BuildLayers(tables, vectors);
      assert Ids(below[..]) == Range(below.Length);
      var k: nat := |tables|;
      assert BuildFrom(tables, k, below[..], vectors) == goal;
      if goal.Ok? {
        assert goal.value + lower == goal.value;
      }
      assert Tower(tables, k, below, built, lower, goal);
      hide Tower;
      while k > 0
        invariant Tower(tables, k, below, built, lower, goal)
        invariant below == dataset || fresh(below)
      {
        var layer;
        layer, built, lower := RaiseLayer(tables, k, below, built, lower, goal);
        if layer.Err? {
          return Err(layer.error);
        }
        below := layer.value;
        k := k - 1;
      }
      TowerDone(tables, below, built, lower, goal);
      return Ok(built);
    }

    /** A climb with no tables left to go has built every layer: the arrays hold goal's contents, in order. */
    lemma TowerDone(tables: seq<Table>, below: array<Item>, built: seq<array<Item>>, lower: seq<seq<Item>>,
                    goal: Result<seq<seq<Item>>>)
      requires Tower(tables, 0, below, built, lower, goal)
      ensures goal.Ok? && |built| == |goal.value| == |tables| + 1 && built[|tables|] == dataset
      ensures forall k :: 0 <= k < |tables| ==> built[k] != dataset
      ensures forall k :: 0 <= k <= |tables| ==> built[k][..] == goal.value[k]
    {
      assert goal.value == [below[..]] + lower;
      forall k | 1 <= k <= |tables|
        ensures built[k][..] == goal.value[k]
      {
        assert built[k][..] == lower[k - 1];
      }
    }

    /**
     * The state of the loop of FillLayers with k tables still to go: below is the
     * array built last, built holds the arrays from below down to the dataset, the
     * arrays under below hold the contents lower, and finishing the climb from below
     * and stacking it on lower gives goal.
     */
    ghost predicate Tower(tables: seq<Table>, k: nat, below: array<Item>, built: seq<array<Item>>,
                          lower: seq<seq<Item>>, goal: Result<seq<seq<Item>>>)
      reads this, built, dataset
    {
      k <= |tables| && |vectors| == dataset.Length &&
      |built| == |tables| - k + 1 && |lower| == |built| - 1 &&
      built[0] == below && built[|built| - 1] == dataset &&
      (k == |tables| ==> below == dataset && Ids(below[..]) == Range(below.Length)) &&
      (forall i :: 0 <= i < |built| - 1 ==> built[i] != dataset) &&
      (forall i :: 1 <= i < |built| ==> built[i] != below) &&
      (forall i :: 1 <= i < |built| ==> built[i].Length == |lower[i - 1]|) &&
      (forall i, j :: 1 <= i < |built| && 0 <= j < built[i].Length ==> built[i][j] == lower[i - 1][j]) &&
      (forall i :: 0 <= i < dataset.Length ==> dataset[i].descriptor == vectors[i]) &&
      goal == Stack(BuildFrom(tables, k, below[..], vectors), lower)
    }

    /**
     * One pass of the loop of FillLayers with its bookkeeping: the new layer goes in
     * front of the arrays built so far, and the contents of those below it stay put.
     */
    method RaiseLayer(tables: seq<Table>, k: nat, below: array<Item>, built: seq<array<Item>>,
                      ghost lower: seq<seq<Item>>, ghost goal: Result<seq<seq<Item>>>)
      returns (layer: Result<array<Item>>, built': seq<array<Item>>, ghost lower': seq<seq<Item>>)
      requires 0 < k && Tower(tables, k, below, built, lower, goal)
      modifies below
      ensures layer.Err? ==> goal == Err(layer.error)
      ensures layer.Ok? ==> fresh(layer.value) && Tower(tables, k - 1, layer.value, built', lower', goal)
    {
      layer := Descend(tables, k, below, lower, goal);
      built' := built;
      lower' := lower;
      if layer.Ok? {
        lower' := [below[..]] + lower;
        built' := [layer.value] + built;
        assert forall i :: 1 <= i < |built'| ==> built'[i] == built[i - 1];
        assert forall i :: 1 <= i < |lower'| ==> lower'[i] == lower[i - 1];
      }
    }

    /** One pass of the loop of FillLayers: the layer above below, with below's parents set. */
    method Descend(tables: seq<Table>, k: nat, below: array<Item>, ghost lower: seq<seq<Item>>, ghost goal: Result<seq<seq<Item>>>)
      returns (layer: Result<array<Item>>)
      requires 0 < k <= |tables| && |vectors| == dataset.Length
      requires forall i :: 0 <= i < dataset.Length ==> dataset[i].descriptor == vectors[i]
      requires k == |tables| ==> below == dataset && Ids(below[..]) == Range(below.Length)
      requires goal == Stack(BuildFrom(tables, k, below[..], vectors), lower)
      modifies below
      ensures forall i :: 0 <= i < dataset.Length ==> dataset[i].descriptor == vectors[i]
      ensures layer.Err? ==> goal == Err(layer.error)
      ensures layer.Ok? ==> (fresh(layer.value) &&
        goal == Stack(BuildFrom(tables, k - 1, layer.value[..], vectors), [below[..]] + lower))
    {
      StackStep(tables, k, below[..], vectors, lower);
      layer := BuildLayer(tables[k - 1], below, k == |tables|);
    }

    /**
     * FillLayers: layers built bottom-up from the clustering tables over the dataset,
     * whose items get their parent links. It succeeds exactly when BuildLayers does,
     * and then leaves the object Valid; otherwise it raises BuildLayers' error.
     */
    method FillLayers(tables: seq<Table>) returns (r: Outcome)
      requires |vectors| == dataset.Length && dataset[..] == DatasetItems(vectors)
      modifies this`layers, this`tables, dataset
      ensures this.tables == tables
      ensures r.Pass? <==> BuildLayers(tables, vectors).Ok?
      ensures r.Fail? ==> BuildLayers(tables, vectors) == Err(r.error)
      ensures r.Pass? ==> Valid()
    {
      this.tables := tables;
      var built := BuildAllLayers(tables);
      if built.Err? {
        return Fail(built.error);
      }
      layers := built.value;
      assert Contents() == BuildLayers(tables, vectors).value;
      return Pass;
    }

    /** The cache settings a search depends on. */
    function Config(): CacheConfig
      reads this`cachedArrayLength
    {
      CacheConfig(cacheFilename.Some?, cachedArrayLength, outOfMemory)
    }

    /** The dataset items a cache entry lists (cache[query.Id]). */
    method CachedRanking(ids: seq<int>) returns (ranked: seq<Item>)
      requires forall i :: 0 <= i < |ids| ==> 0 <= ids[i] < dataset.Length
      ensures ranked == CachedItems(dataset[..], ids)
    {
      ranked := [];
      for i := 0 to |ids|
        invariant ranked == CachedItems(dataset[..], ids[..i])
      {
        ranked := ranked + [dataset[ids[i]]];
      }
      assert ids[..|ids|] == ids;
    }

    /** The cache update of a computed dataset ranking (MLES.cs:210-223). */
    method StoreInCache(key: int, ranked: seq<Item>) returns (r: Outcome)
      modifies this`cache, this`insertAttempts
      ensures var stored := StoreRanking(cachedArrayLength, outOfMemory(old(insertAttempts)), old(cache), key, ranked);
        (r.Pass? <==> stored.Ok?) && (stored.Err? ==> r == Fail(stored.error) && cache == old(cache)) &&
        (stored.Ok? ==> cache == stored.value)
      ensures insertAttempts == if cachedArrayLength >= 0 then old(insertAttempts) + 1 else old(insertAttempts)
    {
      if cachedArrayLength < 0 {
        return Fail(Overflow);
      }
      var exhausted := outOfMemory(insertAttempts);
      insertAttempts := insertAttempts + 1;
      if exhausted {
        cache := map[];
        return Pass;
      }
      if |ranked| < cachedArrayLength {
        return Fail(Argument);
      }
      if key !in cache {
        cache := cache[key := Ids(ranked[..cachedArrayLength])];
      }
      return Pass;
    }

    /** Layers[layerId] or the given set, and whether it is the dataset array (set.Equals(Dataset)). */
    method SelectCandidates(ghost contents: seq<seq<Item>>, source: Candidates) returns (r: Result<seq<Item>>, onDataset: bool)
      requires contents == Contents()
      requires forall k :: 0 <= k < |layers| ==> (layers[k] == dataset <==> k == |layers| - 1)
      ensures r == CandidateItems(contents, source) && onDataset == OnDataset(contents, source)
    {
      assert |contents| == |layers|;
      match source {
        case LayerAt(index) =>
          if !(0 <= index < |layers|) {
            return Err(IndexOutOfRange), false;
          }
          return Ok(layers[index][..]), layers[index] == dataset;
        case ItemSet(items) =>
          return Ok(items), false;
      }
    }

    /** The ranking a search walks: the cached entry on a hit, otherwise the candidates sorted by distance. */
    method RankCandidates(query: Item, candidates: seq<Item>, hit: bool) returns (r: Result<seq<Item>>)
      requires CacheValid() && (hit ==> query.id in cache)
      ensures r == Ranked(dataset[..], cache, hit, query, candidates)
    {
      if hit {
        var ranked := CachedRanking(cache[query.id]);
        return Ok(ranked);
      }
      var distances := ComputeDistances(query.descriptor, candidates);
      if distances.Err? {
        return Err(distances.error);
      }
      // Array.Sort(distances, sortedLayer): the items ordered by their distances
      return Ok(Rank(query.descriptor, candidates));
    }

    /** The body of SearchKNN over the layers' contents `contents`. */
    method SearchIn(ghost contents: seq<seq<Item>>, query: Item, source: Candidates, nResults: int, filter: DropFilter,
                    random: Rng, excluded: seq<Item>) returns (r: Result<seq<Item>>)
      requires contents == Contents() && |contents| > 0 && contents[|contents| - 1] == dataset[..]
      requires forall k :: 0 <= k < |layers| ==> (layers[k] == dataset <==> k == |layers| - 1)
      requires CacheValid() && random.Valid()
      modifies this`cache, this`insertAttempts, random`drawn
      ensures (r, SearchState(cache, insertAttempts, random.drawn))
           == Search(contents, Config(), SearchState(old(cache), old(insertAttempts), old(random.drawn)),
                     random.stream, query, source, nResults, filter, excluded)
    {
      hide Walk, StoreRanking, Ranked, CandidateItems, OnDataset;
      var candidates, onDataset := SelectCandidates(contents, source);
      if candidates.Err? {
        return Err(candidates.error);
      }
      var caching := onDataset && cacheFilename.Some?;
      var hit := caching && query.id in cache;
      var ranked := RankCandidates(query, candidates.value, hit);
      if ranked.Err? {
        return Err(ranked.error);
      }
      if caching && !hit {
        var stored := StoreInCache(query.id, ranked.value);
        if stored.Fail? {
          return Err(stored.error);
        }
      }
      var results := FilterResults(ranked.value, nResults, filter, random, excluded);
      return Ok(results);
    }

    /**
     * SearchKNN, all four overloads (MLES.cs:161-246): the overloads without already
     * used items pass none, those with a layer index take that layer. The result and
     * the new cache, allocation count and sample position are those of Search.
     */
    method SearchKNN(query: Item, source: Candidates, nResults: int, filter: DropFilter, random: Rng, excluded: seq<Item>)
      returns (r: Result<seq<Item>>)
      requires Valid() && CacheValid() && random.Valid()
      modifies this`cache, this`insertAttempts, random`drawn
      ensures (r, SearchState(cache, insertAttempts, random.drawn))
           == Search(Contents(), Config(), SearchState(old(cache), old(insertAttempts), old(random.drawn)),
                     random.stream, query, source, nResults, filter, excluded)
      ensures Valid() && CacheValid() && Contents() == old(Contents())
    {
      ghost var contents := Contents();
      DatasetShape();
      SearchKeepsCacheFit(contents, Config(), SearchState(cache, insertAttempts, random.drawn), random.stream,
                          query, source, nResults, filter, excluded);
      r := SearchIn(contents, query, source, nResults, filter, random, excluded);
      assert forall k :: 0 <= k < |layers| ==> layers[k][..] == old(layers[k][..]);
      assert Contents() == contents;
    }

    /** A Valid MLES has its dataset last, with items whose ids are their positions. */
    lemma DatasetShape()
      requires Valid()
      ensures |Contents()| == |tables| + 1 && Contents()[|tables|] == dataset[..]
      ensures Ids(dataset[..]) == Range(dataset.Length)
      ensures forall k :: 0 <= k < |layers| ==> (layers[k] == dataset <==> k == |layers| - 1)
    {
      BuildLayersSpec(tables, vectors);
      var built := BuildLayers(tables, vectors).value;
      assert Ids(dataset[..]) == Range(dataset.Length) by {
        forall i | 0 <= i < dataset.Length
          ensures Ids(dataset[..])[i] == i
        {
          assert dataset[i] == built[|tables|][i];
        }
      }
    }

    /** The layers of a Valid MLES are linked, with the top layer unlinked. */
    lemma ValidLinked()
      requires Valid()
      ensures Linked(Contents()) && TopUnlinked(Contents())
    {
      BuildLayersSpec(tables, vectors);
      BuiltLinked(tables, |tables|, DatasetItems(vectors), vectors, Contents());
    }

    /** The check of item j of layer k: follow expectedParentCount parent links, then expect none. */
    method CheckParents(ghost contents: seq<seq<Item>>, k: nat, j: nat, expectedParentCount: int) returns (r: Outcome)
      requires contents == Contents() && Linked(contents) && k < |contents| && j < |contents[k]|
      ensures r == ParentCheck(contents, k, j, expectedParentCount)
    {
      assert |layers| == |contents| && forall m :: 0 <= m < |layers| ==> layers[m][..] == contents[m];
      var level := k;
      var position: Option<nat> := Some(j);
      var steps := if expectedParentCount < 0 then 0 else expectedParentCount;
      for i := 0 to steps
        invariant position == Climb(contents, k, j, i)
        invariant position.Some? ==> level == k - i
      {
        if position.None? {
          ClimbStopsAtMissingLink(contents, k, j, i, steps);
          return Fail(NullReference);
        }
        position := layers[level][position.value].parent;
        if position.Some? {
          level := level - 1;
        }
      }
      if position.None? {
        return Fail(NullReference);
      }
      if layers[level][position.value].parent.Some? {
        return Fail(Argument);
      }
      return Pass;
    }

    /**
     * TestLayerParent(Layers[k], expectedParentCount) (MLES.cs:145-159): each item of
     * layer k in turn, the first failure thrown.
     */
    method TestLayerParent(k: nat, expectedParentCount: int) returns (r: Outcome)
      requires Valid() && k < |layers|
      ensures Linked(Contents()) && r == LayerCheck(Contents(), k, expectedParentCount, 0)
    {
      ghost var contents := Contents();
      ValidLinked();
      var layer := layers[k];
      assert layer.Length == |contents[k]|;
      for j := 0 to layer.Length
        invariant LayerCheck(contents, k, expectedParentCount, 0) == LayerCheck(contents, k, expectedParentCount, j)
      {
        var check := CheckParents(contents, k, j, expectedParentCount);
        if check.Fail? {
          return check;
        }
      }
      return Pass;
    }

    /**
     * SaveCache (MLES.cs:302-326): nothing when caching is disabled, otherwise the
     * file holds the entry count, the entry length and every entry in some key order.
     * Loading that file into an empty cache gives back this cache.
     */
    method SaveCache() returns (file: Option<seq<int>>, ghost order: seq<int>)
      ensures cacheFilename.None? <==> file.None?
      ensures file.Some? ==> Enumerates(order, cache) && file.value == Encode(order, cache, cachedArrayLength)
      ensures file.Some? && CacheValid() && cachedArrayLength >= 0 ==>
        Decode(file.value, dataset.Length, map[]) == Ok((cachedArrayLength, cache))
    {
      order := [];
      if cacheFilename.None? {
        return None, order;
      }
      var words := [|cache|, cachedArrayLength];
      var keys := cache.Keys;
      while keys != {}
        invariant forall i, j :: 0 <= i < j < |order| ==> order[i] != order[j]
        invariant forall i :: 0 <= i < |order| ==> order[i] in cache && order[i] !in keys
        invariant forall key :: key in cache ==> key in keys || key in order
        invariant keys <= cache.Keys
        invariant words == Encode(order, cache, cachedArrayLength)
        decreases |keys|
      {
        SomeKey(keys);
        var key :| key in keys;
        EncodeEntriesSnoc(order, key, cache);
        words := words + [key] + cache[key];
        order := order + [key];
        keys := keys - {key};
      }
      if CacheValid() && cachedArrayLength >= 0 {
        DecodeEncoded(order, cache, cachedArrayLength, dataset.Length);
      }
      return Some(words), order;
    }

    /** Dispose (MLES.cs:355-358): saves the cache. */
    method Dispose() returns (file: Option<seq<int>>, ghost order: seq<int>)
      ensures cacheFilename.None? <==> file.None?
      ensures file.Some? ==> Enumerates(order, cache) && file.value == Encode(order, cache, cachedArrayLength)
    {
      file, order := SaveCache();
    }

    /** The ids of one cache entry, read from `start` (MLES.cs:345-349). */
    method ReadEntry(words: seq<int>, start: nat, length: nat) returns (r: Result<seq<int>>)
      requires start <= |words|
      ensures r == ReadIds(words[start..], length, dataset.Length)
    {
      var ids := [];
      var position := start;
      for j := 0 to length
        invariant position == start + j <= |words|
        invariant ids == words[start..position]
        invariant forall i :: 0 <= i < |ids| ==> 0 <= ids[i] < dataset.Length
      {
        assert words[start..] == ids + words[position..];
        ReadIdsAfterFitting(ids, words[position..], length - j, dataset.Length);
        if position >= |words| {
          return Err(EndOfStream);
        }
        var id := words[position];
        if !(0 <= id < dataset.Length) {
          return Err(IndexOutOfRange);
        }
        ids := ids + [id];
        position := position + 1;
      }
      assert words[start..] == ids + words[position..];
      ReadIdsAfterFitting(ids, words[position..], 0, dataset.Length);
      assert ids + [] == ids;
      return Ok(ids);
    }

    /**
     * LoadCache (MLES.cs:328-353) from the cache file's words, None when there is no
     * such file: nothing happens when caching is disabled or the file is missing;
     * otherwise the entry length is replaced and the entries are added as Decode reads them.
     */
    method LoadCache(file: Option<seq<int>>) returns (r: Outcome)
      modifies this`cache, this`cachedArrayLength
      ensures cacheFilename.None? || file.None? ==>
        r == Pass && cache == old(cache) && cachedArrayLength == old(cachedArrayLength)
      ensures cacheFilename.Some? && file.Some? ==>
        var loaded := Decode(file.value, dataset.Length, old(cache));
        (r.Pass? <==> loaded.Ok?) && (loaded.Err? ==> r == Fail(loaded.error)) &&
        (loaded.Ok? ==> cachedArrayLength == loaded.value.0 && cache == loaded.value.1)
    {
      hide ReadIds;
      if cacheFilename.None? || file.None? {
        return Pass;
      }
      var words := file.value;
      if |words| < 2 {
        return Fail(EndOfStream);
      }
      var cacheSize := words[0];
      cachedArrayLength := words[1];
      var position := 2;
      var i := 0;
      while i < cacheSize
        invariant 2 <= position <= |words| && cachedArrayLength == words[1]
        invariant DecodeEntries(words[2..], cacheSize, cachedArrayLength, dataset.Length, old(cache))
               == DecodeEntries(words[position..], cacheSize - i, cachedArrayLength, dataset.Length, cache)
        decreases cacheSize - i
      {
        if position >= |words| {
          return Fail(EndOfStream);
        }
        var key := words[position];
        if cachedArrayLength < 0 {
          return Fail(Overflow);
        }
        var ids := ReadEntry(words, position + 1, cachedArrayLength);
        assert words[position..][1..] == words[position + 1..];
        if ids.Err? {
          return Fail(ids.error);
        }
        assert words[position..][1 + cachedArrayLength..] == words[position + 1 + cachedArrayLength..];
        if key !in cache {
          cache := cache[key := ids.value];
        }
        position := position + 1 + cachedArrayLength;
        i := i + 1;
      }
      assert DecodeEntries(words[position..], cacheSize - i, cachedArrayLength, dataset.Length, cache) == Ok(cache);
      return Pass;
    }
  }

  /**
   * new MLES(dataset, clusteringLayers, cacheFilename) (MLES.cs:31-52) in a Release
   * build: the dataset, the layers and the cache file, whose words are given (None
   * when the file does not exist). It fails with the first error FillLayers or
   * LoadCache raises, and otherwise yields a Valid MLES whose cache entries fit.
   */
  method NewMles(vectors: seq<Vec>, tables: seq<Table>, cacheFilename: Option<string>, outOfMemory: nat -> bool,
                 file: Option<seq<int>>) returns (r: Result<Mles>)
    ensures var built := BuildLayers(tables, vectors);
      var loaded := if cacheFilename.Some? && file.Some? then Decode(file.value, |vectors|, map[]) else Ok((1000, map[]));
      (r.Ok? <==> built.Ok? && loaded.Ok?) &&
      (built.Err? ==> r == Err(built.error)) &&
      (built.Ok? && loaded.Err? ==> r == Err(loaded.error)) &&
      (r.Ok? ==> fresh(r.value) && r.value.Valid() && r.value.CacheValid() &&
                 r.value.tables == tables && r.value.vectors == vectors &&
                 r.value.cacheFilename == cacheFilename && r.value.outOfMemory == outOfMemory &&
                 r.value.insertAttempts == 0 && (r.value.cachedArrayLength, r.value.cache) == loaded.value)
  {
    var mles := new Mles(vectors, cacheFilename, outOfMemory);
    var filled := mles.FillLayers(tables);
    if filled.Fail? {
      return Err(filled.error);
    }
    var loaded := mles.LoadCache(file);
    if loaded.Fail? {
      return Err(loaded.error);
    }
    if cacheFilename.Some? && file.Some? {
      DecodeFits(file.value, |vectors|);
    }
    return Ok(mles);
  }

  /** A cache loaded into an empty one has entries of the length read, each a dataset id. */
  lemma DecodeFits(words: seq<int>, n: nat)
    ensures var loaded := Decode(words, n, map[]); loaded.Ok? ==> EntriesFit(loaded.value.1, loaded.value.0, n)
  {
    if |words| >= 2 {
      DecodeEntriesFit(words[2..], words[0], words[1], n, map[]);
    }
  }
}
