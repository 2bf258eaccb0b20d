/**
 * The divisive hierarchical clustering (DescriptorClustering/Hierarchical/Divisive/
 * ClusteringDivisive.cs): a flat k-means clustering of all descriptors gives the
 * top layer; every further layer clusters, one after the other, the descriptor
 * list of each centroid of the layer above with its share of the expected layer
 * size as seed count, and numbers the new centroids 0, 1, ... across the layer.
 * The class keeps the layers in `centroids`, which stays none until a run
 * completes.
 */
module Divisive {
  import opened Wrappers
  import opened Text
  import opened Vectors
  import opened DotNetRandom
  import opened Structures
  import opened Clustering
  import opened KMeans

  /**
   * CheckClusterizeArguments: both arrays must be present and non-empty; the seed
   * counts are checked first, so their error wins. A null array is an
   * ArgumentNullException, an empty one an ArgumentOutOfRangeException.
   */
  function CheckClusterizeArguments(layerSeedCounts: Option<seq<int>>, iterationCounts: Option<seq<int>>): (r: Outcome)
    ensures r.Pass? <==>
      layerSeedCounts.Some? && layerSeedCounts.value != [] && iterationCounts.Some? && iterationCounts.value != []
    ensures r.Fail? ==> (r.error == ArgumentNull <==> layerSeedCounts.None? || (layerSeedCounts.value != [] && iterationCounts.None?))
    ensures r.Fail? ==> r.error in {ArgumentNull, ArgumentOutOfRange}
  {
    if layerSeedCounts.None? then Fail(ArgumentNull)
    else if layerSeedCounts.value == [] then Fail(ArgumentOutOfRange)
    else if iterationCounts.None? then Fail(ArgumentNull)
    else if iterationCounts.value == [] then Fail(ArgumentOutOfRange)
    else Pass
  }

  /**
   * The seed count of one parent's clustering: its share len * expected / total
   * of the expected size of the layer, truncated and at least one. The share is
   * taken exactly; the C# divides len by the double total / expected, which can
   * fall one short on a share that is a whole number. A non-positive expected
   * size makes the share zero or negative, hence one.
   */
  function ChildSeedCount(len: nat, total: nat, expected: int): int
  {
    if expected <= 0 || total == 0 then 1
    else
      var share := len * expected / total;
      if share > 0 then share else 1
  }

  /**
   * The seed count is never below one, and while the expected layer size does
   * not exceed the number of descriptors it does not exceed the parent's list,
   * so the parent's clustering accepts it; the shares over a layer whose lists
   * hold n of the descriptors never add up to more than n * expected / total
   * plus the parents raised to one.
   */
  lemma ChildSeedCountFits(len: nat, total: nat, expected: int)
    ensures ChildSeedCount(len, total, expected) >= 1
    ensures 0 < len <= total && expected <= total ==> ChildSeedCount(len, total, expected) <= len
    ensures expected > 0 && total > 0 && len * expected >= total ==> ChildSeedCount(len, total, expected) * total <= len * expected
  {
    if expected > 0 && total > 0 {
      var product := len * expected;
      var share := product / total;
      assert ChildSeedCount(len, total, expected) == if share > 0 then share else 1;
      hide ChildSeedCount;
      QuotientBounds(product, total);
      if 0 < len <= total && expected <= total {
        ProductAtMost(len, expected, total);
        QuotientAtMost(product, len, total);
      }
    }
  }

  /** A product grows with its second factor. */
  lemma ProductAtMost(a: nat, b: int, c: int)
    requires b <= c
    ensures a * b <= a * c
  {
  }

  /** The quotient times the divisor does not pass the dividend, and is at least 1 once the dividend reaches the divisor. */
  lemma QuotientBounds(a: nat, t: int)
    requires t > 0
    ensures (a / t) * t <= a && (a >= t ==> a / t >= 1)
  {
    assert a == (a / t) * t + a % t;
  }

  /** A dividend at most c times the divisor has a quotient at most c. */
  lemma QuotientAtMost(a: nat, c: nat, t: int)
    requires t > 0 && a <= c * t
    ensures a / t <= c
  {
    QuotientBounds(a, t);
  }

  /** The exact product of the seed counts of layers 0 .. l. */
  function Product(seeds: seq<int>, l: nat): int
    requires l < |seeds|
  {
    if l == 0 then seeds[0] else Product(seeds, l - 1) * seeds[l]
  }

  /**
   * The expected number of clusters of layer l (ClusteringDivisive.cs:73, 80):
   * the first seed count, multiplied by the seed count of every further layer
   * down to l in unchecked Int32 arithmetic.
   */
  function Expected(seeds: seq<int>, l: nat): (e: int)
    requires l < |seeds|
    ensures l > 0 ==> IsInt32(e)
  {
    if l == 0 then seeds[0] else Wrap32(Expected(seeds, l - 1) * seeds[l])
  }

  /**
   * While no partial product leaves the Int32 range, the expected size of layer
   * l is the product of the seed counts of layers 0 .. l.
   */
  lemma {:induction false} ExpectedIsProduct(seeds: seq<int>, l: nat)
    requires l < |seeds|
    requires forall k :: 0 <= k <= l ==> IsInt32(Product(seeds, k))
    ensures Expected(seeds, l) == Product(seeds, l)
  {
    if l > 0 {
      ExpectedIsProduct(seeds, l - 1);
    }
  }

  /** The vectors of the seedCount seeds the flat clustering of ds samples from the stream. */
  ghost function FlatSeeds(ds: seq<Descriptor>, seedCount: nat, stream: nat -> int): (ss: seq<Vec>)
    requires IsSampleStream(stream) && Uniform(Vals(ds)) && 0 < seedCount <= |ds|
    reads set d | d in ds :: d.values
    ensures |ss| == seedCount && AllOfDimension(ss, |Vals(ds)[0]|)
  {
    var vs := Vals(ds);
    var seeds := Seeds(ds, seedCount, stream);
    var dim := |vs[0]|;
    assert AllOfDimension(Vals(seeds), dim) by {
      forall i | 0 <= i < |seeds| ensures seeds[i].values.Length == dim {
        assert seeds[i] in ds;
        var k :| 0 <= k < |ds| && ds[k] == seeds[i];
        assert vs[k] == seeds[i].values[..];
      }
    }
    Vals(seeds)
  }

  /**
   * The deltas the flat clustering of ds returns: seedCount seeds sampled from
   * the stream, then iterationCount rounds over the descriptors' vectors.
   */
  ghost function FlatDeltas(ds: seq<Descriptor>, seedCount: nat, iterationCount: nat, stream: nat -> int): (deltas: seq<real>)
    requires IsSampleStream(stream) && Uniform(Vals(ds)) && 0 < seedCount <= |ds|
    reads set d | d in ds :: d.values
    ensures |deltas| == iterationCount && forall i :: 0 <= i < iterationCount ==> deltas[i] >= 0.0
  {
    Deltas(FlatSeeds(ds, seedCount, stream), Vals(ds), |Vals(ds)[0]|, iterationCount)
  }

  /**
   * What the flat clustering of ds with at least one round leaves
   * (ClusteringSimpleBase.cs:31-65): the lists are the clusters of the last
   * round's survivors and every mean is the first of its own list's descriptors
   * closest to that round's mean (KMeans.Finished).
   */
  ghost predicate FlatFinished(ds: seq<Descriptor>, seedCount: nat, iterationCount: nat, stream: nat -> int,
                               lists: seq<seq<Descriptor>>, means: seq<Descriptor?>)
    requires IsSampleStream(stream) && Uniform(Vals(ds)) && 0 < seedCount <= |ds| && iterationCount > 0
    reads set d | d in ds :: d.values
  {
    var dim := |Vals(ds)[0]|;
    Finished(ds, Rounds(FlatSeeds(ds, seedCount, stream), Vals(ds), dim, iterationCount - 1), Vals(ds), dim, lists, means)
  }

  /** The flat clustering of a ClusteringSimple over consistent data samples FlatSeeds and returns FlatDeltas. */
  lemma FlatDeltasAre(flat: ClusteringSimple, seedCount: nat, iterationCount: nat, stream: nat -> int)
    requires IsSampleStream(stream) && Uniform(Vals(flat.descriptors)) && flat.Consistent() && 0 < seedCount <= |flat.descriptors|
    ensures |flat.SeedVals(seedCount, stream)| > 0 && |flat.Data()| > 0
    ensures flat.SeedVals(seedCount, stream) == FlatSeeds(flat.descriptors, seedCount, stream)
    ensures flat.Data() == Vals(flat.descriptors) && flat.Dim() == |Vals(flat.descriptors)[0]|
    ensures Deltas(flat.SeedVals(seedCount, stream), flat.Data(), flat.Dim(), iterationCount) ==
      FlatDeltas(flat.descriptors, seedCount, iterationCount, stream)
  {
    assert |Vals(flat.descriptors)[0]| == flat.Dim();
  }

  /** Every descriptor of a is one of b's. */
  ghost predicate Inside(a: seq<Descriptor>, b: seq<Descriptor>)
  {
    forall x :: x in a ==> x in b
  }

  /** The list of c lies inside the list of some centroid of upper. */
  ghost predicate HasParent(c: Centroid, upper: seq<Centroid>)
    reads c`descriptors, (set p | 0 <= p < |upper| :: upper[p])`descriptors
  {
    exists p :: 0 <= p < |upper| && Inside(c.descriptors, upper[p].descriptors)
  }

  /** Each centroid's list lies inside the list of some centroid of the layer above. */
  ghost predicate Refines(lower: seq<Centroid>, upper: seq<Centroid>)
    reads (set j | 0 <= j < |lower| :: lower[j])`descriptors, (set p | 0 <= p < |upper| :: upper[p])`descriptors
  {
    forall j :: 0 <= j < |lower| ==> HasParent(lower[j], upper)
  }

  /** Every centroid's list lies inside ds. */
  ghost predicate ListsInside(cs: seq<Centroid>, ds: seq<Descriptor>)
    reads (set j | 0 <= j < |cs| :: cs[j])`descriptors
  {
    forall j :: 0 <= j < |cs| ==> Inside(cs[j].descriptors, ds)
  }

  /** Every centroid has a non-empty list and a mean that is one of its own descriptors. */
  predicate MeansInLists(cs: seq<Centroid>)
    reads (set j | 0 <= j < |cs| :: cs[j])`descriptors, (set j | 0 <= j < |cs| :: cs[j])`mean
  {
    forall j :: 0 <= j < |cs| ==> cs[j].descriptors != [] && cs[j].mean != null && cs[j].mean in cs[j].descriptors
  }

  /** Every centroid's id is its position in the layer. */
  predicate NumberedInOrder(cs: seq<Centroid>)
    reads (set j | 0 <= j < |cs| :: cs[j])`id
  {
    forall j :: 0 <= j < |cs| ==> cs[j].id == j
  }

  /**
   * One layer of a divisive clustering over ds: at least one centroid, no
   * centroid twice, every list inside ds; built with at least one round, every
   * list non-empty and holding its mean.
   */
  ghost predicate LayerWell(layer: seq<Centroid>, built: bool, ds: seq<Descriptor>)
    reads set j | 0 <= j < |layer| :: layer[j]
  {
    layer != [] && Distinct(layer) && ListsInside(layer, ds) && (built ==> MeansInLists(layer))
  }

  /** A layer below another: numbered in order, refining it, every centroid above having a mean. */
  ghost predicate Below(lower: seq<Centroid>, upper: seq<Centroid>)
    reads (set j | 0 <= j < |lower| :: lower[j]), (set p | 0 <= p < |upper| :: upper[p])
  {
    NumberedInOrder(lower) && Refines(lower, upper) && HasMeans(upper)
  }

  /**
   * The layers of a divisive clustering over ds: each layer well formed, layer l
   * built with at least one round when its[l] > 0, and each layer below the top
   * Below the one above it.
   */
  ghost predicate Layered(layers: seq<seq<Centroid>>, its: seq<int>, ds: seq<Descriptor>)
    reads set l, j | 0 <= l < |layers| && 0 <= j < |layers[l]| :: layers[l][j]
  {
    forall l :: 0 <= l < |layers| ==>
      LayerWell(layers[l], l < |its| && its[l] > 0, ds) && (l > 0 ==> Below(layers[l], layers[l - 1]))
  }

  /** One more layer below the last keeps the layers Layered. */
  lemma LayeredSnoc(layers: seq<seq<Centroid>>, next: seq<Centroid>, its: seq<int>, ds: seq<Descriptor>)
    requires Layered(layers, its, ds) && |layers| > 0
    requires LayerWell(next, |layers| < |its| && its[|layers|] > 0, ds) && Below(next, layers[|layers| - 1])
    ensures Layered(layers + [next], its, ds)
  {
    var grown := layers + [next];
    forall l | 0 <= l < |grown|
      ensures LayerWell(grown[l], l < |its| && its[l] > 0, ds) && (l > 0 ==> Below(grown[l], grown[l - 1]))
    {
      if l < |layers| {
        assert grown[l] == layers[l];
        if l > 0 {
          assert grown[l - 1] == layers[l - 1];
        }
      }
    }
  }

  /**
   * The centroids a layer has gathered from the parents before p: no centroid
   * twice, numbered in order, each list inside the list of the parent it came
   * from; with withMeans every list is non-empty and holds its mean.
   */
  ghost predicate Gathered(lower: seq<Centroid>, parentOf: seq<nat>, upper: seq<Centroid>, p: nat, withMeans: bool)
    reads (set j | 0 <= j < |lower| :: lower[j]), (set q | 0 <= q < |upper| :: upper[q])`descriptors
  {
    |parentOf| == |lower| && p <= |upper| && Distinct(lower) && NumberedInOrder(lower) &&
    (forall j :: 0 <= j < |lower| ==>
      parentOf[j] < p && Inside(lower[j].descriptors, upper[parentOf[j]].descriptors)) &&
    (withMeans ==> MeansInLists(lower))
  }

  /** The children of parent p, new centroids numbered on from the gathered ones, extend what is gathered. */
  lemma GatheredSnoc(lower: seq<Centroid>, parentOf: seq<nat>, upper: seq<Centroid>, p: nat, withMeans: bool, children: seq<Centroid>)
    requires Gathered(lower, parentOf, upper, p, withMeans) && p < |upper|
    requires Distinct(children)
    requires forall k :: 0 <= k < |children| ==> children[k].id == |lower| + k
    requires ListsInside(children, upper[p].descriptors) && (withMeans ==> MeansInLists(children))
    ensures Gathered(lower + children, parentOf + seq(|children|, _ => p), upper, p + 1, withMeans)
  {
    var grown, grownOf := lower + children, parentOf + seq(|children|, _ => p);
    forall j, k | 0 <= j < |lower| && 0 <= k < |children| ensures lower[j] != children[k] {
      assert lower[j].id == j;
    }
    forall j | 0 <= j < |grown| ensures grownOf[j] < p + 1 && Inside(grown[j].descriptors, upper[grownOf[j]].descriptors) {
      if j >= |lower| {
        assert grown[j] == children[j - |lower|];
      }
    }
  }

  /** Once every parent is done, the gathered centroids form a layer refining the one above. */
  lemma GatheredLayer(lower: seq<Centroid>, parentOf: seq<nat>, upper: seq<Centroid>, withMeans: bool, ds: seq<Descriptor>)
    requires Gathered(lower, parentOf, upper, |upper|, withMeans) && ListsInside(upper, ds)
    ensures Distinct(lower) && NumberedInOrder(lower) && Refines(lower, upper) && ListsInside(lower, ds)
    ensures withMeans ==> MeansInLists(lower)
  {
    forall j | 0 <= j < |lower| ensures Inside(lower[j].descriptors, ds) {
      assert Inside(upper[parentOf[j]].descriptors, ds);
    }
    RefinesBy(lower, upper, parentOf);
  }

  /** A map from each centroid to a parent whose list holds its own shows that lower refines upper. */
  lemma RefinesBy(lower: seq<Centroid>, upper: seq<Centroid>, parentOf: seq<nat>)
    requires |parentOf| == |lower|
    requires forall j :: 0 <= j < |lower| ==> parentOf[j] < |upper| && Inside(lower[j].descriptors, upper[parentOf[j]].descriptors)
    ensures Refines(lower, upper)
  {
    forall j | 0 <= j < |lower| ensures HasParent(lower[j], upper) {
      var p := parentOf[j];
      assert Inside(lower[j].descriptors, upper[p].descriptors);
    }
  }

  /** A flat clustering over descriptors all of one length has consistent data. */
  lemma ConsistentFlat(flat: ClusteringSimple)
    requires Uniform(Vals(flat.descriptors))
    ensures flat.Consistent()
  {
    var vs := Vals(flat.descriptors);
    forall i | 0 <= i < |flat.descriptors| ensures flat.descriptors[i].values.Length == flat.Dim() {
      assert vs[i] == flat.descriptors[i].values[..];
    }
  }

  /** Descriptors drawn from data all of one length are all of one length. */
  lemma UniformInside(a: seq<Descriptor>, b: seq<Descriptor>)
    requires Uniform(Vals(b)) && Inside(a, b)
    ensures Uniform(Vals(a))
  {
    var va, vb := Vals(a), Vals(b);
    if |a| > 0 {
      assert a[0] in b;
      forall i | 0 <= i < |a| ensures |va[i]| == |vb[0]| {
        assert a[i] in b;
        var k :| 0 <= k < |b| && b[k] == a[i];
        assert vb[k] == a[i].values[..];
      }
    }
  }

  /**
   * Renumbering (ClusteringDivisive.cs:102-105): the centroids get the ids
   * firstId, firstId + 1, ... in order; nothing else changes.
   */
  method Renumber(cs: seq<Centroid>, firstId: int)
    requires Distinct(cs)
    modifies cs`id
    ensures forall j :: 0 <= j < |cs| ==> cs[j].id == firstId + j
  {
    for k := 0 to |cs|
      invariant forall j :: 0 <= j < k ==> cs[j].id == firstId + j
    {
      cs[k].id := firstId + k;
    }
  }

  /**
   * new ClusteringSimple(ds) followed by Clusterize(seedCount, iterationCount,
   * randomSeed) (ClusteringDivisive.cs:62-64 and 87-96): a seed count outside
   * [1, |ds|] or a negative iteration count fails as the flat clustering does;
   * otherwise the result is its deltas and its centroids, new objects, at least
   * one and at most seedCount, each list inside ds. With at least one round every
   * list is non-empty and holds its mean; with none every seed is kept with an
   * empty list and no mean.
   */
  method Flat(ds: seq<Descriptor>, seedCount: int, iterationCount: int, stream: nat -> int)
    returns (r: Result<(seq<real>, seq<Centroid>)>)
    requires IsSampleStream(stream) && Uniform(Vals(ds))
    modifies ds`centroid
    ensures r.Ok? <==> 0 < seedCount <= |ds| && iterationCount >= 0
    ensures r.Err? ==> r.error == (if 0 < seedCount <= |ds| then Overflow else ArgumentOutOfRange)
    ensures r.Ok? ==> r.value.0 == FlatDeltas(ds, seedCount, iterationCount, stream)
    ensures r.Ok? ==> 0 < |r.value.1| <= seedCount && Distinct(r.value.1) && ListsInside(r.value.1, ds)
    ensures r.Ok? ==> forall j :: 0 <= j < |r.value.1| ==> fresh(r.value.1[j])
    ensures r.Ok? && iterationCount == 0 ==> (|r.value.1| == seedCount &&
      forall j :: 0 <= j < seedCount ==> r.value.1[j].mean == null && r.value.1[j].descriptors == [])
    ensures r.Ok? && iterationCount > 0 ==> MeansInLists(r.value.1)
    ensures r.Ok? && iterationCount > 0 ==>
      FlatFinished(ds, seedCount, iterationCount, stream, Lists(r.value.1), Means(r.value.1))
  {
    hide Finished, Rounds, Deltas, ClusteringSimple.SeedVals, Seeds, Survivors, Groups, Choices, Round, Cluster, Clusters;
    hide Means, Lists, MeanVals, HasMeans, MeanIds, IdsOf, DistinctInts, AllOfDimension;
    var flat := new ClusteringSimple(ds);
    ConsistentFlat(flat);
    var deltas := flat.Clusterize(seedCount, iterationCount, stream);
    if deltas.Err? {
      return Err(deltas.error);
    }
    var cs := flat.centroids.value;
    FlatDeltasAre(flat, seedCount, iterationCount, stream);
    if iterationCount > 0 {
      FinishedLists(flat.descriptors, Rounds(flat.SeedVals(seedCount, stream), flat.Data(), flat.Dim(), iterationCount - 1),
        flat.Dim(), Lists(cs), Means(cs));
    }
    return Ok((deltas.value, cs));
  }

  /**
   * The condition under which a layer below upper is built
   * (ClusteringDivisive.cs:81-116), given the expected size of that layer: for
   * a non-empty upper layer, the layer's iteration count exists and is not
   * negative, and every parent has a mean and a list that holds at least its
   * ChildSeedCount descriptors.
   */
  predicate LayerFits(upper: seq<Centroid>, total: nat, its: seq<int>, layer: nat, expected: int)
    reads (set p | 0 <= p < |upper| :: upper[p])`descriptors, (set p | 0 <= p < |upper| :: upper[p])`mean
  {
    |upper| == 0 ||
    (layer < |its| && its[layer] >= 0 &&
     forall p :: 0 <= p < |upper| ==>
       ChildSeedCount(|upper[p].descriptors|, total, expected) <= |upper[p].descriptors| && upper[p].mean != null)
  }

  /** The parents of a layer built below them all have a mean. */
  lemma FitsHaveMeans(upper: seq<Centroid>, total: nat, its: seq<int>, layer: nat, expected: int)
    requires LayerFits(upper, total, its, layer, expected)
    ensures HasMeans(upper)
  {
  }

  /** The parent of each position of a layer made of runs of sizes[0], sizes[1], ... children. */
  ghost function Owners(sizes: seq<nat>): (o: seq<nat>)
    ensures forall j :: 0 <= j < |o| ==> o[j] < |sizes|
  {
    if sizes == [] then []
    else Owners(sizes[..|sizes| - 1]) + seq(sizes[|sizes| - 1], _ => |sizes| - 1)
  }

  /** One more run appends its parent that many times. */
  lemma OwnersSnoc(sizes: seq<nat>, c: nat)
    ensures Owners(sizes + [c]) == Owners(sizes) + seq(c, _ => |sizes|)
  {
    assert (sizes + [c])[..|sizes|] == sizes;
  }

  /**
   * lower is made of one run of children per parent of upper, in parent order
   * (ClusteringDivisive.cs:83-107): parent p has sizes[p] children, at least one
   * and at most its ChildSeedCount for the expected layer size, and each child's
   * list lies inside its own parent's list.
   */
  ghost predicate SplitInto(lower: seq<Centroid>, upper: seq<Centroid>, sizes: seq<nat>, total: nat, expected: int)
    reads (set j | 0 <= j < |lower| :: lower[j])`descriptors, (set p | 0 <= p < |upper| :: upper[p])`descriptors
  {
    |sizes| == |upper| &&
    (forall p :: 0 <= p < |upper| ==> 1 <= sizes[p] <= ChildSeedCount(|upper[p].descriptors|, total, expected)) &&
    |lower| == |Owners(sizes)| &&
    forall j :: 0 <= j < |lower| ==> Inside(lower[j].descriptors, upper[Owners(sizes)[j]].descriptors)
  }

  /**
   * The first p parents of upper are done: lower gathers their children,
   * sizes[q] of them for parent q, within its ChildSeedCount, and each of those
   * parents has a mean and enough descriptors for its seeds.
   */
  ghost predicate Grown(lower: seq<Centroid>, parentOf: seq<nat>, sizes: seq<nat>, upper: seq<Centroid>, p: nat,
                        withMeans: bool, total: nat, expected: int)
    reads (set j | 0 <= j < |lower| :: lower[j]), (set q | 0 <= q < |upper| :: upper[q])`descriptors,
      (set q | 0 <= q < |upper| :: upper[q])`mean
  {
    Gathered(lower, parentOf, upper, p, withMeans) && (|lower| > 0 <==> p > 0) &&
    |sizes| == p && parentOf == Owners(sizes) &&
    forall q :: 0 <= q < p ==>
      ChildSeedCount(|upper[q].descriptors|, total, expected) <= |upper[q].descriptors| && upper[q].mean != null &&
      1 <= sizes[q] <= ChildSeedCount(|upper[q].descriptors|, total, expected)
  }

  /** The children gathered so far are those of the first p parents. */
  lemma GrownGathered(lower: seq<Centroid>, parentOf: seq<nat>, sizes: seq<nat>, upper: seq<Centroid>, p: nat,
                      withMeans: bool, total: nat, expected: int)
    requires Grown(lower, parentOf, sizes, upper, p, withMeans, total, expected)
    ensures Gathered(lower, parentOf, upper, p, withMeans) && |sizes| == p
  {
  }

  /** The children of parent p, appended, extend the gathered layer by one run. */
  lemma GrownSnoc(lower: seq<Centroid>, parentOf: seq<nat>, sizes: seq<nat>, upper: seq<Centroid>, p: nat,
                  withMeans: bool, total: nat, expected: int, next: seq<Centroid>, grownOf: seq<nat>, count: nat)
    requires Grown(lower, parentOf, sizes, upper, p, withMeans, total, expected) && p < |upper|
    requires Gathered(next, grownOf, upper, p + 1, withMeans)
    requires ChildSeedCount(|upper[p].descriptors|, total, expected) <= |upper[p].descriptors| && upper[p].mean != null
    requires count == |next| - |lower| && 1 <= count <= ChildSeedCount(|upper[p].descriptors|, total, expected)
    requires grownOf == parentOf + seq(count, _ => p)
    ensures Grown(next, grownOf, sizes + [count], upper, p + 1, withMeans, total, expected)
  {
    OwnersSnoc(sizes, count);
  }

  /** A layer gathered from every parent of upper fits below it and is split into its runs. */
  lemma GrownLayer(lower: seq<Centroid>, parentOf: seq<nat>, sizes: seq<nat>, upper: seq<Centroid>,
                   withMeans: bool, total: nat, expected: int, its: seq<int>, layer: nat)
    requires Grown(lower, parentOf, sizes, upper, |upper|, withMeans, total, expected)
    requires |upper| > 0 ==> layer < |its| && its[layer] >= 0
    ensures Gathered(lower, parentOf, upper, |upper|, withMeans) && (|lower| > 0 <==> |upper| > 0)
    ensures LayerFits(upper, total, its, layer, expected) && SplitInto(lower, upper, sizes, total, expected)
  {
  }

  /**
   * The layers of a run so far, the top first: each layer l >= 1 was built
   * because LayerFits held for the layer above with the expected size
   * Expected(seeds, l), and it is split into runs of sizes[l] children per parent.
   */
  ghost predicate StackFits(layers: seq<seq<Centroid>>, sizes: seq<seq<nat>>, seeds: seq<int>, its: seq<int>, total: nat)
    reads set l, j | 0 <= l < |layers| && 0 <= j < |layers[l]| :: layers[l][j]
  {
    |sizes| == |layers| && |layers| <= |seeds| &&
    forall l :: 1 <= l < |layers| ==>
      LayerFits(layers[l - 1], total, its, l, Expected(seeds, l)) &&
      SplitInto(layers[l], layers[l - 1], sizes[l], total, Expected(seeds, l))
  }

  /** A layer built below the last extends the run. */
  lemma StackFitsSnoc(layers: seq<seq<Centroid>>, sizes: seq<seq<nat>>, next: seq<Centroid>, counts: seq<nat>,
                      seeds: seq<int>, its: seq<int>, total: nat)
    requires StackFits(layers, sizes, seeds, its, total) && 0 < |layers| < |seeds|
    requires LayerFits(layers[|layers| - 1], total, its, |layers|, Expected(seeds, |layers|))
    requires SplitInto(next, layers[|layers| - 1], counts, total, Expected(seeds, |layers|))
    ensures StackFits(layers + [next], sizes + [counts], seeds, its, total)
  {
    var grown := layers + [next];
    forall l | 1 <= l < |grown|
      ensures LayerFits(grown[l - 1], total, its, l, Expected(seeds, l)) &&
        SplitInto(grown[l], grown[l - 1], (sizes + [counts])[l], total, Expected(seeds, l))
    {
      assert grown[l - 1] == layers[l - 1];
      if l < |layers| {
        assert grown[l] == layers[l];
      }
    }
  }

  class ClusteringDivisive {
    /** Descriptors: the data, fixed by the constructor. */
    const descriptors: seq<Descriptor>
    /** Centroids: one array per layer, top layer first; null (None) until Clusterize completes. */
    var centroids: Option<seq<seq<Centroid>>>

    /** ClusteringDivisive(descriptors): the data stored, no layers yet. */
    constructor (descriptors: seq<Descriptor>)
      ensures this.descriptors == descriptors && centroids == None
    {
      this.descriptors := descriptors;
      centroids := None;
    }

    /**
     * One parent of a layer (ClusteringDivisive.cs:85-105): the flat clustering
     * of the parent's list with ChildSeedCount seeds and the same random seed,
     * its errors passed on, and its centroids renumbered from firstId.
     */
    method ClusterParent(parent: Centroid, iterationCount: int, expected: int, firstId: int, stream: nat -> int)
      returns (r: Result<seq<Centroid>>)
      requires IsSampleStream(stream) && Uniform(Vals(descriptors)) && Inside(parent.descriptors, descriptors)
      modifies descriptors`centroid
      ensures var seedCount := ChildSeedCount(|parent.descriptors|, |descriptors|, expected);
        r.Ok? <==> seedCount <= |parent.descriptors| && iterationCount >= 0
      ensures r.Err? ==> r.error == (if ChildSeedCount(|parent.descriptors|, |descriptors|, expected) > |parent.descriptors|
                                     then ArgumentOutOfRange else Overflow)
      ensures r.Ok? ==> Distinct(r.value) && 0 < |r.value| <= ChildSeedCount(|parent.descriptors|, |descriptors|, expected)
      ensures r.Ok? ==> ListsInside(r.value, parent.descriptors)
      ensures r.Ok? ==> forall j :: 0 <= j < |r.value| ==> fresh(r.value[j]) && r.value[j].id == firstId + j
      ensures r.Ok? && iterationCount == 0 ==>
        |r.value| == ChildSeedCount(|parent.descriptors|, |descriptors|, expected) &&
        forall j :: 0 <= j < |r.value| ==> r.value[j].mean == null && r.value[j].descriptors == []
      ensures r.Ok? && iterationCount > 0 ==> MeansInLists(r.value)
    {
      hide FlatDeltas, FlatSeeds, FlatFinished;
      var seedCount := ChildSeedCount(|parent.descriptors|, |descriptors|, expected);
      ChildSeedCountFits(|parent.descriptors|, |descriptors|, expected);
      UniformInside(parent.descriptors, descriptors);
      assert forall i :: 0 <= i < |parent.descriptors| ==> parent.descriptors[i] in descriptors;
      var flat := Flat(parent.descriptors, seedCount, iterationCount, stream);
      if flat.Err? {
        return Err(flat.error);
      }
      var cs := flat.value.1;
      Renumber(cs, firstId);
      return Ok(cs);
    }

    /**
     * The step of a layer for parent p (ClusteringDivisive.cs:94-113): the parent's
     * list clustered, then its mean read; on success the new centroids follow
     * those gathered so far, numbered on from them, a run of at least one and at
     * most ChildSeedCount children of parent p.
     */
    method ClusterNext(upper: seq<Centroid>, p: nat, iterationCount: int, expected: int, lower: seq<Centroid>,
                       ghost parentOf: seq<nat>, ghost sizes: seq<nat>, ghost withMeans: bool, stream: nat -> int)
      returns (r: Result<seq<Centroid>>, ghost grownOf: seq<nat>, ghost grownSizes: seq<nat>)
      requires IsSampleStream(stream) && Uniform(Vals(descriptors)) && p < |upper|
      requires Inside(upper[p].descriptors, descriptors)
      requires Grown(lower, parentOf, sizes, upper, p, withMeans, |descriptors|, expected)
      requires withMeans ==> iterationCount > 0
      modifies descriptors`centroid
      ensures var seedCount := ChildSeedCount(|upper[p].descriptors|, |descriptors|, expected);
        r.Ok? <==> seedCount <= |upper[p].descriptors| && iterationCount >= 0 && upper[p].mean != null
      ensures r.Err? ==> r.error in {ArgumentOutOfRange, Overflow, NullReference}
      ensures r.Ok? ==> Gathered(r.value, grownOf, upper, p + 1, withMeans)
      ensures r.Ok? ==> 1 <= |r.value| - |lower| <= ChildSeedCount(|upper[p].descriptors|, |descriptors|, expected)
      ensures r.Ok? ==> grownOf == parentOf + seq(|r.value| - |lower|, _ => p)
      ensures r.Ok? ==> grownSizes == sizes + [|r.value| - |lower|]
      ensures r.Ok? ==> Grown(r.value, grownOf, grownSizes, upper, p + 1, withMeans, |descriptors|, expected)
      ensures r.Ok? ==> forall j :: 0 <= j < |r.value| ==> (if j < |lower| then r.value[j] == lower[j] else fresh(r.value[j]))
    {
      hide *;
      grownOf, grownSizes := parentOf, sizes;
      GrownGathered(lower, parentOf, sizes, upper, p, withMeans, |descriptors|, expected);
      var children := ClusterParent(upper[p], iterationCount, expected, |lower|, stream);
      if children.Err? {
        r := Err(children.error);
      } else if upper[p].mean == null {
        r := Err(NullReference);
      } else {
        GatheredSnoc(lower, parentOf, upper, p, withMeans, children.value);
        grownOf := parentOf + seq(|children.value|, _ => p);
        GrownSnoc(lower, parentOf, sizes, upper, p, withMeans, |descriptors|, expected, lower + children.value, grownOf,
                  |children.value|);
        grownSizes := sizes + [|children.value|];
        r := Ok(lower + children.value);
      }
    }

    /**
     * The loop of one layer (ClusteringDivisive.cs:83-107): for each parent in
     * order, the iteration count of the layer is read (an index error when the
     * array is too short), the parent's list is clustered, and the parent's mean
     * is read (a null reference when it has none). The children gathered are
     * those of every parent, parent by parent.
     */
    method GatherLayer(upper: seq<Centroid>, iterationCounts: seq<int>, layer: nat, expected: int, stream: nat -> int)
      returns (r: Result<seq<Centroid>>, ghost parentOf: seq<nat>, ghost sizes: seq<nat>)
      requires IsSampleStream(stream) && Uniform(Vals(descriptors))
      requires ListsInside(upper, descriptors)
      modifies descriptors`centroid
      ensures r.Ok? <==> LayerFits(upper, |descriptors|, iterationCounts, layer, expected)
      ensures |upper| > 0 && layer >= |iterationCounts| ==> r == Err(IndexOutOfRange)
      ensures r.Err? ==> r.error in {IndexOutOfRange, ArgumentOutOfRange, Overflow, NullReference}
      ensures r.Ok? ==> Grown(r.value, parentOf, sizes, upper, |upper|, layer < |iterationCounts| && iterationCounts[layer] > 0,
                              |descriptors|, expected)
      ensures r.Ok? ==> forall j :: 0 <= j < |r.value| ==> fresh(r.value[j])
    {
      ghost var withMeans := layer < |iterationCounts| && iterationCounts[layer] > 0;
      var lower: seq<Centroid> := [];
      parentOf, sizes := [], [];
      assert Grown(lower, parentOf, sizes, upper, 0, withMeans, |descriptors|, expected);
      assert forall q :: 0 <= q < |upper| ==> Inside(upper[q].descriptors, descriptors);
      hide Vals, Uniform, ChildSeedCount, Gathered, ListsInside, MeansInLists, Refines, NumberedInOrder, Distinct, Inside, HasParent, LayerWell, Below, Layered, FlatDeltas, FlatSeeds, FlatFinished, Owners, Grown, SplitInto;
      for p := 0 to |upper|
        invariant p > 0 ==> layer < |iterationCounts| && iterationCounts[layer] >= 0
        invariant Grown(lower, parentOf, sizes, upper, p, withMeans, |descriptors|, expected)
        invariant forall j :: 0 <= j < |lower| ==> fresh(lower[j])
      {
        if layer >= |iterationCounts| {
          return Err(IndexOutOfRange), parentOf, sizes;
        }
        var next;
        next, parentOf, sizes := ClusterNext(upper, p, iterationCounts[layer], expected, lower, parentOf, sizes, withMeans, stream);
        if next.Err? {
          return Err(next.error), parentOf, sizes;
        }
        lower := next.value;
      }
      GrownLayer(lower, parentOf, sizes, upper, withMeans, |descriptors|, expected, iterationCounts, layer);
      return Ok(lower), parentOf, sizes;
    }

    /**
     * One layer below upper (ClusteringDivisive.cs:81-116): the layer succeeds
     * exactly when every parent's clustering does. The new centroids follow each
     * other parent by parent, numbered 0, 1, ... across the layer; `sizes` counts
     * each parent's children.
     */
    method ClusterLayer(upper: seq<Centroid>, iterationCounts: seq<int>, layer: nat, expected: int, stream: nat -> int)
      returns (r: Result<seq<Centroid>>, ghost sizes: seq<nat>)
      requires IsSampleStream(stream) && Uniform(Vals(descriptors))
      requires ListsInside(upper, descriptors)
      modifies descriptors`centroid
      ensures r.Ok? <==> LayerFits(upper, |descriptors|, iterationCounts, layer, expected)
      ensures |upper| > 0 && layer >= |iterationCounts| ==> r == Err(IndexOutOfRange)
      ensures r.Err? ==> r.error in {IndexOutOfRange, ArgumentOutOfRange, Overflow, NullReference}
      ensures r.Ok? ==> (|r.value| > 0 <==> |upper| > 0)
      ensures r.Ok? ==> SplitInto(r.value, upper, sizes, |descriptors|, expected)
      ensures r.Ok? ==> Distinct(r.value) && NumberedInOrder(r.value) && Refines(r.value, upper)
      ensures r.Ok? ==> ListsInside(r.value, descriptors) && forall j :: 0 <= j < |r.value| ==> fresh(r.value[j])
      ensures r.Ok? && layer < |iterationCounts| && iterationCounts[layer] > 0 ==> MeansInLists(r.value)
    {
      ghost var parentOf;
      r, parentOf, sizes := GatherLayer(upper, iterationCounts, layer, expected, stream);
      if r.Ok? {
        ghost var withMeans := layer < |iterationCounts| && iterationCounts[layer] > 0;
        GrownLayer(r.value, parentOf, sizes, upper, withMeans, |descriptors|, expected, iterationCounts, layer);
        GatheredLayer(r.value, parentOf, upper, withMeans, descriptors);
      }
    }

    /**
     * Clusterize(layerSeedCounts, iterationCounts, randomSeed), with `stream` the
     * samples of new Random(randomSeed) (ClusteringDivisive.cs:51-124): the
     * arguments checked; the top layer the flat clustering of all descriptors with
     * the first seed and iteration counts, every mean of which is read (line 70);
     * then, layer by layer, the expected layer size multiplied (in 32 bits) by the
     * layer's seed count and each parent's list clustered. The layers are stored
     * only when every layer is complete, and the result is the top layer's deltas.
     * `built` holds the layers completed, the top first, and `sizes[l]` the
     * children of each parent of layer l - 1.
     */
    method Clusterize(layerSeedCounts: Option<seq<int>>, iterationCounts: Option<seq<int>>, stream: nat -> int)
      returns (r: Result<seq<real>>, ghost built: seq<seq<Centroid>>, ghost sizes: seq<seq<nat>>)
      requires IsSampleStream(stream) && Uniform(Vals(descriptors))
      modifies this`centroids, descriptors`centroid
      ensures Uniform(Vals(descriptors))
      ensures CheckClusterizeArguments(layerSeedCounts, iterationCounts).Fail? ==>
        r == Err(CheckClusterizeArguments(layerSeedCounts, iterationCounts).error)
      ensures r.Err? ==> centroids == old(centroids)
      ensures CheckClusterizeArguments(layerSeedCounts, iterationCounts).Pass? ==>
        var seeds, its := layerSeedCounts.value, iterationCounts.value;
        (!(0 < seeds[0] <= |descriptors|) ==> r == Err(ArgumentOutOfRange)) &&
        (0 < seeds[0] <= |descriptors| && its[0] < 0 ==> r == Err(Overflow)) &&
        (0 < seeds[0] <= |descriptors| && its[0] == 0 ==> r == Err(NullReference)) &&
        (|seeds| == 1 ==> (r.Ok? <==> 0 < seeds[0] <= |descriptors| && its[0] > 0))
      ensures (CheckClusterizeArguments(layerSeedCounts, iterationCounts).Pass? &&
        0 < layerSeedCounts.value[0] <= |descriptors| && iterationCounts.value[0] > 0) ==>
        var seeds, its := layerSeedCounts.value, iterationCounts.value;
        1 <= |built| && StackFits(built, sizes, seeds, its, |descriptors|) &&
        FlatFinished(descriptors, seeds[0], its[0], stream, Lists(built[0]), Means(built[0])) &&
        (r.Ok? <==> |built| == |seeds|) &&
        (|built| < |seeds| ==> !LayerFits(built[|built| - 1], |descriptors|, its, |built|, Expected(seeds, |built|)))
      ensures r.Ok? ==>
        CheckClusterizeArguments(layerSeedCounts, iterationCounts).Pass? &&
        0 < layerSeedCounts.value[0] <= |descriptors| && iterationCounts.value[0] > 0 &&
        |iterationCounts.value| >= |layerSeedCounts.value| &&
        r.value == FlatDeltas(descriptors, layerSeedCounts.value[0], iterationCounts.value[0], stream) &&
        centroids == Some(built) && |built| == |layerSeedCounts.value|
      ensures r.Ok? ==> HasMeans(built[0]) && Layered(built, iterationCounts.value, descriptors)
      ensures r.Ok? ==> forall l, j :: 0 <= l < |built| && 0 <= j < |built[l]| ==> fresh(built[l][j])
    {
      built, sizes := [], [];
      hide FlatDeltas, FlatSeeds, FlatFinished, Vals, Uniform, Refines, NumberedInOrder, ListsInside, Inside, Distinct, Layered, LayerWell, Below, HasParent, Gathered, CheckClusterizeArguments, ChildSeedCount;
      hide LayerFits, SplitInto, Expected, Lists, Means, StackFits, HasMeans;
      var check := CheckClusterizeArguments(layerSeedCounts, iterationCounts);
      if check.Fail? {
        r := Err(check.error);
      } else {
        var run;
        run, built, sizes := Build(layerSeedCounts.value, iterationCounts.value, stream);
        if run.Err? {
          r := Err(run.error);
        } else {
          centroids := Some(run.value.1);
          r := Ok(run.value.0);
        }
      }
    }

    /**
     * The work of Clusterize once its arguments are checked
     * (ClusteringDivisive.cs:66-120): the top layer is the flat clustering of
     * all descriptors with the first seed and iteration counts, every mean of
     * which is read (line 70); the layers below it follow. The result pairs the
     * top layer's deltas with the layers, the top first.
     */
    method Build(seeds: seq<int>, its: seq<int>, stream: nat -> int)
      returns (r: Result<(seq<real>, seq<seq<Centroid>>)>, ghost built: seq<seq<Centroid>>, ghost sizes: seq<seq<nat>>)
      requires IsSampleStream(stream) && Uniform(Vals(descriptors)) && |seeds| > 0 && |its| > 0
      modifies descriptors`centroid
      ensures Uniform(Vals(descriptors))
      ensures !(0 < seeds[0] <= |descriptors|) ==> r == Err(ArgumentOutOfRange)
      ensures 0 < seeds[0] <= |descriptors| && its[0] < 0 ==> r == Err(Overflow)
      ensures 0 < seeds[0] <= |descriptors| && its[0] == 0 ==> r == Err(NullReference)
      ensures |seeds| == 1 ==> (r.Ok? <==> 0 < seeds[0] <= |descriptors| && its[0] > 0)
      ensures 0 < seeds[0] <= |descriptors| && its[0] > 0 ==>
        1 <= |built| && StackFits(built, sizes, seeds, its, |descriptors|) &&
        FlatFinished(descriptors, seeds[0], its[0], stream, Lists(built[0]), Means(built[0])) &&
        (r.Ok? <==> |built| == |seeds|) &&
        (|built| < |seeds| ==> !LayerFits(built[|built| - 1], |descriptors|, its, |built|, Expected(seeds, |built|)))
      ensures r.Ok? ==>
        0 < seeds[0] <= |descriptors| && its[0] > 0 && |its| >= |seeds| &&
        r.value.0 == FlatDeltas(descriptors, seeds[0], its[0], stream) && r.value.1 == built && |built| == |seeds|
      ensures r.Ok? ==> HasMeans(built[0]) && Layered(built, its, descriptors)
      ensures r.Ok? ==> forall l, j :: 0 <= l < |built| && 0 <= j < |built[l]| ==> fresh(built[l][j])
    {
      built, sizes := [], [];
      hide FlatDeltas, FlatSeeds, FlatFinished, Vals, Uniform, Refines, NumberedInOrder, ListsInside, Inside, Distinct, Layered, LayerWell, Below, HasParent, Gathered, ChildSeedCount;
      hide LayerFits, SplitInto, Expected, Lists, Means, StackFits;
      var flat := Flat(descriptors, seeds[0], its[0], stream);
      if flat.Err? {
        r := Err(flat.error);
      } else {
        var deltas, top := flat.value.0, flat.value.1;
        // Console.WriteLine of every top mean's id (line 70)
        assert its[0] == 0 ==> top[0].mean == null;
        if !HasMeans(top) {
          r := Err(NullReference);
        } else {
          var layers;
          layers, built, sizes := Stack(top, seeds, its, stream);
          if layers.Err? {
            r := Err(layers.error);
          } else {
            r := Ok((deltas, layers.value));
          }
        }
      }
    }

    /**
     * One more layer of a run (ClusteringDivisive.cs:81-116): the layer below
     * the last one built, for the expected size Expected(seeds, |layers|). It
     * is built exactly when LayerFits holds for the last layer, and then it
     * extends the run; on an error the run so far is left as it was.
     */
    method Extend(layers: seq<seq<Centroid>>, ghost sizes: seq<seq<nat>>, seeds: seq<int>, its: seq<int>, expected: int,
                  stream: nat -> int)
      returns (r: Result<seq<Centroid>>, ghost counts: seq<nat>)
      requires IsSampleStream(stream) && Uniform(Vals(descriptors))
      requires 0 < |layers| < |seeds| && expected == Expected(seeds, |layers|)
      requires Layered(layers, its, descriptors) && ListsInside(layers[|layers| - 1], descriptors)
      requires layers[|layers| - 1] != [] && StackFits(layers, sizes, seeds, its, |descriptors|)
      modifies descriptors`centroid
      ensures r.Ok? <==> LayerFits(layers[|layers| - 1], |descriptors|, its, |layers|, expected)
      ensures r.Err? ==> r.error in {IndexOutOfRange, ArgumentOutOfRange, Overflow, NullReference}
      ensures r.Err? ==> StackFits(layers, sizes, seeds, its, |descriptors|)
      ensures r.Ok? ==> |layers| < |its| && r.value != [] && ListsInside(r.value, descriptors)
      ensures r.Ok? ==> Layered(layers + [r.value], its, descriptors)
      ensures r.Ok? ==> StackFits(layers + [r.value], sizes + [counts], seeds, its, |descriptors|)
      ensures r.Ok? ==> forall j :: 0 <= j < |r.value| ==> fresh(r.value[j])
    {
      hide Vals, Uniform, ChildSeedCount, Refines, NumberedInOrder, Inside, Distinct, MeansInLists;
      hide SplitInto, Owners, FlatDeltas, FlatSeeds, FlatFinished, Layered, StackFits, Expected;
      var layer := |layers|;
      r, counts := ClusterLayer(layers[layer - 1], its, layer, expected, stream);
      if r.Ok? {
        FitsHaveMeans(layers[layer - 1], |descriptors|, its, layer, expected);
        assert LayerWell(r.value, layer < |its| && its[layer] > 0, descriptors);
        assert Below(r.value, layers[layer - 1]);
        LayeredSnoc(layers, r.value, its, descriptors);
        StackFitsSnoc(layers, sizes, r.value, counts, seeds, its, |descriptors|);
      }
    }

    /**
     * The layers below the top (ClusteringDivisive.cs:73-120): before each layer
     * the expected layer size is multiplied by the layer's seed count, with
     * Int32 wrap-around, and the layer is built from the one above; the first
     * error ends the run. `built` holds the layers completed, the top first, and
     * layer l (l >= 1) is built exactly when LayerFits holds for the layer above
     * with Expected(seeds, l); `sizes[l]` counts each parent's children.
     */
    method Stack(top: seq<Centroid>, seeds: seq<int>, its: seq<int>, stream: nat -> int)
      returns (r: Result<seq<seq<Centroid>>>, ghost built: seq<seq<Centroid>>, ghost sizes: seq<seq<nat>>)
      requires IsSampleStream(stream) && Uniform(Vals(descriptors)) && |seeds| > 0 && |its| > 0
      requires top != [] && Distinct(top) && HasMeans(top)
      requires ListsInside(top, descriptors) && (its[0] > 0 ==> MeansInLists(top))
      modifies descriptors`centroid
      ensures 1 <= |built| <= |seeds| && built[0] == top && StackFits(built, sizes, seeds, its, |descriptors|)
      ensures r.Ok? <==> |built| == |seeds|
      ensures r.Ok? ==> r.value == built
      ensures |built| < |seeds| ==> !LayerFits(built[|built| - 1], |descriptors|, its, |built|, Expected(seeds, |built|))
      ensures r.Err? ==> r.error in {IndexOutOfRange, ArgumentOutOfRange, Overflow, NullReference}
      ensures r.Ok? ==> |its| >= |seeds|
      ensures r.Ok? ==> Layered(r.value, its, descriptors)
      ensures forall l, j :: 1 <= l < |built| && 0 <= j < |built[l]| ==> fresh(built[l][j])
    {
      hide Vals, Uniform, ChildSeedCount, Refines, NumberedInOrder, Inside, Distinct, ListsInside, MeansInLists;
      hide LayerFits, SplitInto, Owners, FlatDeltas, FlatSeeds, FlatFinished;
      var layers := [top];
      sizes := [[]];
      assert Layered(layers, its, descriptors);
      assert StackFits(layers, sizes, seeds, its, |descriptors|);
      hide Layered, StackFits;
      var expected := seeds[0];
      for layer := 1 to |seeds|
        invariant |layers| == layer && layers[0] == top && layer <= |its|
        invariant expected == Expected(seeds, layer - 1)
        invariant Layered(layers, its, descriptors) && ListsInside(layers[layer - 1], descriptors)
        invariant layers[layer - 1] != []
        invariant StackFits(layers, sizes, seeds, its, |descriptors|)
        invariant forall l, j :: 1 <= l < layer && 0 <= j < |layers[l]| ==> fresh(layers[l][j])
      {
        expected := Wrap32(expected * seeds[layer]);
        var next;
        ghost var counts;
        next, counts := Extend(layers, sizes, seeds, its, expected, stream);
        if next.Err? {
          return Err(next.error), layers, sizes;
        }
        layers := layers + [next.value];
        sizes := sizes + [counts];
      }
      return Ok(layers), layers, sizes;
    }
  }
}
