# BrowsingSimulator and DescriptorClustering in Dafny

A model of two C# code bases that work together.

BrowsingSimulator simulates a user who looks for one hidden target item in a large collection, using only zoom and pan steps over a multi-layer cluster hierarchy. Its parts:

- **MLES**, the layered nearest-neighbour index. It holds one layer of cluster items per layer file above the dataset, which is its bottom layer (the simulator's usual setup loads two layer files, three layers in all), and a persistent cache of full-dataset rankings. Its search is filtered by each session's dropout state.
- **BrowsingSession**, the state machine of one simulated user: the display, the shown-count map with the dropout rule, zoom and pan, and the step log.
- **BrowsingSimulator**, the engine that builds and runs a batch of sessions from one shared random source. It writes the session logs and the depth histogram.
- **The command-line front end**, which parses the arguments and the layer files and names the output directories.
- **FeatureReader and BitmapReader**, which read the binary descriptor and thumbnail files through their offset tables.
- **RandomSubsequenceGenerator**, which prints a random sample of a number range.

DescriptorClustering produces the layer files the index loads:

- **ClusteringBase**, with seed sampling and closest-descriptor assignment.
- **ClusteringSimple**, flat k-means with empty-cluster dropping.
- **ClusteringDivisive**, layer-by-layer k-means.
- **ClusteringAgglomerative**, Ward merging.
- **The heuristic command-line tool**, which writes a layer file.
- **The shared test helpers.**

The model is written as follows:

- Classes that the C# updates in place are Dafny classes with `modifies` frames. These are MLES, BrowsingSession, the engine, the readers, Descriptor, Centroid, the k-means, divisive and agglomerative clusterings, and the weighted centroids.
- Pure computations are functions.
- Each loop is a method proved against a specification function.
- Lemmas state what the code promises:
  - a search returns the nearest allowed items, distinct, in order;
  - the cache file reads back as the cache;
  - a display is filled with distinct items;
  - k-means partitions the data and ends with distinct means;
  - an agglomerative merge joins a live pair at the smallest Ward distance and keeps every descriptor in exactly one live cluster, and each stored layer is the state of that merge history, one merge apart from the next;
  - a written layer file parses back to its table.
- `System.Random` is a stream of samples, so every random choice is a function of the seed.
- Exceptions are `Err` values of a `Result` type that name the .NET exception.

## Model

| member | source | states |
|---|---|---|
| Text.Wrap32 | DescriptorClustering/TestClustering/HelperTestClass.cs:18 | the Int32 value of an unchecked integer expression: in range and equal to the exact value modulo 2^32, and the exact value itself when that fits |
| Text.ParseInt32 | BrowsingSimulator/BrowsingSimulatorCLI/Program.cs:194 | int.Parse yields an Int32; it fails only with FormatException or OverflowException |
| Text.Split | BrowsingSimulator/BrowsingSimulatorCLI/Program.cs:189 | String.Split gives at least one piece and no piece holds the separator |
| Text.SplitJoin | BrowsingSimulator/BrowsingSimulatorCLI/Program.cs:189 | splitting a joined list whose parts lack the separator gives the list back |
| Text.JoinSplit | BrowsingSimulator/BrowsingSimulatorCLI/Program.cs:189 | joining the pieces of a split gives the original string |
| Text.TrimBothEnds | BrowsingSimulator/BrowsingSimulatorCLI/Program.cs:194 | the white space int.Parse skips is a prefix and a suffix; what remains has none at either end |
| Text.IntToStringParses | BrowsingSimulator/BrowsingSimulatorCLI/Program.cs:57-59 | int.Parse reads back every Int32 that ToString wrote |
| Text.PadParses | BrowsingSimulator/BrowsingSimulator/BrowsingSimulator.cs:96 | int.Parse reads back a zero-padded non-negative Int32, and the padded text has at least the format's width |
| Text.ParseRejectsFraction | BrowsingSimulator/BrowsingSimulatorCLI/Program.cs:206 | a decimal fraction such as "1.5" is a FormatException for int.Parse |
| Text.NumberClean | DescriptorClustering/DescriptorClusteringHeuristicCLI/Program.cs:95-106 | a printed number holds no separator character (':' ';' ',' '_') |
| Text.IntsToStrings | DescriptorClustering/DescriptorClusteringHeuristicCLI/Program.cs:97-108 | one decimal text per number, in order |
| Vectors.Sq | DescriptorClustering/DescriptorClustering/Structures/Descriptor.cs:81-82 | a square is non-negative |
| Vectors.Zero | DescriptorClustering/DescriptorClustering/Structures/Descriptor.cs:34-38 | `new float[dimension]`: dim zeros |
| Vectors.Plus | DescriptorClustering/DescriptorClustering/Structures/Descriptor.cs:56-60 | the component-wise sum, of the operands' length |
| Vectors.Times | DescriptorClustering/DescriptorClustering/Structures/Descriptor.cs:43-46 | every component times the factor |
| Vectors.SumOf | DescriptorClustering/DescriptorClustering/Structures/Centroid.cs:51-55 | the running sum of ComputeMean has the first descriptor's dimension |
| Vectors.MeanOf | DescriptorClustering/DescriptorClustering/Structures/Centroid.cs:57 | the mean has the data's dimension |
| Vectors.DistanceNonNegative | DescriptorClustering/DescriptorClustering/Structures/Descriptor.cs:76-85 | GetDistanceSQR is never negative |
| Vectors.DistanceIgnoresTail | DescriptorClustering/DescriptorClustering/Structures/Descriptor.cs:79 | only the first a.Length entries of b are read |
| Vectors.DistanceSymmetric | DescriptorClustering/DescriptorClustering/Structures/Descriptor.cs:76-85 | for equal lengths the squared distance is symmetric |
| Vectors.DistanceToSelfIsZero | DescriptorClustering/DescriptorClustering/Structures/Descriptor.cs:76-85 | a vector is at distance 0 from itself and from any extension of itself |
| Vectors.SumOfCopies | DescriptorClustering/DescriptorClustering/Structures/Centroid.cs:51-55 | the sum of k copies of v is v times k |
| Vectors.MeanOfCopies | DescriptorClustering/DescriptorClustering/Structures/Centroid.cs:51-58 | the mean of k copies of v is v |
| Items.NewItem | BrowsingSimulator/BrowsingSimulator/MLES/Item.cs:17-24 | the constructor stores id, local id, descriptor and cluster items, with no parent |
| Items.Ids | BrowsingSimulator/BrowsingSimulator/MLES/MLES.cs:302-326 | the ids of a list of items, in order |
| Items.SetParentItem | BrowsingSimulator/BrowsingSimulator/MLES/Item.cs:26-29 | only the given item's parent changes, to the given parent position |
| Items.GetDistanceSqr | BrowsingSimulator/BrowsingSimulator/MLES/Item.cs:31-40 | the accumulator loop returns DistanceSqr(a, b) |
| DotNetRandom.Fraction | DescriptorClustering/TestClustering/HelperTestClass.cs:40 | NextDouble lies in [0, 1) |
| DotNetRandom.Scale | DescriptorClustering/DescriptorClustering/ClusteringBase.cs:34 | Next(maxValue) is below a positive bound and 0 for bound 0 |
| DotNetRandom.Rng.constructor | DescriptorClustering/DescriptorClustering/ClusteringBase.cs:30 | new Random(seed) starts at the first sample of that seed's stream |
| DotNetRandom.Rng.Next | BrowsingSimulator/BrowsingSimulator/BrowsingSimulator.cs:72 | Next() returns the next sample, a non-negative Int32 below MBIG, and consumes one |
| DotNetRandom.Rng.NextBelow | DescriptorClustering/DescriptorClustering/ClusteringBase.cs:34 | Next(maxValue) throws ArgumentOutOfRange on a negative bound without drawing; otherwise it consumes one sample and scales it |
| DotNetRandom.Rng.NextDouble | BrowsingSimulator/BrowsingSimulator/BrowsingSession.cs:175 | NextDouble consumes one sample and returns its fraction |
| Sampling.RemoveAt | DescriptorClustering/DescriptorClustering/ClusteringBase.cs:41 | LinkedList.Remove of the node at position i shifts the later elements down by one |
| Sampling.PickIndex | DescriptorClustering/DescriptorClustering/ClusteringBase.cs:34-39 | the node reached by Next(Count - 1) is inside the list and, for two or more nodes, never the last |
| Sampling.PicksAreASample | DescriptorClustering/DescriptorClustering/ClusteringBase.cs:32-42 | the sampler takes min(k, n) elements, all from the list, none twice when the list has no duplicates |
| Sampling.LastPickedOnlyWhenAllAre | DescriptorClustering/DescriptorClustering/ClusteringBase.cs:34 | Next(Count - 1) never reaches the last node, so the list's last element is never picked unless every element is |
| Dropout.DropDecision | BrowsingSimulator/BrowsingSimulator/BrowsingSession.cs:165-181 | a sample is drawn only for an item shown before, and only such an item can drop out |
| Dropout.HasDroppedOut | BrowsingSimulator/BrowsingSimulator/BrowsingSession.cs:165-181 | HasItemDroppedOut returns the decision and draws exactly the samples the decision needs |
| Dropout.UnitExposureNeverDrops | BrowsingSimulator/BrowsingSimulator/BrowsingSession.cs:172-175 | an item shown once with DropFactor 1 never drops out |
| Dropout.LowExposureNeverDrops | BrowsingSimulator/BrowsingSimulator/BrowsingSession.cs:172-175 | no item drops while hitCount * DropFactor is in (0, 1] |
| Dropout.NegativeExposureAlwaysDrops | BrowsingSimulator/BrowsingSimulator/BrowsingSession.cs:172-175 | a negative DropFactor drops every item shown before |
| Dropout.FirstShowNeverDrops | BrowsingSimulator/BrowsingSimulator/BrowsingSession.cs:167-170 | an item never shown is kept and costs no sample |
| Structures.Descriptor.constructor | DescriptorClustering/DescriptorClustering/Structures/Descriptor.cs:22-26 | Descriptor(id, values) stores both |
| Structures.Descriptor.FromValues | DescriptorClustering/DescriptorClustering/Structures/Descriptor.cs:28-32 | Descriptor(values) has id -1 |
| Structures.Descriptor.Multiply | DescriptorClustering/DescriptorClustering/Structures/Descriptor.cs:41-47 | every component is scaled in place |
| Structures.Descriptor.Clone | DescriptorClustering/DescriptorClustering/Structures/Descriptor.cs:87-90 | a new descriptor with the same id and a fresh copy of the values |
| Structures.Zeroed | DescriptorClustering/DescriptorClustering/Structures/Descriptor.cs:34-38 | Descriptor(id, dimension) holds dim zeros; a negative dimension is an allocation failure |
| Structures.Add | DescriptorClustering/DescriptorClustering/Structures/Descriptor.cs:49-63 | operator + throws ArgumentException exactly when the lengths differ; otherwise a new id -1 descriptor holds the sum |
| Structures.GetDistanceSqr | DescriptorClustering/DescriptorClustering/Structures/Descriptor.cs:76-85 | throws IndexOutOfRange exactly when b is shorter than a; otherwise DistanceSqr(a, b), which is non-negative |
| Structures.Vals | DescriptorClustering/DescriptorClustering/Structures/Centroid.cs:52 | the vectors of a list of descriptors, in order |
| Structures.IdsOf | DescriptorClustering/DescriptorClusteringHeuristicCLI/Program.cs:97-108 | the ids of a list of descriptors, in order |
| Structures.Total | DescriptorClustering/DescriptorClustering/Structures/Centroid.cs:51-55 | the summing loop succeeds exactly when all lengths agree (else ArgumentException) and yields SumOf of the vectors |
| Structures.Centroid.constructor | DescriptorClustering/DescriptorClustering/Structures/Centroid.cs:16-21 | Centroid(): id -1, no mean, empty list |
| Structures.Centroid.Seeded | DescriptorClustering/DescriptorClustering/Structures/Centroid.cs:23-28 | Centroid(id, seed): the seed is the mean, the list is empty |
| Structures.Centroid.WithId | DescriptorClustering/DescriptorClustering/Hierarchical/Agglomerative/ClusteringAgglomerative.cs:210 | Centroid(id) as the merge uses it: that id, no mean, empty list |
| Structures.Centroid.AddDescriptorConcurrent | DescriptorClustering/DescriptorClustering/Structures/Centroid.cs:30-36 | one descriptor appended at the end |
| Structures.Centroid.ClearDescriptors | DescriptorClustering/DescriptorClustering/Structures/Centroid.cs:38-41 | the list is emptied |
| Structures.Centroid.AssignClosestDescriptor | DescriptorClustering/DescriptorClustering/Structures/Centroid.cs:64-67 | the mean becomes the given descriptor |
| Structures.Centroid.ComputeMean | DescriptorClustering/DescriptorClustering/Structures/Centroid.cs:43-62 | no descriptors gives a null mean; otherwise it succeeds exactly when the lengths agree and the mean is MeanOf the vectors, with id -1; a failure keeps the old mean |
| Structures.Centroid.Clone | DescriptorClustering/DescriptorClustering/Hierarchical/Agglomerative/ClusteringAgglomerative.cs:171-181 | a new centroid, same id, a cloned mean, the same list |
| Ranking.Insert | BrowsingSimulator/BrowsingSimulator/MLES/MLES.cs:207-208 | inserting one item keeps every distance defined and adds exactly that item |
| Ranking.Rank | BrowsingSimulator/BrowsingSimulator/MLES/MLES.cs:205-208 | Array.Sort(distances, sortedLayer) permutes the candidates |
| Ranking.InsertSorted | BrowsingSimulator/BrowsingSimulator/MLES/MLES.cs:208 | inserting into a ranking sorted by distance keeps it sorted |
| Ranking.RankSorted | BrowsingSimulator/BrowsingSimulator/MLES/MLES.cs:208 | the ranking is ordered by distance to the query, closest first |
| Ranking.Take | BrowsingSimulator/BrowsingSimulator/MLES/MLES.cs:240-243 | the first n items, or all of them when there are fewer |
| Ranking.Walk | BrowsingSimulator/BrowsingSimulator/MLES/MLES.cs:228-245 | the filter loop over the ranking: the items collected so far stay a prefix of the result, and the sample position only moves forward |
| Ranking.WalkExtends | BrowsingSimulator/BrowsingSimulator/MLES/MLES.cs:226-245 | the filtering walk only appends, and only ranked items that are not already used |
| Ranking.WalkBounded | BrowsingSimulator/BrowsingSimulator/MLES/MLES.cs:240-243 | with nResults >= 1 the walk returns at most nResults items |
| Ranking.WalkStopsEarly | BrowsingSimulator/BrowsingSimulator/MLES/MLES.cs:240-243 | stopping at nResults returns the first nResults items of the unlimited walk, and the items after the stop are never put to the drop predicate |
| Ranking.WalkDraws | BrowsingSimulator/BrowsingSimulator/MLES/MLES.cs:228-233 | an unlimited walk puts every ranked item to the drop predicate, already used ones included, and consumes one sample per item shown before |
| Ranking.WalkWithoutDropout | BrowsingSimulator/BrowsingSimulator/MLES/MLES.cs:228-233 | with `item => false` the walk keeps exactly the ranked items not already used, in order, and draws nothing |
| Ranking.WalkSorted | BrowsingSimulator/BrowsingSimulator/MLES/MLES.cs:228-233 | the walk keeps the ranking's order: a sorted ranking gives a sorted result |
| Ranking.SortedDropOne | BrowsingSimulator/BrowsingSimulator/MLES/MLES.cs:230 | leaving one item out of a sorted ranking keeps it sorted |
| Ranking.SortedPrefix | BrowsingSimulator/BrowsingSimulator/MLES/MLES.cs:240-243 | a prefix of a sorted ranking is sorted |
| Ranking.WalkDistinct | BrowsingSimulator/BrowsingSimulator/MLES/MLES.cs:228-233 | a ranking without duplicates gives a result without duplicates |
| CacheFormat.ReadIds | BrowsingSimulator/BrowsingSimulator/MLES/MLES.cs:345-349 | reading one entry gives `length` words, each a dataset index; a short file is EndOfStream and a bad id IndexOutOfRange |
| CacheFormat.DecodeEncodedEntries | BrowsingSimulator/BrowsingSimulator/MLES/MLES.cs:316-324 | the entries SaveCache writes, read back by LoadCache's loop, add exactly those entries |
| CacheFormat.DecodeEncoded | BrowsingSimulator/BrowsingSimulator/MLES/MLES.cs:302-353 | SaveCache followed by LoadCache reproduces the cache and its entry length, in whatever key order the dictionary enumerates |
| CacheFormat.EncodeEntriesSnoc | BrowsingSimulator/BrowsingSimulator/MLES/MLES.cs:316-324 | writing one more entry appends its key and its ids |
| CacheFormat.DecodeEntriesFit | BrowsingSimulator/BrowsingSimulator/MLES/MLES.cs:339-351 | a loaded cache holds only entries of the stated length made of dataset ids |
| CacheFormat.ReadIdsOfFitting | BrowsingSimulator/BrowsingSimulator/MLES/MLES.cs:346-349 | ids that are all dataset indices are read back unchanged |
| CacheFormat.DistinctCardinality | BrowsingSimulator/BrowsingSimulator/MLES/MLES.cs:313 | the count written first equals the number of distinct keys enumerated |
| KnnSearch.CandidateItems | BrowsingSimulator/BrowsingSimulator/MLES/MLES.cs:161-176 | Layers[layerId] for a layer index (IndexOutOfRange outside the layers), the given set otherwise |
| KnnSearch.CachedItems | BrowsingSimulator/BrowsingSimulator/MLES/MLES.cs:186 | a cache hit lists the dataset items of the entry, in order |
| KnnSearch.Ranked | BrowsingSimulator/BrowsingSimulator/MLES/MLES.cs:183-208 | a cache hit walks the entry; otherwise the ranking exists exactly when every candidate is at least as long as the query (else IndexOutOfRange) and is a permutation of the candidates sorted by distance |
| KnnSearch.StoreRanking | BrowsingSimulator/BrowsingSimulator/MLES/MLES.cs:210-223 | a negative entry length fails to allocate, an out-of-memory allocation empties the cache, a ranking shorter than the entry fails the copy; otherwise only the query's key is added (TryAdd keeps an existing entry) with the ids of the first `length` ranked items |
| KnnSearch.Search | BrowsingSimulator/BrowsingSimulator/MLES/MLES.cs:178-246 | one SearchKNN call: a failed search leaves the cache and the sample position as they were, and no search moves the sample position back |
| KnnSearch.SearchFindsNearest | BrowsingSimulator/BrowsingSimulator/MLES/MLES.cs:178-246 | a computed search returns candidates only, none already used, at most nResults when positive, nearest first, and no duplicates when the candidates have none |
| KnnSearch.PermutationKeepsDistinct | BrowsingSimulator/BrowsingSimulator/MLES/MLES.cs:207-208 | sorting a list without duplicates leaves none |
| KnnSearch.DistinctCount | BrowsingSimulator/BrowsingSimulator/MLES/MLES.cs:228-233 | in a list without duplicates each item occurs at most once |
| KnnSearch.SearchWithoutDropout | BrowsingSimulator/BrowsingSimulator/MLES/MLES.cs:166-169 | with `item => false` a computed search returns the first nResults candidates not already used, nearest first, and draws no sample |
| KnnSearch.WalkNoDropoutDrawsNothing | BrowsingSimulator/BrowsingSimulator/MLES/MLES.cs:230 | a walk with `item => false` draws no sample |
| KnnSearch.SearchHitUsesEntry | BrowsingSimulator/BrowsingSimulator/MLES/MLES.cs:184-190 | a cache hit returns items of the cached entry only, none already used, at most nResults when positive |
| KnnSearch.RankedIdsInRange | BrowsingSimulator/BrowsingSimulator/MLES/MLES.cs:207-216 | a ranking of the dataset lists dataset ids only |
| KnnSearch.StoreRankingFits | BrowsingSimulator/BrowsingSimulator/MLES/MLES.cs:214-216 | storing keeps every entry a list of `length` dataset ids |
| KnnSearch.SearchKeepsCacheFit | BrowsingSimulator/BrowsingSimulator/MLES/MLES.cs:210-223 | a search keeps every cache entry a list of `length` dataset ids, and a newly stored entry holds the ids of the query's nearest dataset items in ranking order |
| Mles.FirstWithId | BrowsingSimulator/BrowsingSimulator/MLES/MLES.cs:119 | `Where(item => item.Id == id).First()` is the first position holding that id, none when there is none |
| Mles.TestLayerChildrenCount | BrowsingSimulator/BrowsingSimulator/MLES/MLES.cs:131-143 | the check passes exactly when the summed member counts equal the expected count, else ArgumentException |
| Mles.ComputeDistances | BrowsingSimulator/BrowsingSimulator/MLES/MLES.cs:248-256 | every candidate's squared distance to the query, or IndexOutOfRange exactly when some candidate is shorter than the query |
| Mles.FilterResults | BrowsingSimulator/BrowsingSimulator/MLES/MLES.cs:226-245 | the filter loop returns the walk's result and consumes exactly the walk's samples |
| Mles.StackStep | BrowsingSimulator/BrowsingSimulator/MLES/MLES.cs:91-128 | one pass of FillLayers moves a layer from those still to build to those built |
| Mles.Mles.constructor | BrowsingSimulator/BrowsingSimulator/MLES/MLES.cs:31-34 | FillDataset with caching set up: an empty cache, entry length 1000 |
| Mles.Mles.FillDataset | BrowsingSimulator/BrowsingSimulator/MLES/MLES.cs:76-83 | item i has id and local id i, descriptor i, no children and no parent |
| Mles.Mles.ResolveClusterItems | BrowsingSimulator/BrowsingSimulator/MLES/MLES.cs:105-121 | the members of one cluster as positions in the layer below: direct dataset indices on the bottom layer, the first item with that id elsewhere, and the failure of a missing one |
| Mles.Mles.LayerStepPrefixErr | BrowsingSimulator/BrowsingSimulator/MLES/MLES.cs:98-127 | a failure among the first clusters is the failure of the whole layer |
| Mles.Mles.SetClusterParents | BrowsingSimulator/BrowsingSimulator/MLES/MLES.cs:123-126 | SetParentItem on every member in order: only their parents change |
| Mles.Mles.NewClusterItem | BrowsingSimulator/BrowsingSimulator/MLES/MLES.cs:101-122 | cluster j's item: the global id, local id j, the dataset descriptor of that id and the resolved members |
| Mles.Mles.AddCluster | BrowsingSimulator/BrowsingSimulator/MLES/MLES.cs:100-126 | cluster j's item goes to layer[j] and becomes its members' parent; nothing else changes |
| Mles.Mles.BuildLayer | BrowsingSimulator/BrowsingSimulator/MLES/MLES.cs:94-127 | a new layer over `below`, whose parent links it sets and nothing else of `below` changes |
| Mles.Mles.BuildAllLayers | BrowsingSimulator/BrowsingSimulator/MLES/MLES.cs:87-128 | the arrays of layers 0 .. n built bottom-up, the dataset array last and every other one new, with the contents BuildLayers gives |
| Mles.Mles.RaiseLayer | BrowsingSimulator/BrowsingSimulator/MLES/MLES.cs:91-128 | one pass of FillLayers' loop keeps the arrays built so far and puts the new layer in front |
| Mles.Mles.Descend | BrowsingSimulator/BrowsingSimulator/MLES/MLES.cs:94-127 | one pass of FillLayers' loop: the layer above `below`, with below's parents set |
| Mles.Mles.FillLayers | BrowsingSimulator/BrowsingSimulator/MLES/MLES.cs:85-129 | succeeds exactly when BuildLayers does and then leaves a Valid object; otherwise it raises BuildLayers' error |
| Mles.Mles.CachedRanking | BrowsingSimulator/BrowsingSimulator/MLES/MLES.cs:186 | the dataset items the cache entry lists |
| Mles.Mles.StoreInCache | BrowsingSimulator/BrowsingSimulator/MLES/MLES.cs:210-223 | the cache after the store is StoreRanking's, with one more allocation attempt for a non-negative entry length |
| Mles.Mles.SelectCandidates | BrowsingSimulator/BrowsingSimulator/MLES/MLES.cs:161-176 | Layers[layerId] or the given set, and whether it is the dataset array |
| Mles.Mles.RankCandidates | BrowsingSimulator/BrowsingSimulator/MLES/MLES.cs:181-224 | the ranking a search walks is Ranked's |
| Mles.Mles.SearchIn | BrowsingSimulator/BrowsingSimulator/MLES/MLES.cs:178-246 | the body of SearchKNN returns Search's result and leaves Search's cache, attempts and sample position |
| Mles.Mles.SearchKNN | BrowsingSimulator/BrowsingSimulator/MLES/MLES.cs:161-246 | all four overloads: the result and new state are Search's, and the object stays Valid with the same layers |
| Mles.Mles.DatasetShape | BrowsingSimulator/BrowsingSimulator/MLES/MLES.cs:87-88 | a Valid MLES has the dataset as its last layer, with ids equal to positions |
| Mles.Mles.ValidLinked | BrowsingSimulator/BrowsingSimulator/MLES/MLES.cs:122-126 | the layers of a Valid MLES are linked by parents, the top layer unlinked |
| Mles.Mles.CheckParents | BrowsingSimulator/BrowsingSimulator/MLES/MLES.cs:147-157 | the check of one item follows the parent links and expects none after |
| Mles.Mles.TestLayerParent | BrowsingSimulator/BrowsingSimulator/MLES/MLES.cs:145-159 | every item of the layer in turn, the first failure thrown |
| Mles.Mles.SaveCache | BrowsingSimulator/BrowsingSimulator/MLES/MLES.cs:302-326 | nothing when caching is off; otherwise the entry count, the entry length and every entry in some key order, which LoadCache reads back into this cache |
| Mles.Mles.Dispose | BrowsingSimulator/BrowsingSimulator/MLES/MLES.cs:355-358 | Dispose saves the cache |
| Mles.Mles.ReadEntry | BrowsingSimulator/BrowsingSimulator/MLES/MLES.cs:345-349 | the ids of one entry as ReadIds reads them |
| Mles.Mles.LoadCache | BrowsingSimulator/BrowsingSimulator/MLES/MLES.cs:328-353 | nothing when caching is off or the file is missing; otherwise the entry length is replaced and the entries Decode reads are added |
| Mles.NewMles | BrowsingSimulator/BrowsingSimulator/MLES/MLES.cs:31-52 | new MLES in a Release build fails with the first error FillLayers or LoadCache raises, and otherwise is Valid with fitting cache entries |
| Mles.DecodeFits | BrowsingSimulator/BrowsingSimulator/MLES/MLES.cs:339-351 | a loaded cache has entries of the length read, each a dataset id |
| Hierarchy.DatasetItems | BrowsingSimulator/BrowsingSimulator/MLES/MLES.cs:76-83 | item i of the dataset has id and local id i, descriptor i, no children and no parent |
| Hierarchy.FirstIndex | BrowsingSimulator/BrowsingSimulator/MLES/MLES.cs:119 | the first position holding the id, and none exactly when the id is absent |
| Hierarchy.FirstIndexOfRange | BrowsingSimulator/BrowsingSimulator/MLES/MLES.cs:110-119 | over the dataset ids, looking an id up finds that index exactly when it is in range |
| Hierarchy.ResolveMembers | BrowsingSimulator/BrowsingSimulator/MLES/MLES.cs:105-121 | resolves exactly when every member id occurs in the layer below, each to its first position; otherwise IndexOutOfRange on the bottom layer, InvalidOperation above |
| Hierarchy.SetParents | BrowsingSimulator/BrowsingSimulator/MLES/MLES.cs:123-126 | every listed child gets parent p, every other item is unchanged |
| Hierarchy.LastParent | BrowsingSimulator/BrowsingSimulator/MLES/MLES.cs:123-126 | the last item of the upper layer listing j as a child, none when no item lists it |
| Hierarchy.LayerStep | BrowsingSimulator/BrowsingSimulator/MLES/MLES.cs:94-127 | one pass of the outer loop keeps the size of the layer below |
| Hierarchy.MakeItem | BrowsingSimulator/BrowsingSimulator/MLES/MLES.cs:101-122 | a built cluster item lists only positions of the layer below |
| Hierarchy.LayerStepSpec | BrowsingSimulator/BrowsingSimulator/MLES/MLES.cs:94-127 | one pass builds exactly when every cluster resolves; the new items are the table's clusters without parents, and each position below gets as parent the last cluster listing it |
| Hierarchy.ParentsFromKeepsIds | BrowsingSimulator/BrowsingSimulator/MLES/MLES.cs:28-29 | setting parent links leaves the ids of a layer unchanged |
| Hierarchy.LastParentOfChildren | BrowsingSimulator/BrowsingSimulator/MLES/MLES.cs:123-126 | the parent found for a position depends only on the items' children |
| Hierarchy.RealizedIds | BrowsingSimulator/BrowsingSimulator/MLES/MLES.cs:101-104 | a built layer has the representatives' ids in table order |
| Hierarchy.BuildFromSpec | BrowsingSimulator/BrowsingSimulator/MLES/MLES.cs:85-129 | building layers 0 .. k succeeds exactly when every clustering layer resolves against the layer below, and then each layer is its table over the layer below with parent links to the last listing cluster and an unlinked top layer |
| Hierarchy.BuildLayersSpec | BrowsingSimulator/BrowsingSimulator/MLES/MLES.cs:85-129 | FillLayers succeeds exactly when the tables resolve over the dataset; it then yields one layer per table plus the dataset last, linked by parents, top layer unlinked, dataset items unchanged but for parents |
| Hierarchy.Climb | BrowsingSimulator/BrowsingSimulator/MLES/MLES.cs:150-154 | following `steps` parent links from an item reaches an item of the layer that many above, when it reaches one |
| Hierarchy.ClimbStopsAtMissingLink | BrowsingSimulator/BrowsingSimulator/MLES/MLES.cs:150-154 | once a link is missing, following more links reaches nothing |
| Hierarchy.LayerCheckAll | BrowsingSimulator/BrowsingSimulator/MLES/MLES.cs:145-159 | TestLayerParent passes exactly when every item's check does, and fails otherwise with some item's error |
| Hierarchy.LayerCheckAtDepth | BrowsingSimulator/BrowsingSimulator/MLES/MLES.cs:145-159 | with the top layer unlinked, checking layer k with k expected parents passes exactly when every item of layer k reaches the top by k links |
| Hierarchy.TooManyParentsFails | BrowsingSimulator/BrowsingSimulator/MLES/MLES.cs:150-154 | expecting more parents than there are layers above fails on any item with NullReference |
| Hierarchy.CoveredClimbs | BrowsingSimulator/BrowsingSimulator/MLES/MLES.cs:150-154 | when every item of layers 1 .. k has a parent, every item of layer k reaches the top by k links |
| Hierarchy.CoveredLayerPasses | BrowsingSimulator/BrowsingSimulator/MLES/MLES.cs:145-159 | with every item of layers 1 .. k linked and the top layer unlinked, TestLayerParent(Layers[k], k) passes |
| Hierarchy.BuiltLinked | BrowsingSimulator/BrowsingSimulator/MLES/MLES.cs:85-129 | the layers FillLayers builds are linked, with the top layer unlinked |
| TopK.Offer | BrowsingSimulator/BrowsingSimulatorCLI/FeatureReader.cs:279-303 | the buffer after one scanned feature is Offered's: an empty buffer takes it; with room or a closer distance than the last match it goes before the first match not closer, and a match beyond kResults drops off the end; otherwise nothing changes |
| TopK.OfferedLength | BrowsingSimulator/BrowsingSimulatorCLI/FeatureReader.cs:279-303 | offering never shrinks the buffer, grows it by at most one, and never past max(kResults, 1) |
| TopK.InsertRanked | BrowsingSimulator/BrowsingSimulatorCLI/FeatureReader.cs:285-297 | inserting the newest candidate at its walk position keeps the buffer in ascending distance |
| TopK.DropLastRanked | BrowsingSimulator/BrowsingSimulatorCLI/FeatureReader.cs:299-302 | RemoveLast keeps the buffer ranked |
| TopK.LastFarthest | BrowsingSimulator/BrowsingSimulatorCLI/FeatureReader.cs:283 | the last match of a ranked buffer is no closer than any other |
| TopK.OfferFirst | BrowsingSimulator/BrowsingSimulatorCLI/FeatureReader.cs:279-282 | the first feature offered to an empty buffer makes it the best of the features seen |
| TopK.OfferSkipped | BrowsingSimulator/BrowsingSimulatorCLI/FeatureReader.cs:283 | a feature not closer than the last match of a full buffer leaves it the best |
| TopK.InsertedCandidates | BrowsingSimulator/BrowsingSimulatorCLI/FeatureReader.cs:285-297 | after an insertion the buffer holds candidates only, and every candidate seen is in it or was in the buffer before |
| TopK.OfferGrows | BrowsingSimulator/BrowsingSimulatorCLI/FeatureReader.cs:283-297 | a feature offered to a buffer below kResults matches is inserted and the buffer grows by one |
| TopK.KeptAfterInsert | BrowsingSimulator/BrowsingSimulatorCLI/FeatureReader.cs:290-297 | inserting keeps every match already in the buffer |
| TopK.OfferReplaces | BrowsingSimulator/BrowsingSimulatorCLI/FeatureReader.cs:283-302 | a closer feature offered to a full buffer replaces its last match |
| TopK.ReplacedCovers | BrowsingSimulator/BrowsingSimulatorCLI/FeatureReader.cs:299-302 | after a replacement every candidate left out is no closer than the new last match |
| TopK.KeptAfterReplace | BrowsingSimulator/BrowsingSimulatorCLI/FeatureReader.cs:299-302 | every match before the last survives an insertion that drops the last one |
| TopK.OfferKeepsBest | BrowsingSimulator/BrowsingSimulatorCLI/FeatureReader.cs:270-304 | each offer keeps the buffer ranked and holding the best min(seen, capacity) features seen so far |
| TopK.OfferAllBest | BrowsingSimulator/BrowsingSimulatorCLI/FeatureReader.cs:270-304 | offering the features in id order to an empty buffer leaves it ranked and holding the best min(seen, capacity) of them |
| TopK.TieKeepsEarlier | BrowsingSimulator/BrowsingSimulatorCLI/FeatureReader.cs:283 | at the cut-off the earlier feature wins: a full buffer does not take a feature at the same distance as its last match |
| TopK.BestDominates | BrowsingSimulator/BrowsingSimulatorCLI/FeatureReader.cs:264-307 | every feature left out of the result is no closer than every match kept |
| Features.HeaderRead | BrowsingSimulator/BrowsingSimulatorCLI/FeatureReader.cs:74-141 | the header is read exactly when the file holds enough int32 values and no negative count (else Overflow or EndOfStream); each table has its count's length, and the data start is a block boundary past the metadata, or 8 without metadata |
| Features.HeaderTables | BrowsingSimulator/BrowsingSimulatorCLI/FeatureReader.cs:97-121 | the six tables hold the file's int32 values in order right after the four counts |
| Features.MagicIgnored | BrowsingSimulator/BrowsingSimulatorCLI/FeatureReader.cs:78 | the 16-char magic is read but never compared: any magic reads the same header |
| Features.Window | BrowsingSimulator/BrowsingSimulatorCLI/FeatureReader.cs:146-148 | the floats read for len features, zero-padded where the file ends |
| Features.Chunk | BrowsingSimulator/BrowsingSimulatorCLI/FeatureReader.cs:273-275 | the floats FindSimilar reads for feature i: at most dim of them |
| Features.Candidates | BrowsingSimulator/BrowsingSimulatorCLI/FeatureReader.cs:270-278 | one match per scanned feature, in scan order |
| Features.CandidateAt | BrowsingSimulator/BrowsingSimulatorCLI/FeatureReader.cs:281 | candidate j carries id j and its own floats and distance |
| Features.ChunkFull | BrowsingSimulator/BrowsingSimulatorCLI/FeatureReader.cs:273-275 | feature i has all its dim floats exactly when the data reaches past its end |
| Features.EndsInOrder | BrowsingSimulator/BrowsingSimulatorCLI/FeatureReader.cs:270-273 | a later feature ends no earlier in the data |
| Features.ReadFeatures | BrowsingSimulator/BrowsingSimulatorCLI/FeatureReader.cs:143-151 | a seek before the start fails with an IO error, a negative dimension with a bad length; otherwise dim floats |
| Features.FeatureReader.constructor | BrowsingSimulator/BrowsingSimulatorCLI/FeatureReader.cs:61-66 | the reader's fields hold the header it is given |
| Features.FeatureReader.ReadHeader | BrowsingSimulator/BrowsingSimulatorCLI/FeatureReader.cs:74-141 | the header read is HeaderOf's, whose properties HeaderRead states |
| Features.FeatureReader.Open | BrowsingSimulator/BrowsingSimulatorCLI/FeatureReader.cs:61-66 | the constructor succeeds exactly when the header reads, with its fields set from it, and otherwise raises the header's exception |
| Features.FeatureReader.GetFeatures | BrowsingSimulator/BrowsingSimulatorCLI/FeatureReader.cs:143-151 | a feature read succeeds with exactly FeatureDimension floats |
| Features.FeatureReader.FeaturesAt | BrowsingSimulator/BrowsingSimulatorCLI/FeatureReader.cs:143-151 | a feature whose floats lie in the data reads as exactly those dim floats, from position id·dim |
| Features.FeatureReader.GetFeatureId | BrowsingSimulator/BrowsingSimulatorCLI/FeatureReader.cs:203-208 | the shot's offset in the shot table plus the frame, IndexOutOfRange outside the tables, NullReference without metadata |
| Features.FeatureReader.GetFeatureCount | BrowsingSimulator/BrowsingSimulatorCLI/FeatureReader.cs:210-220 | FeatureCount minus the offset for the last video, the next offset minus this one otherwise; an error outside the table or without metadata |
| Features.FeatureReader.GetShotCount | BrowsingSimulator/BrowsingSimulatorCLI/FeatureReader.cs:250-261 | the same last-vs-next pattern over the video-shot offsets and ShotCount |
| Features.FeatureReader.GetShotFeatureCount | BrowsingSimulator/BrowsingSimulatorCLI/FeatureReader.cs:222-248 | the code as written: ShotSpanAsWritten, NullReference without metadata |
| Features.FeatureReader.FindSimilar | BrowsingSimulator/BrowsingSimulatorCLI/FeatureReader.cs:264-307 | fails with the query read's error, or IndexOutOfRange when the data holds fewer than FeatureCount features; otherwise exactly the buffer left by offering every feature in id order (so ties at the cut-off keep the earlier feature), which is the best max(kResults, 1) of all features, nearest first |
| Features.Scan | BrowsingSimulator/BrowsingSimulatorCLI/FeatureReader.cs:269-304 | the scan succeeds exactly when every feature is complete, and then returns the buffer left by offering the features in id order, which is the best of all features, ranked |
| Features.ScanFeature | BrowsingSimulator/BrowsingSimulatorCLI/FeatureReader.cs:273-303 | one feature: it fits exactly when its floats are all in the data, and then the buffer becomes the one left by offering the features up to and including it |
| Features.FeatureIdWithinShot | BrowsingSimulator/BrowsingSimulatorCLI/FeatureReader.cs:203-248 | a frame inside a shot's count has a feature id inside the shot's span of the feature table |
| Offsets.Ints | BrowsingSimulator/BrowsingSimulatorCLI/FeatureReader.cs:97-121 | the count int32 values from a position on, in read order |
| Offsets.IntsAt | BrowsingSimulator/BrowsingSimulatorCLI/FeatureReader.cs:97-121 | each value read is the file's value at its position |
| Offsets.ReadInts | BrowsingSimulator/BrowsingSimulatorCLI/FeatureReader.cs:97-100 | the fill loop reads exactly Ints' values |
| Offsets.TablesLayout | BrowsingSimulator/BrowsingSimulatorCLI/FeatureReader.cs:97-121 | each table is the run of values right after the one before, of its count's length |
| Offsets.ReadTables | BrowsingSimulator/BrowsingSimulatorCLI/FeatureReader.cs:97-121 | the table loops read exactly TablesAt's tables |
| Offsets.StartAligned | BrowsingSimulator/BrowsingSimulatorCLI/FeatureReader.cs:123-136 | the data start is a multiple of 4096 strictly after the metadata and at most one block later |
| Offsets.AlignedSizeSkipsBlock | BrowsingSimulator/BrowsingSimulatorCLI/FeatureReader.cs:135 | an already aligned metadata size still moves the start a whole block on |
| Offsets.At | BrowsingSimulator/BrowsingSimulatorCLI/FeatureReader.cs:190 | a[i], or IndexOutOfRange |
| Offsets.Span | BrowsingSimulator/BrowsingSimulatorCLI/FeatureReader.cs:210-220 | total minus the offset for the last entry, the next offset minus this one otherwise, IndexOutOfRange outside the table |
| Offsets.SpansCover | BrowsingSimulator/BrowsingSimulatorCLI/FeatureReader.cs:210-220 | the spans telescope: the first n cover up to the next offset, all of them up to total |
| Offsets.SkipAsWritten | BrowsingSimulator/BrowsingSimulatorCLI/FeatureReader.cs:234-238 | the skip reads the entry before comparing with the length: it stops at the first entry not -1 or fails with IndexOutOfRange |
| Offsets.ShotSpanAsWritten | BrowsingSimulator/BrowsingSimulatorCLI/FeatureReader.cs:222-248 | 0 for a shot without an offset, otherwise the distance to the next shot with an offset, failing where the skip overruns |
| Offsets.CountShot | BrowsingSimulator/BrowsingSimulatorCLI/FeatureReader.cs:222-248 | the walk computes ShotSpanAsWritten |
| Offsets.Skip | BrowsingSimulator/BrowsingSimulatorCLI/FeatureReader.cs:234-238 | the first entry at or after n that is not -1, or the table's length |
| Offsets.ShotSpanDefined | BrowsingSimulator/BrowsingSimulatorCLI/FeatureReader.cs:222-248 | the intended count never fails on a shot inside the table: 0 without an offset, else up to the next offset or the total |
| Offsets.SkipAgrees | BrowsingSimulator/BrowsingSimulatorCLI/FeatureReader.cs:234-238 | where a later entry is not -1 the skip as written finds the same entry as Skip |
| Offsets.SkipOverruns | BrowsingSimulator/BrowsingSimulatorCLI/FeatureReader.cs:235 | with only -1 entries after n the skip as written fails with IndexOutOfRange |
| Offsets.ShotSpanAgrees | BrowsingSimulator/BrowsingSimulatorCLI/FeatureReader.cs:222-248 | as written and intended agree on every shot except one with an offset and only empty shots after it |
| Offsets.LastShotOverruns | BrowsingSimulator/BrowsingSimulatorCLI/FeatureReader.cs:235 | the last shot of the table with an offset should count up to the total but raises IndexOutOfRange as written |
| Bitmaps.LayoutRead | BrowsingSimulator/SessionLogViewerApp/BitmapReader.cs:49-103 | the header is read exactly when the file holds enough int32 values and no negative count; each table has its count's length, the data start is a 4096 boundary past the metadata, and a bitmap is width·height·3 bytes |
| Bitmaps.LayoutTables | BrowsingSimulator/SessionLogViewerApp/BitmapReader.cs:67-91 | the six tables hold the file's int32 values in order right after the six counts |
| Bitmaps.HeaderTextIgnored | BrowsingSimulator/SessionLogViewerApp/BitmapReader.cs:51 | the header text is read but never compared: any text reads the same layout |
| Bitmaps.ReadBytes | BrowsingSimulator/SessionLogViewerApp/BitmapReader.cs:118 | a read needs a non-negative count at or after the data start, and returns the bytes there, fewer only where the file ends |
| Bitmaps.CopyBitmap | BrowsingSimulator/SessionLogViewerApp/BitmapReader.cs:118-121 | the copy succeeds exactly when the file holds all size bytes at the position, and then holds exactly those bytes |
| Bitmaps.BitmapReader.constructor | BrowsingSimulator/SessionLogViewerApp/BitmapReader.cs:37-41 | the reader's fields hold the layout it is given |
| Bitmaps.BitmapReader.ReadHeader | BrowsingSimulator/SessionLogViewerApp/BitmapReader.cs:49-103 | the layout read is LayoutOf's, whose properties LayoutRead states |
| Bitmaps.BitmapReader.Open | BrowsingSimulator/SessionLogViewerApp/BitmapReader.cs:37-41 | the constructor succeeds exactly when the header reads, its fields set from it, and otherwise raises the header's exception |
| Bitmaps.BitmapReader.ReadFrame | BrowsingSimulator/SessionLogViewerApp/BitmapReader.cs:106-127 | a frame is read from start + frameId·bitmapSize: it succeeds exactly when width and height are positive, the position is not before the file start and the file holds bitmapSize bytes there, and then holds exactly those bytes; otherwise Argument, IO or the copy's ArgumentOutOfRange |
| Bitmaps.BitmapReader.FramesAt | BrowsingSimulator/SessionLogViewerApp/BitmapReader.cs:129-186 | frames read in a row succeed exactly when each frame reads on its own, hold those frames in order, and otherwise fail with the error of a frame that does not read |
| Bitmaps.BitmapReader.FramesStop | BrowsingSimulator/SessionLogViewerApp/BitmapReader.cs:135-153 | a run stops at its first frame that cannot be read, with that frame's error |
| Bitmaps.BitmapReader.ReadRun | BrowsingSimulator/SessionLogViewerApp/BitmapReader.cs:134-153 | the seek then the loop: an IO error before the file start, otherwise the frames read in a row |
| Bitmaps.BitmapReader.GetFrameCount | BrowsingSimulator/SessionLogViewerApp/BitmapReader.cs:228-238 | FrameCount minus the offset for the last video, the next offset minus this one otherwise, IndexOutOfRange outside the table |
| Bitmaps.BitmapReader.GetShotCount | BrowsingSimulator/SessionLogViewerApp/BitmapReader.cs:268-279 | the same last-vs-next pattern over the video-shot offsets and ShotCount |
| Bitmaps.BitmapReader.GetShotFrameCount | BrowsingSimulator/SessionLogViewerApp/BitmapReader.cs:240-266 | the code as written: ShotSpanAsWritten over the frame tables |
| Bitmaps.BitmapReader.GetGlobalFrameId | BrowsingSimulator/SessionLogViewerApp/BitmapReader.cs:210-214 | the video's first frame plus the frame, IndexOutOfRange outside the table |
| Bitmaps.BitmapReader.GetGlobalShotFrameId | BrowsingSimulator/SessionLogViewerApp/BitmapReader.cs:216-220 | the video's first shot entry plus the shot, IndexOutOfRange outside the table |
| Bitmaps.BitmapReader.GetGlobalVideoFrameId | BrowsingSimulator/SessionLogViewerApp/BitmapReader.cs:222-225 | the video's first frame, IndexOutOfRange outside the table |
| Bitmaps.BitmapReader.GetVideoId | BrowsingSimulator/SessionLogViewerApp/BitmapReader.cs:189-192 | the frame's video, exactly when the id is inside the table |
| Bitmaps.BitmapReader.GetShotId | BrowsingSimulator/SessionLogViewerApp/BitmapReader.cs:194-197 | the frame's shot, exactly when the id is inside the table |
| Bitmaps.BitmapReader.GetVideoFrameId | BrowsingSimulator/SessionLogViewerApp/BitmapReader.cs:204-207 | the frame's position in its video, exactly when the id is inside the table |
| Bitmaps.BitmapReader.GetVideoShotId | BrowsingSimulator/SessionLogViewerApp/BitmapReader.cs:199-202 | the shot of the video's frame through its global id, exactly when both lookups are in range |
| Bitmaps.BitmapReader.ReadVideo | BrowsingSimulator/SessionLogViewerApp/BitmapReader.cs:129-155 | ReadVideo returns VideoFrames' result |
| Bitmaps.BitmapReader.VideoReadsFrames | BrowsingSimulator/SessionLogViewerApp/BitmapReader.cs:129-155 | a video read holds GetFrameCount frames, frame i the frame at the video's global frame id i |
| Bitmaps.BitmapReader.ReadShot | BrowsingSimulator/SessionLogViewerApp/BitmapReader.cs:157-186 | ReadShot returns ShotFrames' result, as written |
| Bitmaps.BitmapReader.ShotReadsFrames | BrowsingSimulator/SessionLogViewerApp/BitmapReader.cs:157-186 | a shot read holds its count of frames, frame i the frame at the shot's offset plus i |
| Bitmaps.BitmapReader.EmptyShotSeekFails | BrowsingSimulator/SessionLogViewerApp/BitmapReader.cs:162-165 | a shot without frames seeks one bitmap before the data start and fails with an IO error where the intended read returns no frames |
| Bitmaps.BitmapReader.ShotFramesIntendedAgrees | BrowsingSimulator/SessionLogViewerApp/BitmapReader.cs:157-186 | the intended read returns no frames exactly for a shot with none, and agrees with ReadShot on every shot that has frames |
| Bitmaps.BitmapReader.FrameWithinVideo | BrowsingSimulator/SessionLogViewerApp/BitmapReader.cs:210-238 | a frame within a video's count has a global id inside the video's span of the frame table |
| Simulator.Run | BrowsingSimulator/BrowsingSimulator/BrowsingSimulator.cs:43-48 | the do-while run: a completed run advanced BrowsingDepth and stopped at maxBrowsingDepth or with the searched item displayed |
| Simulator.RunStops | BrowsingSimulator/BrowsingSimulator/BrowsingSimulator.cs:43-48 | a completed run took at least one step, logged one entry per step and stopped at the first depth reaching maxBrowsingDepth or showing the searched item, so from depth 0 it ends in [1, max(1, maxBrowsingDepth)] |
| Simulator.RunFinishes | BrowsingSimulator/BrowsingSimulator/BrowsingSimulator.cs:43-48 | a completed run from a new session leaves it Finished |
| Simulator.RunSession | BrowsingSimulator/BrowsingSimulator/BrowsingSimulator.cs:43-48 | the do-while loop leaves the session in Run's state with Run's outcome, and the index unchanged |
| Simulator.RunNewSession | BrowsingSimulator/BrowsingSimulator/BrowsingSimulator.cs:34-56 | a session run to completion is Finished, the index unchanged |
| Simulator.MaxIn | BrowsingSimulator/BrowsingSimulator/BrowsingSimulator.cs:165-172 | the largest of the first n depths: at least 0, no smaller than any of them, and one of them unless 0 |
| Simulator.MaxDepth | BrowsingSimulator/BrowsingSimulator/BrowsingSimulator.cs:165-172 | the largest final depth, 0 for no sessions, attained by some session unless 0 |
| Simulator.TruesIn | BrowsingSimulator/BrowsingSimulator/BrowsingSimulator.cs:180-183 | at most n of the first n flags are counted |
| Simulator.Trues | BrowsingSimulator/BrowsingSimulator/BrowsingSimulator.cs:176-184 | the found count is at most the number of sessions |
| Simulator.AllDeepInMeans | BrowsingSimulator/BrowsingSimulator/BrowsingSimulator.cs:179 | every one of the first n sessions has a bucket exactly when its depth is at least 1 |
| Simulator.BucketTotalStep | BrowsingSimulator/BrowsingSimulator/BrowsingSimulator.cs:177-184 | one more session adds one to the buckets exactly when its depth is in 1 .. m |
| Simulator.BucketTotalEmpty | BrowsingSimulator/BrowsingSimulator/BrowsingSimulator.cs:175 | a new histogram counts nothing |
| Simulator.BucketsCountAll | BrowsingSimulator/BrowsingSimulator/BrowsingSimulator.cs:175-184 | with every depth in 1 .. m the buckets together count every session once |
| Simulator.HistogramHeaderReads | BrowsingSimulator/BrowsingSimulator/BrowsingSimulator.cs:191 | the histogram's first line splits on '/' into the found count and the session count, each reading back |
| Simulator.SessionFileNamesDiffer | BrowsingSimulator/BrowsingSimulator/BrowsingSimulator.cs:96 | different session ids give different log file names |
| Simulator.PaddedIds | BrowsingSimulator/BrowsingSimulator/BrowsingSimulator.cs:146-155 | the display ids, six digits each, in display order |
| Simulator.DisplayFieldsClean | BrowsingSimulator/BrowsingSimulator/BrowsingSimulator.cs:133-158 | no field of a display line holds ';' when the distance text does not |
| Simulator.DepthFieldsClean | BrowsingSimulator/BrowsingSimulator/BrowsingSimulator.cs:135-139 | the id and depth fields hold no ';' |
| Simulator.ItemFieldsClean | BrowsingSimulator/BrowsingSimulator/BrowsingSimulator.cs:141-155 | the selected item, distance and display fields hold no ';' |
| Simulator.DisplayIdsClean | BrowsingSimulator/BrowsingSimulator/BrowsingSimulator.cs:146-155 | the joined display ids hold no ';' |
| Simulator.DisplayIdsRead | BrowsingSimulator/BrowsingSimulator/BrowsingSimulator.cs:146-155 | the display field splits on ':' into the display's ids, each reading back |
| Simulator.DisplayLineReads | BrowsingSimulator/BrowsingSimulator/BrowsingSimulator.cs:133-158 | a display line splits on ';' into its six fields, the last listing the display's ids in order |
| Text.JoinKeepsOut | BrowsingSimulator/BrowsingSimulator/BrowsingSimulator.cs:146-155 | a character absent from every part and other than the separator is absent from the join |
| Simulator.MlesPath | BrowsingSimulator/BrowsingSimulator/BrowsingSimulator.cs:125-128 | the path exists exactly when the item reaches two layers up, else NullReference; it then has three layer-local ids |
| Simulator.SessionLogLines | BrowsingSimulator/BrowsingSimulator/BrowsingSimulator.cs:92-107 | the log file is the session line followed by one display line per log entry, in order |
| Simulator.SeparateSnoc | BrowsingSimulator/BrowsingSimulator/BrowsingSimulator.cs:66-74 | a new session with a new generator keeps the sessions separate objects |
| Simulator.DepthsOf | BrowsingSimulator/BrowsingSimulator/BrowsingSimulator.cs:166-172 | the sessions' final depths, in order |
| Simulator.FoundsOf | BrowsingSimulator/BrowsingSimulator/BrowsingSimulator.cs:180 | whether each session displays its searched item, in order |
| Simulator.Engine.constructor | BrowsingSimulator/BrowsingSimulator/BrowsingSimulator.cs:17-20 | an engine over the index with no sessions |
| Simulator.Engine.BegunStarted | BrowsingSimulator/BrowsingSimulator/BrowsingSimulator.cs:71-73 | a begun session over the top layer of a valid index is as GenerateBrowsingSessions leaves it |
| Simulator.Engine.GenerateBrowsingSessions | BrowsingSimulator/BrowsingSimulator/BrowsingSimulator.cs:63-76 | fails with IndexOutOfRange exactly when some id is outside the dataset; otherwise session i has id i, searches dataset item ids[i], is seeded with the i-th Next() of Random(randomSeed) and shows the top layer |
| Simulator.Engine.SpawnSessions | BrowsingSimulator/BrowsingSimulator/BrowsingSimulator.cs:68-74 | the loop makes the same sessions, each with the generator's next seed |
| Simulator.Engine.NewSession | BrowsingSimulator/BrowsingSimulator/BrowsingSimulator.cs:71-73 | a new session and generator, begun on the top layer |
| Simulator.Engine.PathOf | BrowsingSimulator/BrowsingSimulator/BrowsingSimulator.cs:37-41 | the launch message's path is MlesPath's over the layers |
| Simulator.Engine.RunSimulations | BrowsingSimulator/BrowsingSimulator/BrowsingSimulator.cs:22-61 | an id outside the dataset fails with IndexOutOfRange; a simulation that passes leaves one separate session per id, each Finished; the index is unchanged |
| Simulator.Engine.RunAll | BrowsingSimulator/BrowsingSimulator/BrowsingSimulator.cs:28-60 | every session run to completion is Finished, the index unchanged |
| Simulator.Engine.RunAt | BrowsingSimulator/BrowsingSimulator/BrowsingSimulator.cs:34-56 | session index is Finished after its turn, the index unchanged |
| Simulator.Engine.MaxBrowsingDepth | BrowsingSimulator/BrowsingSimulator/BrowsingSimulator.cs:164-172 | the loop computes MaxDepth of the sessions' depths |
| Simulator.Engine.BrowsingHistogram | BrowsingSimulator/BrowsingSimulator/BrowsingSimulator.cs:160-184 | one bucket per depth 1 .. the largest depth; it passes exactly when every session is at depth 1 or more (else IndexOutOfRange), bucket b then counts the sessions at depth b + 1 and found the sessions that found their item |
| Simulator.Engine.CountSessions | BrowsingSimulator/BrowsingSimulator/BrowsingSimulator.cs:177-184 | the counting loop: as BrowsingHistogram for the buckets and the found count |
| Simulator.Engine.Tally | BrowsingSimulator/BrowsingSimulator/BrowsingSimulator.cs:177-184 | over given depths and flags: passes exactly when each depth is at least 1, then counts each bucket and the flags set |
| Simulator.Engine.Entry | BrowsingSimulator/BrowsingSimulator/BrowsingSimulator.cs:179-183 | one session's turn: counted exactly when its depth is at least 1, adding its bucket and its flag |
| Simulator.Engine.Bucket | BrowsingSimulator/BrowsingSimulator/BrowsingSimulator.cs:179 | bucket depth - 1 gains one exactly when the depth is at least 1 |
| Browsing.CountedAddsOccurrences | BrowsingSimulator/BrowsingSimulator/BrowsingSession.cs:131-144 | counting adds exactly one per occurrence: an id is counted afterwards exactly when it was before or is shown, and its count grows by its number of occurrences (a first one counting 1) |
| Browsing.ChildItems | BrowsingSimulator/BrowsingSimulator/BrowsingSession.cs:110 | the query's cluster items exist exactly when it has children and the layer exists; they are the layer's items at the children's positions; NullReference without children, IndexOutOfRange otherwise |
| Browsing.SearchKeepsReady | BrowsingSimulator/BrowsingSimulator/BrowsingSession.cs:94-154 | a search keeps every cache entry fitting the dataset |
| Browsing.SelectKeepsReady | BrowsingSimulator/BrowsingSimulator/BrowsingSession.cs:92-103 | selecting the query keeps every cache entry fitting the dataset |
| Browsing.SearchResult | BrowsingSimulator/BrowsingSimulator/BrowsingSession.cs:94-154 | any search returns candidates only, none excluded, at most nResults when positive; a cache hit lists dataset items |
| Browsing.TopUpFills | BrowsingSimulator/BrowsingSimulator/BrowsingSession.cs:147-162 | LoopAddLayerItems keeps what was shown and appends items of the layer; a successful top-up ends with exactly nResults items |
| Browsing.AppendedFromLayer | BrowsingSimulator/BrowsingSimulator/BrowsingSession.cs:154-155 | AddRange keeps the display as a prefix and appends only items of the layer |
| Browsing.TwelfthSearchThrows | BrowsingSimulator/BrowsingSimulator/BrowsingSession.cs:157-160 | the twelfth search throws NotImplemented even when it filled the display |
| Browsing.NewDisplayFills | BrowsingSimulator/BrowsingSimulator/BrowsingSession.cs:106-128 | a new display, zoom or pan, holds exactly DisplaySize items when that is positive, each an item of the current layer |
| Browsing.DatasetDistinct | BrowsingSimulator/BrowsingSimulator/MLES/MLES.cs:76-83 | dataset items carry their positions as ids, so none occurs twice |
| Browsing.BuiltLayersDistinct | BrowsingSimulator/BrowsingSimulator/MLES/MLES.cs:85-129 | every layer FillLayers builds holds no item twice, so the layer premise of the display distinctness lemmas holds for every built index |
| Browsing.DistinctAppend | BrowsingSimulator/BrowsingSimulator/BrowsingSession.cs:155 | two lists without repeats and with no item in common make one without repeats |
| Browsing.SearchDistinct | BrowsingSimulator/BrowsingSimulator/MLES/MLES.cs:178-246 | a search keeps every cached ranking free of repeats, and returns no item twice when its candidates hold none twice |
| Browsing.RankedDistinct | BrowsingSimulator/BrowsingSimulator/MLES/MLES.cs:183-208 | a ranking repeats no item when it is a cached entry of distinct dataset positions or is computed from candidates without repeats |
| Browsing.SearchKeepsEntriesDistinct | BrowsingSimulator/BrowsingSimulator/MLES/MLES.cs:210-223 | the cache a search leaves has no ranking with a repeat |
| Browsing.StoredDistinct | BrowsingSimulator/BrowsingSimulator/MLES/MLES.cs:214-216 | the ids stored from a ranking of the whole dataset are all different |
| Browsing.TopUpDistinct | BrowsingSimulator/BrowsingSimulator/BrowsingSession.cs:147-162 | LoopAddLayerItems never adds an item already shown: a display and layer without repeats give a display without repeats |
| Browsing.NewDisplayDistinct | BrowsingSimulator/BrowsingSimulator/BrowsingSession.cs:106-128 | a new display never shows an item twice when the layer and the query's children hold no repeats |
| Browsing.WithoutNothing | BrowsingSimulator/BrowsingSimulator/MLES/MLES.cs:228-233 | an empty excluded list removes nothing from a ranking |
| Browsing.SearchDisplay | BrowsingSimulator/BrowsingSimulator/BrowsingSession.cs:94 | the search behind SelectRandomItem ranks the display by distance, draws no sample and leaves the cache as it was |
| Browsing.PickQueryPicks | BrowsingSimulator/BrowsingSimulator/BrowsingSession.cs:95-102 | the pick is one of the nearest, never the last of two or more, and draws a sample only among two or more |
| Browsing.SelectQueryPicksNearest | BrowsingSimulator/BrowsingSimulator/BrowsingSession.cs:92-103 | SelectRandomItem picks one of the BrowsingCoherence displayed items nearest to the searched item, never the last of two or more; an empty display throws; only a pick among two or more draws a sample |
| Browsing.Step | BrowsingSimulator/BrowsingSimulator/BrowsingSession.cs:55-76 | one browsing step: a completed step advances BrowsingDepth by one and logs one entry |
| Browsing.Advance | BrowsingSimulator/BrowsingSimulator/BrowsingSession.cs:59-76 | the step after the pick: it always logs the state before the step with the picked item, and a completed step advances BrowsingDepth by one |
| Browsing.Redisplay | BrowsingSimulator/BrowsingSimulator/BrowsingSession.cs:106-129 | the step once zoom or pan is decided: the log and zoom counter are kept, and a completed step advances BrowsingDepth by one |
| Browsing.StepLogs | BrowsingSimulator/BrowsingSimulator/BrowsingSession.cs:55-76 | a step logs exactly one entry (the state before it with the item picked) unless the pick throws, and a completed step advances BrowsingDepth by one |
| Browsing.ZoomRule | BrowsingSimulator/BrowsingSimulator/BrowsingSession.cs:62-72 | the zoom counter advances exactly when a layer below exists; a zero ZoomingStep divides by zero; otherwise the step zooms one layer down exactly when the counter was a multiple of ZoomingStep, so LayerDepth never passes the last layer |
| Browsing.AdvanceShows | BrowsingSimulator/BrowsingSimulator/BrowsingSession.cs:59-76 | a completed step shows exactly DisplaySize items (when positive), all of the layer it ends on, counts each once more, and keeps the cache fitting |
| Browsing.RedisplayShows | BrowsingSimulator/BrowsingSimulator/BrowsingSession.cs:62-76 | the same once zoom or pan is decided |
| Browsing.AdvanceParts | BrowsingSimulator/BrowsingSimulator/BrowsingSession.cs:59-72 | the rest of the step as the log entry, the zoom counter and the zoom decision |
| Browsing.StepKeepsReady | BrowsingSimulator/BrowsingSimulator/BrowsingSession.cs:55-76 | any step, completed or not, keeps the cache fitting the dataset |
| Browsing.BrowsingSession.ReadyOf | BrowsingSimulator/BrowsingSimulator/BrowsingSession.cs:18 | a valid index with fitting cache entries is ready for searching |
| Browsing.BrowsingSession.constructor | BrowsingSimulator/BrowsingSimulator/BrowsingSession.cs:29-46 | depths and zoom counter 0, empty display, log and counter, a new generator seeded with randomSeed |
| Browsing.BrowsingSession.LoadZeroPageDisplay | BrowsingSimulator/BrowsingSimulator/BrowsingSession.cs:48-52 | the items are appended to the display in order and each counted as shown |
| Browsing.BrowsingSession.IncrementDisplayedCount | BrowsingSimulator/BrowsingSimulator/BrowsingSession.cs:131-144 | the counter becomes Counted's, whose growth CountedAddsOccurrences states |
| Browsing.BrowsingSession.DisplayContainsSearchedItem | BrowsingSimulator/BrowsingSimulator/BrowsingSession.cs:79-89 | true exactly when some displayed item has the searched item's id |
| Browsing.BrowsingSession.HasItemDroppedOut | BrowsingSimulator/BrowsingSimulator/BrowsingSession.cs:165-179 | the decision and samples drawn are DropDecision's: an id never shown is kept without drawing, otherwise one sample against 1 - 1/(hitCount·DropFactor) |
| Browsing.BrowsingSession.SelectRandomItem | BrowsingSimulator/BrowsingSimulator/BrowsingSession.cs:92-103 | the item and the new search state are SelectQuery's, the index unchanged |
| Browsing.BrowsingSession.Pick | BrowsingSimulator/BrowsingSimulator/BrowsingSession.cs:95-102 | the pick and the new sample position are PickQuery's |
| Browsing.BrowsingSession.ClusterItems | BrowsingSimulator/BrowsingSimulator/BrowsingSession.cs:110 | the query's cluster items are ChildItems' |
| Browsing.BrowsingSession.LoopAddLayerItems | BrowsingSimulator/BrowsingSimulator/BrowsingSession.cs:147-162 | the display and new search state are TopUp's, the index unchanged |
| Browsing.BrowsingSession.GenerateNewDisplayZoom | BrowsingSimulator/BrowsingSimulator/BrowsingSession.cs:106-116 | the display and counter after a zoom are NewDisplay's and Counted's |
| Browsing.BrowsingSession.FillZoom | BrowsingSimulator/BrowsingSimulator/BrowsingSession.cs:110-112 | the zoom's searches give ZoomDisplay's result |
| Browsing.BrowsingSession.GenerateNewDisplayPan | BrowsingSimulator/BrowsingSimulator/BrowsingSession.cs:119-128 | the display and counter after a pan are NewDisplay's and Counted's |
| Browsing.BrowsingSession.Present | BrowsingSimulator/BrowsingSimulator/BrowsingSession.cs:113-115 | the items are counted and become the display; nothing else changes |
| Browsing.BrowsingSession.SelectRandomItemAndGenerateNewDisplay | BrowsingSimulator/BrowsingSimulator/BrowsingSession.cs:55-76 | the result and new session state are Step's, the index unchanged |
| Browsing.BrowsingSession.GenerateNewDisplay | BrowsingSimulator/BrowsingSimulator/BrowsingSession.cs:59-76 | the rest of the step is Advance's |
| Browsing.BrowsingSession.ShowNewDisplay | BrowsingSimulator/BrowsingSimulator/BrowsingSession.cs:62-76 | the rest of the step once zoom is decided is Redisplay's |
| Browsing.BrowsingSession.Finish | BrowsingSimulator/BrowsingSimulator/BrowsingSession.cs:66-76 | a failed rebuild throws, otherwise the step concludes as Shown states |
| Browsing.BrowsingSession.Conclude | BrowsingSimulator/BrowsingSimulator/BrowsingSession.cs:74-75 | BrowsingDepth advances by one and the result is the query's squared distance to the searched item, IndexOutOfRange when the searched descriptor is shorter |
| Browsing.BrowsingSession.Rebuild | BrowsingSimulator/BrowsingSimulator/BrowsingSession.cs:62-72 | a zoom goes one layer down; the display is rebuilt as NewDisplay gives and counted, or on failure left empty |
| Cli.ParseAllSpec | BrowsingSimulator/BrowsingSimulatorCLI/Program.cs:187-197 | parsing every token succeeds exactly when each parses, gives their values in order, and otherwise fails with the first failure |
| Cli.ParseAllStops | BrowsingSimulator/BrowsingSimulatorCLI/Program.cs:192-195 | a failure at position i after i successes is the failure of every longer prefix |
| Cli.ParseAllNext | BrowsingSimulator/BrowsingSimulatorCLI/Program.cs:192-195 | a prefix that parses grows by the next token's value |
| Cli.ParseEach | BrowsingSimulator/BrowsingSimulatorCLI/Program.cs:189-196 | the loop over the tokens computes ParseAll's result |
| Cli.LayerLineSpec | BrowsingSimulator/BrowsingSimulatorCLI/Program.cs:165-176 | a layer line parses exactly when its first three ':' tokens do: the cluster id (discarded), the representative id and the ';'-separated members |
| Cli.ClusterIdIgnored | BrowsingSimulator/BrowsingSimulatorCLI/Program.cs:166 | the value of the cluster id does not matter, only that it parses |
| Cli.TokensAfterClusterId | BrowsingSimulator/BrowsingSimulatorCLI/Program.cs:166-168 | tokens differing only in a parsable first token read the same |
| Cli.SplitAfter | BrowsingSimulator/BrowsingSimulatorCLI/Program.cs:165 | splitting at a first separator peels off the text before it |
| Cli.LoadLayer | BrowsingSimulator/BrowsingSimulatorCLI/Program.cs:159-179 | one cluster per line, in file order, as ParseLayerFile gives them |
| Cli.LoadMlesLayers | BrowsingSimulator/BrowsingSimulatorCLI/Program.cs:153-183 | one table per layer file, in order; the first line that does not parse ends it with its error |
| Cli.ParseIntArray | BrowsingSimulator/BrowsingSimulatorCLI/Program.cs:187-197 | one Int32.Parse per ','-separated token, in order |
| Cli.WholeValues | BrowsingSimulator/BrowsingSimulatorCLI/Program.cs:199-209 | parsing into floats fails where parsing into integers does and otherwise gives the same values |
| Cli.ParseFloatArray | BrowsingSimulator/BrowsingSimulatorCLI/Program.cs:199-209 | succeeds exactly when ParseIntArray does, with the same error otherwise, and each value is the integer parsed |
| Cli.FractionRejected | BrowsingSimulator/BrowsingSimulatorCLI/Program.cs:206 | a fraction in a drop-factor list makes the whole list fail with a format error |
| Cli.ParseArguments | BrowsingSimulator/BrowsingSimulatorCLI/Program.cs:20-35 | succeeds exactly with seven or more arguments whose three lists parse; the fields are the arguments in order, the drop factors args[4]'s integers as floats; a missing argument (fewer than 3, 4, 5 or 7) is an index error and a list that does not parse raises its error, in evaluation order |
| Cli.LayerFileArguments | BrowsingSimulator/BrowsingSimulatorCLI/Program.cs:31-35 | the layer files are the arguments from the eighth on, in order |
| Cli.DirectoryNameReads | BrowsingSimulator/BrowsingSimulatorCLI/Program.cs:57-59 | the directory name splits on '_' into zoom, coherence and drop parts, each number reading back |
| Cli.DirectoryTextSplits | BrowsingSimulator/BrowsingSimulatorCLI/Program.cs:57-59 | three labelled texts without '_' joined as a directory name split back apart |
| Cli.DirectoryNamesDiffer | BrowsingSimulator/BrowsingSimulatorCLI/Program.cs:57-62 | different parameter triples write to different directories |
| HeuristicCli.ParseArguments | DescriptorClustering/DescriptorClusteringHeuristicCLI/Program.cs:25-37 | succeeds exactly with three or more arguments, each from the third on an Int32; the seed counts are args[3..] and every iteration count is args[2]; a missing argument or the first bad number raises its error |
| HeuristicCli.LoadArrayDescriptors | DescriptorClustering/DescriptorClusteringHeuristicCLI/Program.cs:72-85 | succeeds exactly when the file Loads (header without metadata read, feature count not negative, every feature read); a header error is passed on and a negative count fails to allocate; otherwise one new descriptor per feature, descriptor i with id i and the floats GetFeatures(i) reads |
| HeuristicCli.FeaturesOf | DescriptorClustering/DescriptorClusteringHeuristicCLI/Program.cs:80 | a read feature has FeatureDimension floats |
| HeuristicCli.FeaturesOfWithoutMetadata | DescriptorClustering/DescriptorClusteringHeuristicCLI/Program.cs:74-80 | without metadata feature i is the window of dim floats at i·dim from the data right after the two counts |
| HeuristicCli.LoadsExactly | DescriptorClustering/DescriptorClusteringHeuristicCLI/Program.cs:72-85 | a file loads exactly when it holds both counts, the feature count is not negative and, when some feature is read, neither is the dimension |
| HeuristicCli.LoadedUniform | DescriptorClustering/DescriptorClusteringHeuristicCLI/Program.cs:77-82 | the loaded descriptors all have the file's dimension, as the clustering requires |
| HeuristicCli.ComputingTime | DescriptorClustering/DescriptorClusteringHeuristicCLI/Program.cs:55-59 | hours·3600 + minutes·60 + seconds is the int-truncated elapsed seconds; minutes and seconds lie strictly between -60 and 60, and all three are non-negative when the seconds fit an Int32 |
| HeuristicCli.WriteToTextFile | DescriptorClustering/DescriptorClusteringHeuristicCLI/Program.cs:88-112 | one line per centroid, "centroidId:meanId:" and the member ids joined by ';'; a centroid without a mean ends the file with NullReference |
| HeuristicCli.WriteCentroid | DescriptorClustering/DescriptorClusteringHeuristicCLI/Program.cs:95-109 | the written pieces of one centroid make its LayerLine |
| HeuristicCli.JoinStep | DescriptorClustering/DescriptorClusteringHeuristicCLI/Program.cs:96-107 | writing the first id alone and every later one after ';' gives the joined text |
| HeuristicCli.JoinSnoc | DescriptorClustering/DescriptorClusteringHeuristicCLI/Program.cs:106 | appending a part appends the separator and the part |
| HeuristicCli.LayerLineRoundTrip | DescriptorClustering/DescriptorClusteringHeuristicCLI/Program.cs:95-109 | a written line reads back in the layer loader as (meanId, ids) when the centroid has members, and fails with a format error when it has none |
| HeuristicCli.LayerLineTokens | DescriptorClustering/DescriptorClusteringHeuristicCLI/Program.cs:95 | a written line splits on ':' into the centroid id, the mean id and the member list |
| HeuristicCli.MembersRoundTrip | DescriptorClustering/DescriptorClusteringHeuristicCLI/Program.cs:96-107 | the member list reads back as the ids, and an empty one fails as an empty number |
| HeuristicCli.LayerFileRoundTrip | DescriptorClustering/DescriptorClusteringHeuristicCLI/Program.cs:88-112 | a file written from centroids that all have members reads back as their table |
| HeuristicCli.ParseAllOk | BrowsingSimulator/BrowsingSimulatorCLI/Program.cs:172-175 | parsing elements that all parse gives their values in order |
| HeuristicCli.Prepare | DescriptorClustering/DescriptorClusteringHeuristicCLI/Program.cs:25-40 | the start of Main succeeds exactly when every number parses and the file loads; the seed counts are args[3..] parsed, the iteration counts args[2] once per layer, and the descriptors those of the file |
| HeuristicCli.ClusterAndWrite | DescriptorClustering/DescriptorClusteringHeuristicCLI/Program.cs:46-63 | with no seed count the clustering fails with ArgumentOutOfRange and nothing is written; once a line is written or the run passes, there is one stored layer per seed count, Layered over the data, and the lines are WriteToTextFile's for the deepest layer |
| HeuristicCli.Run | DescriptorClustering/DescriptorClusteringHeuristicCLI/Program.cs:18-63 | Main: an argument or load failure ends the run with nothing written; with exactly three arguments the empty seed array fails with ArgumentOutOfRange; once a line is written or the run passes, the arguments parse, the file loads, the descriptors are the file's features and the lines are those of the deepest stored layer (one layer per seed count), all of them exactly when the run passes, otherwise up to the first centroid without a mean |
| Subsequence.IntRange | BrowsingSimulator/RandomSubsequenceGenerator/Program.cs:28 | Enumerable.Range: count numbers from start on |
| Subsequence.GenerateSubsequence | BrowsingSimulator/RandomSubsequenceGenerator/Program.cs:11-43 | the parse error is reported exactly when an argument is missing or not an Int32; a range that does not fit throws ArgumentOutOfRange; otherwise the numbers printed are Subsample's |
| Subsequence.Subsample | BrowsingSimulator/RandomSubsequenceGenerator/Program.cs:27-41 | the numbers printed are Picks over the range, each the remaining number at Next(Count - 1); the run fails with ArgumentOutOfRange exactly when more numbers are asked for than the range holds |
| Subsequence.PrintedIsASample | BrowsingSimulator/RandomSubsequenceGenerator/Program.cs:27-41 | what is printed is min(subsequenceCount, count) distinct numbers of the range |
| Clustering.FirstMin | DescriptorClustering/DescriptorClustering/ClusteringBase.cs:57-67 | a scan keeping the entry with `distance < smallest` ends on a smallest entry, the first of the smallest |
| Clustering.DistancesFrom | DescriptorClustering/DescriptorClustering/ClusteringBase.cs:59-61 | the distance from the mean to each descriptor, as GetDistanceSQR computes it |
| Clustering.FirstMinStep | DescriptorClustering/DescriptorClustering/ClusteringBase.cs:62-66 | one more entry moves the first minimum to it exactly when it is strictly smaller |
| Clustering.DistancesTo | DescriptorClustering/DescriptorClustering/Simple/ClusteringSimple.cs:37-39 | the distance from each centroid's mean to the descriptor |
| Clustering.ClusterSnoc | DescriptorClustering/DescriptorClustering/Simple/ClusteringSimple.cs:46 | one more descriptor joins its own cluster and leaves the others alone |
| Clustering.Clusters | DescriptorClustering/DescriptorClustering/Simple/ClusteringSimple.cs:31-52 | cluster k holds the descriptors that chose centroid k, in list order |
| Clustering.InCluster | DescriptorClustering/DescriptorClustering/Simple/ClusteringSimple.cs:46 | a descriptor is in a cluster exactly when it chose it |
| Clustering.ClustersPartition | DescriptorClustering/DescriptorClustering/Simple/ClusteringSimple.cs:20-52 | when every descriptor chose one of the centroids, the clusters together hold every descriptor exactly as often as the list does |
| Clustering.ClustersGrow | DescriptorClustering/DescriptorClustering/Simple/ClusteringSimple.cs:46 | the last descriptor adds itself once to the clusters taken together |
| Clustering.ClustersSnoc | DescriptorClustering/DescriptorClustering/Simple/ClusteringSimple.cs:46 | the last descriptor joins the cluster it chose, the others stay as they were |
| Clustering.EmptyClusters | DescriptorClustering/DescriptorClustering/Simple/ClusteringSimple.cs:22-25 | after clearing, no cluster holds anything |
| Clustering.ClusterVals | DescriptorClustering/DescriptorClustering/Simple/ClusteringSimple.cs:46 | a cluster of descriptors has the vectors of the same cluster of vectors |
| Clustering.ClusterIds | DescriptorClustering/DescriptorClustering/Simple/ClusteringSimple.cs:67-76 | a cluster of descriptors has the ids of the same cluster of ids |
| Clustering.FlattenIds | DescriptorClustering/DescriptorClustering/Simple/ClusteringSimple.cs:65-77 | taking ids commutes with walking the clusters in order |
| Clustering.DistinctCounts | DescriptorClustering/DescriptorClustering/Simple/ClusteringSimple.cs:64-76 | a list of distinct ids holds each at most once |
| Clustering.DistinctPermutation | DescriptorClustering/DescriptorClustering/Simple/ClusteringSimple.cs:64-76 | a rearrangement of distinct ids is distinct |
| Clustering.ClustersKeepIdsDistinct | DescriptorClustering/DescriptorClustering/Simple/ClusteringSimple.cs:62-81 | clusters of descriptors with distinct ids hold every id at most once, all together: the duplicate check cannot fire on a partition |
| Clustering.ClusterMeansDistinct | DescriptorClustering/DescriptorClustering/ClusteringBase.cs:81-97 | means taken one from each of several different clusters of descriptors with distinct ids have distinct ids |
| Clustering.MeansOfClustersDiffer | DescriptorClustering/DescriptorClustering/ClusteringBase.cs:86-88 | members of two different clusters of descriptors with distinct ids have different ids |
| Clustering.Kept | DescriptorClustering/DescriptorClustering/Hierarchical/Divisive/ClusteringDivisive.cs:96-106 | the positions whose flag is set, in increasing order, and all of them |
| Clustering.KeptEverything | DescriptorClustering/DescriptorClustering/Hierarchical/Divisive/ClusteringDivisive.cs:96-106 | keeping as many positions as there are flags keeps every position in place |
| Clustering.Select | DescriptorClustering/DescriptorClustering/Hierarchical/Divisive/ClusteringDivisive.cs:96-106 | the entries at the given positions, in the order given |
| Clustering.Sum | DescriptorClustering/DescriptorClustering/Simple/ClusteringSimple.cs:110 | Enumerable.Sum: non-negative for non-negative deltas and zero for zero deltas |
| Clustering.MeanVals | DescriptorClustering/DescriptorClustering/Simple/ClusteringSimple.cs:37-39 | the mean vectors of the centroids, in order |
| Clustering.Lists | DescriptorClustering/DescriptorClustering/Simple/ClusteringSimple.cs:65-67 | the centroids' descriptor lists, in centroid order |
| Clustering.MeanIds | DescriptorClustering/DescriptorClustering/ClusteringBase.cs:84-86 | the ids of the centroids' means, in order |
| Clustering.Seeds | DescriptorClustering/DescriptorClustering/ClusteringBase.cs:32-42 | the seeds are seedCount descriptors of the list |
| Clustering.GenerateRandomSeeds | DescriptorClustering/DescriptorClustering/ClusteringBase.cs:21-45 | fails with ArgumentOutOfRange exactly when the seed count is outside [1, n] for n descriptors; otherwise centroid i has id i, the i-th pick of the sampler as mean and an empty list, all different objects |
| Clustering.SeededSnoc | DescriptorClustering/DescriptorClustering/ClusteringBase.cs:40 | one more new centroid keeps the seeding as stated |
| Clustering.PickStep | DescriptorClustering/DescriptorClustering/ClusteringBase.cs:34-41 | taking the next pick moves it from the picks to come to the picks taken |
| Clustering.PickedAll | DescriptorClustering/DescriptorClustering/ClusteringBase.cs:32-42 | with no picks to come, the picks taken are all of them |
| Clustering.SeedsSample | DescriptorClustering/DescriptorClustering/ClusteringBase.cs:21-45 | the seeds are seedCount different descriptors of the list, and the last descriptor of the list is a seed only when every descriptor is |
| Clustering.ClosestIndex | DescriptorClustering/DescriptorClustering/ClusteringBase.cs:57-67 | the descriptor picked for a centroid is a position of its list |
| Clustering.ClosestIsNearest | DescriptorClustering/DescriptorClustering/ClusteringBase.cs:57-67 | the picked descriptor is no farther from the mean than any other and strictly closer than those before it |
| Clustering.ClosestOf | DescriptorClustering/DescriptorClustering/ClusteringBase.cs:57-68 | none for an empty list, otherwise one of the centroid's own descriptors |
| Clustering.ClosestPosition | DescriptorClustering/DescriptorClustering/ClusteringBase.cs:57-67 | the scan ends on ClosestIndex |
| Clustering.AssignClosest | DescriptorClustering/DescriptorClustering/ClusteringBase.cs:55-68 | the centroid's mean becomes ClosestOf, its list unchanged |
| Clustering.AssignClosestDescriptors | DescriptorClustering/DescriptorClustering/ClusteringBase.cs:48-79 | every centroid's mean becomes the first of its own descriptors closest to its old mean, or none for an empty list; the lists are unchanged |
| Clustering.TestUniqueCentroidAssignment | DescriptorClustering/DescriptorClustering/ClusteringBase.cs:81-97 | passes exactly when every centroid has a mean and no two means share an id; a missing mean is NullReference, a repeated id ArgumentException |
| Clustering.ClosestMeansUnique | DescriptorClustering/DescriptorClustering/ClusteringBase.cs:48-97 | after AssignClosestDescriptors on disjoint non-empty lists of distinct ids, the check passes |
| KMeans.Choice | DescriptorClustering/DescriptorClustering/Simple/ClusteringSimple.cs:35-45 | the centroid Assign gives a vector is one of the centroids |
| KMeans.ChoiceIsNearest | DescriptorClustering/DescriptorClustering/Simple/ClusteringSimple.cs:35-45 | no mean is closer than the chosen one, and every mean before it is farther |
| KMeans.Choices | DescriptorClustering/DescriptorClustering/Simple/ClusteringSimple.cs:31-52 | every descriptor's choice is Choice, a centroid position |
| KMeans.Groups | DescriptorClustering/DescriptorClustering/Simple/ClusteringSimple.cs:46 | one group per centroid |
| KMeans.GroupsPartition | DescriptorClustering/DescriptorClustering/Simple/ClusteringSimple.cs:20-52 | the groups of a round partition the descriptors' vectors |
| KMeans.GroupsFit | DescriptorClustering/DescriptorClustering/Simple/ClusteringSimple.cs:46 | every group holds vectors of the data's dimension, and the first descriptor's group is not empty |
| KMeans.Occupied | DescriptorClustering/DescriptorClustering/Simple/ClusteringSimple.cs:152 | which centroids received a descriptor |
| KMeans.Survivors | DescriptorClustering/DescriptorClustering/Simple/ClusteringSimple.cs:147-164 | the centroids that received a descriptor, in order, and all of them; at least one over non-empty data |
| KMeans.Round | DescriptorClustering/DescriptorClustering/Simple/ClusteringSimpleBase.cs:46-54 | the means after a round have the data's dimension, one per survivor, never more than before and at least one over non-empty data |
| KMeans.DeltaOf | DescriptorClustering/DescriptorClustering/Simple/ClusteringSimple.cs:94-105 | one centroid's delta is non-negative, and 0 when it had or gets no mean |
| KMeans.UpdateDelta | DescriptorClustering/DescriptorClustering/Simple/ClusteringSimple.cs:110 | Update's result is non-negative |
| KMeans.NewMeans | DescriptorClustering/DescriptorClustering/Structures/Centroid.cs:43-62 | each new mean is none exactly for an empty list |
| KMeans.RoundDelta | DescriptorClustering/DescriptorClustering/Simple/ClusteringSimpleBase.cs:52 | the value Update returns in a round is non-negative |
| KMeans.Rounds | DescriptorClustering/DescriptorClustering/Simple/ClusteringSimpleBase.cs:40-60 | the means after n rounds: at least one, never more than the seeds, of the data's dimension |
| KMeans.Deltas | DescriptorClustering/DescriptorClustering/Simple/ClusteringSimpleBase.cs:39-52 | the array Clusterize returns: one non-negative delta per round |
| KMeans.RoundKeepsAllIffNoneEmpty | DescriptorClustering/DescriptorClustering/Simple/ClusteringSimple.cs:114-167 | a round never adds centroids, and keeps all of them exactly when every centroid received a descriptor |
| KMeans.SettledStaysSettled | DescriptorClustering/DescriptorClustering/Simple/ClusteringSimpleBase.cs:40-60 | means that a round reproduces stay the same in every later round, each delta 0 |
| KMeans.SettledMovesNothing | DescriptorClustering/DescriptorClustering/Simple/ClusteringSimple.cs:84-111 | a round that reproduces its means reports a delta of 0 |
| KMeans.OptMeans | DescriptorClustering/DescriptorClustering/Simple/ClusteringSimple.cs:94 | the centroids' means, none where a centroid has none |
| KMeans.ListVals | DescriptorClustering/DescriptorClustering/Simple/ClusteringSimple.cs:46 | the vectors on each centroid's list |
| KMeans.MeanFlags | DescriptorClustering/DescriptorClustering/Simple/ClusteringSimple.cs:152 | which centroids have a mean |
| KMeans.DropKeepsExactlyTheMeans | DescriptorClustering/DescriptorClustering/Simple/ClusteringSimple.cs:147-164 | DropEmptyCentroids keeps a centroid exactly when it has a mean, in order, no object twice |
| KMeans.ClosestCentroid | DescriptorClustering/DescriptorClustering/Simple/ClusteringSimple.cs:35-45 | the inner loop picks Choice of the means for the descriptor |
| KMeans.AssignDescriptor | DescriptorClustering/DescriptorClustering/Simple/ClusteringSimple.cs:35-47 | the descriptor is appended to its first closest centroid's list only, and records it as its centroid |
| KMeans.AssignEach | DescriptorClustering/DescriptorClustering/Simple/ClusteringSimple.cs:31-52 | every list becomes its centroid's cluster of the descriptors, each descriptor records its centroid, and the means are unchanged |
| KMeans.RoundFacts | DescriptorClustering/DescriptorClustering/Simple/ClusteringSimple.cs:20-111 | a round's groups are the clusters of the choices, its survivors the occupied centroids, and its delta Update's |
| KMeans.AssignedGroups | DescriptorClustering/DescriptorClustering/Simple/ClusteringSimple.cs:20-59 | after Assign the lists hold the groups of the round, of the data's dimension |
| KMeans.SurvivorsAreTheRound | DescriptorClustering/DescriptorClustering/Simple/ClusteringSimple.cs:84-167 | after Update the centroids with a non-empty list carry exactly the round's means, in order |
| KMeans.FinishedLists | DescriptorClustering/DescriptorClustering/Simple/ClusteringSimpleBase.cs:31-68 | a finished clustering has no more lists than seeds, at least one over non-empty data, every list non-empty and of data descriptors, every mean one of its own list's descriptors |
| KMeans.ClusteredLists | DescriptorClustering/DescriptorClustering/ClusteringBase.cs:57-68 | lists that are clusters of the data hold its descriptors; one holding its mean is not empty |
| KMeans.FinalMeans | DescriptorClustering/DescriptorClustering/Simple/ClusteringSimpleBase.cs:65 | the means the final AssignClosestDescriptors picks make a finished clustering, each one of its own list's descriptors |
| KMeans.Means | DescriptorClustering/DescriptorClustering/ClusteringBase.cs:68 | the centroids' means, in order |
| KMeans.SurvivorClusters | DescriptorClustering/DescriptorClustering/Simple/ClusteringSimple.cs:31-52 | every cluster of a round holds data descriptors of the data's dimension, and every survivor's cluster holds at least one |
| KMeans.ClustersOfData | DescriptorClustering/DescriptorClustering/Simple/ClusteringSimple.cs:31-52 | every cluster of a round holds only data descriptors of the data's dimension |
| KMeans.SurvivorsNonEmpty | DescriptorClustering/DescriptorClustering/Simple/ClusteringSimple.cs:147-164 | every survivor's cluster holds at least one descriptor |
| KMeans.FinalMeansDistinct | DescriptorClustering/DescriptorClustering/ClusteringBase.cs:76-97 | means taken from clusters of different survivors, over descriptors with distinct ids, have distinct ids: the DEBUG check holds after Clusterize |
| KMeans.DistinctMeanIds | DescriptorClustering/DescriptorClustering/ClusteringBase.cs:81-97 | centroids with those means pass TestUniqueCentroidAssignment's condition |
| KMeans.AssignKnownClosest | DescriptorClustering/DescriptorClustering/ClusteringBase.cs:48-79 | AssignClosestDescriptors keeps the lists and sets the means to the known closest descriptors |
| KMeans.SameClusterOnly | DescriptorClustering/DescriptorClustering/Simple/ClusteringSimple.cs:62-81 | two descriptors with the same id over distinct ids are in the same cluster |
| KMeans.UpdateCentroid | DescriptorClustering/DescriptorClustering/Simple/ClusteringSimple.cs:93-105 | the mean recomputed from the list (none for an empty one), and the delta DeltaOf |
| KMeans.RecomputedElim | DescriptorClustering/DescriptorClustering/Structures/Centroid.cs:43-62 | a recomputed mean is none exactly for an empty list and otherwise the new descriptor with id -1 holding the list's mean |
| KMeans.UpdateCentroids | DescriptorClustering/DescriptorClustering/Simple/ClusteringSimple.cs:86-109 | one delta per centroid, each mean recomputed from its list |
| KMeans.RecomputedAll | DescriptorClustering/DescriptorClustering/Simple/ClusteringSimple.cs:86-109 | every centroid recomputed: the new means are NewMeans of the lists |
| KMeans.SeedCount | DescriptorClustering/DescriptorClustering/Simple/ClusteringSimpleBase.cs:25-26 | the truncated share of the descriptors, at least 1 and at most their number |
| KMeans.TestUniqueDescriptorAssignment | DescriptorClustering/DescriptorClustering/Simple/ClusteringSimple.cs:62-81 | passes exactly when the lists together hold no id twice, and fails with ArgumentException |
| KMeans.IdLists | DescriptorClustering/DescriptorClustering/Simple/ClusteringSimple.cs:65-67 | the ids of each list; flattened, the ids of all lists |
| KMeans.ScanLists | DescriptorClustering/DescriptorClustering/Simple/ClusteringSimple.cs:65-78 | the outer loop passes exactly when the ids of all lists are distinct |
| KMeans.ScanIds | DescriptorClustering/DescriptorClustering/Simple/ClusteringSimple.cs:67-77 | the inner loop passes exactly when the ids met so far and this list's are distinct, and then holds all of them |
| KMeans.RepeatedStays | DescriptorClustering/DescriptorClustering/Simple/ClusteringSimple.cs:69-72 | a repeated id stays repeated whatever follows it |
| KMeans.ClusteringSimple.constructor | DescriptorClustering/DescriptorClustering/Simple/ClusteringSimple.cs:16-18 | the data stored, no centroids |
| KMeans.ClusteringSimple.Assign | DescriptorClustering/DescriptorClustering/Simple/ClusteringSimple.cs:20-59 | every list becomes its centroid's cluster of the round and every descriptor records its centroid; the means are unchanged |
| KMeans.ClusteringSimple.AssignUpdate | DescriptorClustering/DescriptorClustering/Simple/ClusteringSimpleBase.cs:46-52 | after Assign and Update every list is the round's cluster and every non-empty list has its mean |
| KMeans.ClusteringSimple.AfterAssign | DescriptorClustering/DescriptorClustering/Simple/ClusteringSimple.cs:20-59 | what Assign leaves is what Update expects |
| KMeans.ClusteringSimple.Refresh | DescriptorClustering/DescriptorClustering/Simple/ClusteringSimpleBase.cs:46-54 | one pass: the centroids left are the round's survivors in order, with the round's means, and the delta is the round's |
| KMeans.ClusteringSimple.Iteration | DescriptorClustering/DescriptorClustering/Simple/ClusteringSimpleBase.cs:41-60 | one pass of Clusterize's loop as Refresh states, on the object's centroids |
| KMeans.ClusteringSimple.AfterUpdate | DescriptorClustering/DescriptorClustering/Simple/ClusteringSimple.cs:84-111 | after Update the centroids with a mean are the survivors, with the round's means |
| KMeans.ClusteringSimple.Data | DescriptorClustering/DescriptorClustering/Simple/ClusteringSimpleBase.cs:31-68 | the data as vectors, all of the data's dimension |
| KMeans.ClusteringSimple.SeedVals | DescriptorClustering/DescriptorClustering/ClusteringBase.cs:21-45 | the seeds' vectors: seedCount of them, of the data's dimension |
| KMeans.ClusteringSimple.Iterate | DescriptorClustering/DescriptorClustering/Simple/ClusteringSimpleBase.cs:39-60 | iterationCount rounds: the deltas of the rounds in order, the means Rounds', the lists the last round's clusters |
| KMeans.ClusteringSimple.SurvivorsComparable | DescriptorClustering/DescriptorClustering/Simple/ClusteringSimpleBase.cs:65 | before the final assignment every survivor's list is comparable with its mean |
| KMeans.ClusteringSimple.Finish | DescriptorClustering/DescriptorClustering/Simple/ClusteringSimpleBase.cs:65 | after the final AssignClosestDescriptors the clustering is finished; with distinct descriptor ids the means have distinct ids |
| KMeans.ClusteringSimple.FinishPlan | DescriptorClustering/DescriptorClustering/ClusteringBase.cs:48-79 | what the final AssignClosestDescriptors will find, worked out before it runs |
| KMeans.ClusteringSimple.Clusterize | DescriptorClustering/DescriptorClustering/Simple/ClusteringSimpleBase.cs:31-68 | succeeds exactly with a seed count in [1, n] for n descriptors and a non-negative iteration count; a bad seed count throws ArgumentOutOfRange and changes nothing; otherwise it returns Deltas of the seeds' rounds, with new distinct centroids whose lists and means are the last round's, finished |
| KMeans.ClusteringSimple.SeededReady | DescriptorClustering/DescriptorClustering/ClusteringBase.cs:40 | seeded centroids are ready, their means the seeds' vectors |
| KMeans.ClusteringSimple.Run | DescriptorClustering/DescriptorClustering/Simple/ClusteringSimpleBase.cs:39-67 | after seeding: the rounds then the final assignment; the deltas are Deltas' |
| KMeans.ClusteringSimple.ClusterizeFraction | DescriptorClustering/DescriptorClustering/Simple/ClusteringSimpleBase.cs:18-29 | a share outside (0, 1] is an ArgumentException; otherwise Clusterize with the truncated share, at least one |
| KMeans.ClusteringSimple.Update | DescriptorClustering/DescriptorClustering/Simple/ClusteringSimple.cs:84-111 | every mean recomputed from its list, lists unchanged, and the result the sum of how far each mean moved |
| KMeans.ClusteringSimple.DropEmptyCentroids | DescriptorClustering/DescriptorClustering/Simple/ClusteringSimple.cs:114-167 | the centroids without a mean removed, the others kept in order, and the result the number dropped |
| Divisive.CheckClusterizeArguments | DescriptorClustering/DescriptorClustering/Hierarchical/Divisive/ClusteringDivisive.cs:19-47 | passes exactly when both arrays are present and non-empty; a missing array is ArgumentNull and an empty one ArgumentOutOfRange, the seed counts checked first |
| Divisive.ChildSeedCountFits | DescriptorClustering/DescriptorClustering/Hierarchical/Divisive/ClusteringDivisive.cs:88-89 | a parent's seed count is at least one, at most the parent's list while the expected layer size does not exceed the data, and at most its proportional share |
| Divisive.FlatDeltasAre | DescriptorClustering/DescriptorClustering/Hierarchical/Divisive/ClusteringDivisive.cs:62-63 | the flat clustering of a consistent ClusteringSimple returns the deltas of its seeds and rounds, FlatDeltas |
| Divisive.LayeredSnoc | DescriptorClustering/DescriptorClustering/Hierarchical/Divisive/ClusteringDivisive.cs:75-120 | appending a well-formed layer that refines the last keeps the stack of layers well formed |
| Divisive.GatheredSnoc | DescriptorClustering/DescriptorClustering/Hierarchical/Divisive/ClusteringDivisive.cs:102-107 | the renumbered children of the next parent extend the gathered layer: distinct, numbered on, each inside its parent's list |
| Divisive.GatheredLayer | DescriptorClustering/DescriptorClustering/Hierarchical/Divisive/ClusteringDivisive.cs:83-116 | after the last parent the gathered centroids are distinct, numbered 0.. in order, refine the layer above and lie inside the data |
| Divisive.RefinesBy | DescriptorClustering/DescriptorClustering/Hierarchical/Divisive/ClusteringDivisive.cs:83-107 | a parent map whose parents' lists contain each child's list shows the lower layer refines the upper |
| Divisive.ConsistentFlat | DescriptorClustering/DescriptorClustering/Hierarchical/Divisive/ClusteringDivisive.cs:62 | a flat clustering built over descriptors of one length has consistent data |
| Divisive.UniformInside | DescriptorClustering/DescriptorClustering/Hierarchical/Divisive/ClusteringDivisive.cs:85-87 | a parent's descriptor list, drawn from uniform data, is itself of one length |
| Divisive.Renumber | DescriptorClustering/DescriptorClustering/Hierarchical/Divisive/ClusteringDivisive.cs:102-105 | the centroids get ids firstId, firstId + 1, ... in order |
| Divisive.Flat | DescriptorClustering/DescriptorClustering/Hierarchical/Divisive/ClusteringDivisive.cs:62-64 | a seed count outside [1, n] or a negative iteration count fails as the flat clustering does; otherwise FlatDeltas and at most seedCount distinct new centroids inside the data; with at least one round each holds its mean, and the lists and means are exactly the finished k-means clustering of its seeds and rounds (FlatFinished) |
| Divisive.ClusteringDivisive.constructor | DescriptorClustering/DescriptorClustering/Hierarchical/Divisive/ClusteringDivisive.cs:13-17 | the descriptors are stored and no layers exist yet |
| Divisive.ClusteringDivisive.ClusterParent | DescriptorClustering/DescriptorClustering/Hierarchical/Divisive/ClusteringDivisive.cs:85-105 | a parent's list clustered with ChildSeedCount seeds; errors passed on; the new centroids lie inside the parent's list and are numbered from firstId |
| Divisive.ClusteringDivisive.ClusterNext | DescriptorClustering/DescriptorClustering/Hierarchical/Divisive/ClusteringDivisive.cs:94-113 | the parent's step succeeds exactly when its ChildSeedCount fits its list, the iteration count is not negative and the parent has a mean; then the layer gathered so far keeps its centroids and gains a run of 1 to ChildSeedCount fresh, numbered children of that parent |
| Divisive.ClusteringDivisive.ClusterLayer | DescriptorClustering/DescriptorClustering/Hierarchical/Divisive/ClusteringDivisive.cs:81-116 | a layer succeeds exactly when LayerFits holds for the layer above (iteration count present and not negative, every parent with a mean and at least ChildSeedCount descriptors); it is then split into one run of 1 to ChildSeedCount children per parent, in parent order, each inside its parent's list (SplitInto), non-empty iff the layer above is, distinct, numbered in order and inside the data |
| Divisive.ClusteringDivisive.Clusterize | DescriptorClustering/DescriptorClustering/Hierarchical/Divisive/ClusteringDivisive.cs:51-124 | argument errors as CheckClusterizeArguments; the top layer's errors; once the top layer is built, the layers completed satisfy StackFits for the Int32-wrapped expected sizes, the top layer is the finished flat clustering, the run succeeds iff every layer is built and stops at the first layer above which LayerFits fails; on success the result is the top layer's FlatDeltas and the stored layers, one per seed count, are Layered; on error the stored layers are unchanged |
| Divisive.ClusteringDivisive.Stack | DescriptorClustering/DescriptorClustering/Hierarchical/Divisive/ClusteringDivisive.cs:73-120 | layer l is built exactly when LayerFits holds for layer l - 1 with Expected(seeds, l); each built layer is split into at most ChildSeedCount children per parent (StackFits); the run succeeds iff every seed count gets a layer, and otherwise stops at the first layer that does not fit |
| Divisive.ClusteringDivisive.GatherLayer | DescriptorClustering/DescriptorClustering/Hierarchical/Divisive/ClusteringDivisive.cs:83-107 | the loop over the parents succeeds exactly when LayerFits holds, an index error when the layer's iteration count is missing; on success every parent's run is gathered (Grown) |
| Divisive.ClusteringDivisive.Extend | DescriptorClustering/DescriptorClustering/Hierarchical/Divisive/ClusteringDivisive.cs:80-116 | the next layer is built exactly when LayerFits holds for the last layer with Expected(seeds, l); it then extends both Layered and StackFits; on an error the run so far keeps StackFits |
| Divisive.ClusteringDivisive.Build | DescriptorClustering/DescriptorClustering/Hierarchical/Divisive/ClusteringDivisive.cs:62-120 | once the arguments pass: the top layer's seed and iteration errors, a null reference when some top mean is missing, and otherwise the same outcome as Clusterize |
| Divisive.Expected | DescriptorClustering/DescriptorClustering/Hierarchical/Divisive/ClusteringDivisive.cs:73-80 | the expected size of every layer below the top is an Int32 value |
| Divisive.ExpectedIsProduct | DescriptorClustering/DescriptorClustering/Hierarchical/Divisive/ClusteringDivisive.cs:73-80 | while no partial product overflows, the expected size of layer l is the product of the seed counts of layers 0 .. l |
| Divisive.FlatSeeds | DescriptorClustering/DescriptorClustering/Hierarchical/Divisive/ClusteringDivisive.cs:62-63 | the flat clustering samples exactly seedCount seeds, all of the data's dimension |
| Divisive.OwnersSnoc | DescriptorClustering/DescriptorClustering/Hierarchical/Divisive/ClusteringDivisive.cs:102-107 | one more parent's run of children appends that parent to the parent map that many times |
| Divisive.GrownSnoc | DescriptorClustering/DescriptorClustering/Hierarchical/Divisive/ClusteringDivisive.cs:96-107 | a parent's run of 1 to ChildSeedCount children, appended, extends the layer gathered so far by one run |
| Divisive.StackFitsSnoc | DescriptorClustering/DescriptorClustering/Hierarchical/Divisive/ClusteringDivisive.cs:75-116 | a layer that fits below the last and is split into its runs extends StackFits |
| Agglomerative.WardSymmetric | DescriptorClustering/DescriptorClustering/Hierarchical/Agglomerative/ClusteringAgglomerative.cs:238-245 | the weighted distance between two means does not depend on their order |
| Agglomerative.WardNonNegative | DescriptorClustering/DescriptorClustering/Hierarchical/Agglomerative/ClusteringAgglomerative.cs:238-245 | with positive weights the weighted distance is never negative, and zero from a mean to itself |
| Agglomerative.WeightedCentroid.constructor | DescriptorClustering/DescriptorClustering/Hierarchical/Agglomerative/ClusteringAgglomerative.cs:189-193 | the centroid and weight given are stored |
| Agglomerative.WeightedCentroid.Unweighted | DescriptorClustering/DescriptorClustering/Hierarchical/Agglomerative/ClusteringAgglomerative.cs:195-199 | the centroid is stored with weight 1 |
| Agglomerative.WeightedCentroid.FromDescriptor | DescriptorClustering/DescriptorClustering/Hierarchical/Agglomerative/ClusteringAgglomerative.cs:201-206 | a new centroid with the given id, the descriptor as its mean and as its only member, weight 1 |
| Agglomerative.Merge | DescriptorClustering/DescriptorClustering/Hierarchical/Agglomerative/ClusteringAgglomerative.cs:208-216 | a new weight-1 centroid with the id of the survivor, whose list is the survivor's followed by the dropped one's and whose mean is their mean; ComputeMean's argument error passes through |
| Agglomerative.FromDescriptors | DescriptorClustering/DescriptorClustering/Hierarchical/Agglomerative/ClusteringAgglomerative.cs:218-226 | a new array whose slot i holds descriptor i alone, under id i, weight 1 |
| Agglomerative.GetDistance | DescriptorClustering/DescriptorClustering/Hierarchical/Agglomerative/ClusteringAgglomerative.cs:238-245 | a missing mean is a null reference, a shorter second mean an index error, otherwise the squared distance times the product of the weights over their sum |
| Agglomerative.AliveDrop | DescriptorClustering/DescriptorClustering/Hierarchical/Agglomerative/ClusteringAgglomerative.cs:163-169 | dropping a live slot leaves exactly one live slot fewer |
| Agglomerative.TwoAlive | DescriptorClustering/DescriptorClustering/Hierarchical/Agglomerative/ClusteringAgglomerative.cs:127-160 | two live slots are listed exactly when two distinct slots are not dropped |
| Agglomerative.PoolIsLiveLists | DescriptorClustering/DescriptorClustering/Hierarchical/Agglomerative/ClusteringAgglomerative.cs:171-181 | the descriptors the live slots hold, counted with repetition, are the joined lists of the live slots in slot order |
| Agglomerative.MergeKeepsPool | DescriptorClustering/DescriptorClustering/Hierarchical/Agglomerative/ClusteringAgglomerative.cs:163-169 | appending the dropped slot's list to the survivor's while dropping it keeps every descriptor in exactly as many live clusters |
| Agglomerative.PoolOfSingletons | DescriptorClustering/DescriptorClustering/Hierarchical/Agglomerative/ClusteringAgglomerative.cs:218-226 | one descriptor per live slot makes the live lists hold exactly the descriptors |
| Agglomerative.ClusteringAgglomerative.constructor | DescriptorClustering/DescriptorClustering/Hierarchical/Agglomerative/ClusteringAgglomerative.cs:17-26 | an n-by-n distance matrix and n flags, none dropped; no layers yet |
| Agglomerative.ClusteringAgglomerative.Clusterize | DescriptorClustering/DescriptorClustering/Hierarchical/Agglomerative/ClusteringAgglomerative.cs:33-82 | min(n - 1, maxIterations) layers, a negative count an allocation error; the layer stored at index t has n - iterationCount + t clusters that partition the descriptors in slot order, each mean one of its own descriptors; a merge history starts from one slot per descriptor, each step joins the survivor's list with the dropped slot's for a live pair at the smallest Ward distance (the first in row order on ties), and layer t is exported from the state iterationCount - t merges in, so its lists are layer t + 1's with one nearest pair joined; the returned deltas are empty |
| Agglomerative.ClusteringAgglomerative.RunIterations | DescriptorClustering/DescriptorClustering/Hierarchical/Agglomerative/ClusteringAgglomerative.cs:46-80 | after the iterations every stored layer is the partition left once that many slots remain; the history of merged pairs is a chain of nearest-pair merges from the seeded slots, and each layer is exported from its state in that history |
| Agglomerative.ClusteringAgglomerative.Prepare | DescriptorClustering/DescriptorClustering/Hierarchical/Agglomerative/ClusteringAgglomerative.cs:39-46 | the slots hold one descriptor each, all live, every distance is precomputed, and the state is the initial one of the history |
| Agglomerative.ClusteringAgglomerative.Iterate | DescriptorClustering/DescriptorClustering/Hierarchical/Agglomerative/ClusteringAgglomerative.cs:52-80 | one iteration merges a nearest live pair and stores the layer exported from the new state at (iterationCount - 1) - i; every other stored layer is the same as before |
| Agglomerative.ClusteringAgglomerative.MergeNearest | DescriptorClustering/DescriptorClustering/Hierarchical/Agglomerative/ClusteringAgglomerative.cs:57-78 | the pair (m, d) it merges was a live pair at the smallest distance, the first in row order on ties; slot m's list becomes its own followed by d's, with their mean, d is flagged dropped, every other slot unchanged; the exported layer is the live slots of the new state, each with the closest of its own descriptors to the slot's mean |
| Agglomerative.ClusteringAgglomerative.ChooseMerge | DescriptorClustering/DescriptorClustering/Hierarchical/Agglomerative/ClusteringAgglomerative.cs:57-71 | the survivor is FindMinimalDistanceIds' Item1 and the dropped slot its Item2, j < i: a live pair at the smallest distance of all live pairs, and no live pair earlier in row order is as near |
| Agglomerative.ClusteringAgglomerative.ExportClosest | DescriptorClustering/DescriptorClustering/Hierarchical/Agglomerative/ClusteringAgglomerative.cs:77-78 | one new centroid per live slot, in slot order, with the slot's id and list, and as mean the descriptor of its list closest to the slot's mean vector; the centroids partition the descriptors |
| Agglomerative.ClusteringAgglomerative.AssignLayer | DescriptorClustering/DescriptorClustering/Hierarchical/Agglomerative/ClusteringAgglomerative.cs:78 | AssignClosestDescriptors on clones of the live slots sets each mean to the first descriptor of its own list nearest to the slot's mean |
| Agglomerative.ClusteringAgglomerative.JoinNearest | DescriptorClustering/DescriptorClustering/Hierarchical/Agglomerative/ClusteringAgglomerative.cs:57-75 | the pair chosen as in FindMinimalDistanceIds is merged and the matrix refreshed: one live slot fewer, and the new slots are the old with that nearest pair joined |
| Agglomerative.ClusteringAgglomerative.PlanMerge | DescriptorClustering/DescriptorClustering/Hierarchical/Agglomerative/ClusteringAgglomerative.cs:163-169 | joining a nearest live pair (m, d) of the current slots is a merge step of the history, and every descriptor listed afterwards is still one of the descriptors |
| Agglomerative.ClusteringAgglomerative.ApplyMerge | DescriptorClustering/DescriptorClustering/Hierarchical/Agglomerative/ClusteringAgglomerative.cs:73-75 | MergeClusters then ComputeNewDistances leave exactly the planned slots, with the matrix current again |
| Agglomerative.ClusteringAgglomerative.SeededRecorded | DescriptorClustering/DescriptorClustering/Hierarchical/Agglomerative/ClusteringAgglomerative.cs:39 | the seeded slots, one descriptor each and none dropped, are the initial state of the history |
| Agglomerative.ClusteringAgglomerative.BestOfRows | DescriptorClustering/DescriptorClustering/Hierarchical/Agglomerative/ClusteringAgglomerative.cs:146-160 | the best of the rows' best entries is a live pair at the smallest distance of all live pairs, the first in row order on ties, and there is none exactly when fewer than two slots are live |
| Agglomerative.ClusteringAgglomerative.ExportedAssignable | DescriptorClustering/DescriptorClustering/Hierarchical/Agglomerative/ClusteringAgglomerative.cs:171-182 | each exported clone has a non-empty list of its slot's descriptors, of the slot's mean length, and a copy of the slot's mean |
| Agglomerative.MergesOf | DescriptorClustering/DescriptorClustering/Hierarchical/Agglomerative/ClusteringAgglomerative.cs:163-169 | slots that differ from a state only by joining a nearest live pair (m, d) into m, with their mean, and dropping d are that state's merge step |
| Agglomerative.ChainGrows | DescriptorClustering/DescriptorClustering/Hierarchical/Agglomerative/ClusteringAgglomerative.cs:52-80 | a merge history extended by one more merge step from its last state is still a merge history with the same start |
| Agglomerative.LayersGrow | DescriptorClustering/DescriptorClustering/Hierarchical/Agglomerative/ClusteringAgglomerative.cs:79 | storing the layer exported from the next history state one index lower keeps every stored layer exported from the state as many merges in as it is from the end |
| Agglomerative.ClusteringAgglomerative.PrecomputeAllDistances | DescriptorClustering/DescriptorClustering/Hierarchical/Agglomerative/ClusteringAgglomerative.cs:85-96 | every entry (i, j) holds the weighted distance between the means of slots i and j |
| Agglomerative.ClusteringAgglomerative.PrecomputeRow | DescriptorClustering/DescriptorClustering/Hierarchical/Agglomerative/ClusteringAgglomerative.cs:90-93 | row i and column i up to the diagonal set, every other entry unchanged |
| Agglomerative.ClusteringAgglomerative.ComputeNewDistances | DescriptorClustering/DescriptorClustering/Hierarchical/Agglomerative/ClusteringAgglomerative.cs:98-113 | the merged slot's row and column recomputed for every live slot, so the matrix again holds every live pair's distance |
| Agglomerative.ClusteringAgglomerative.MergeClusters | DescriptorClustering/DescriptorClustering/Hierarchical/Agglomerative/ClusteringAgglomerative.cs:163-169 | the survivor's list becomes its own followed by the dropped one's, with their mean; the dropped slot is flagged; every other slot unchanged; the live lists still hold each descriptor once |
| Agglomerative.ClusteringAgglomerative.CloneSlot | DescriptorClustering/DescriptorClustering/Hierarchical/Agglomerative/ClusteringAgglomerative.cs:178 | a new centroid with the slot's id and list and a new copy of its mean |
| Agglomerative.ClusteringAgglomerative.ExportLayer | DescriptorClustering/DescriptorClustering/Hierarchical/Agglomerative/ClusteringAgglomerative.cs:171-182 | one new, distinct clone of every live slot's centroid, in slot order |
| Agglomerative.ClusteringAgglomerative.ScanRow | DescriptorClustering/DescriptorClustering/Hierarchical/Agglomerative/ClusteringAgglomerative.cs:130-143 | the first live slot below i at the smallest distance from i, or -1 with none |
| Agglomerative.ClusteringAgglomerative.FindMinimalDistanceIds | DescriptorClustering/DescriptorClustering/Hierarchical/Agglomerative/ClusteringAgglomerative.cs:115-161 | fails with an index error exactly when fewer than two slots are live; otherwise a live pair (i, j), j < i, at the smallest distance, the first such in order |
| Agglomerative.ClusteringAgglomerative.ScanRows | DescriptorClustering/DescriptorClustering/Hierarchical/Agglomerative/ClusteringAgglomerative.cs:127-144 | every live row records its best live slot below it and that distance |
| Agglomerative.ClusteringAgglomerative.BestRow | DescriptorClustering/DescriptorClustering/Hierarchical/Agglomerative/ClusteringAgglomerative.cs:146-158 | -1 exactly when no live row has a live slot below it; otherwise the first live row with the smallest recorded distance |
| TestClustering.GroupScale | DescriptorClustering/TestClustering/HelperTestClass.cs:25-29 | the scale of position i is 1, 4/5, 3/5, 2/5 or 1/5 by its place in its group of five, always in (0, 1] |
| TestClustering.RandomVector | DescriptorClustering/TestClustering/HelperTestClass.cs:35-43 | a vector of the given dimension whose every component lies in [0, scale) |
| TestClustering.GetRandomVector | DescriptorClustering/TestClustering/HelperTestClass.cs:35-43 | a negative dimension fails to allocate; otherwise a new array holding RandomVector, with exactly dimension samples drawn |
| TestClustering.NewRandomDescriptor | DescriptorClustering/TestClustering/HelperTestClass.cs:25-29 | the vector is drawn first (a negative dimension fails), then a store past the end is an index error; otherwise a descriptor with that id and vector |
| TestClustering.GenerateHierarchicalDescriptors | DescriptorClustering/TestClustering/HelperTestClass.cs:16-33 | 5 * multiplier descriptors with Int32 wrap-around; a negative count fails to allocate; on success descriptor i has id i and the vector drawn with GroupScale(i) from the stream's samples in order |
| TestClustering.AddGroup | DescriptorClustering/TestClustering/HelperTestClass.cs:25-29 | one loop pass stores the next five descriptors with the five scales, or fails past the end of the array |
| TestClustering.GroupsShrink | DescriptorClustering/TestClustering/HelperTestClass.cs:23-30 | every component of descriptor i lies in [0, (5 - i mod 5) / 5) |
| TestClustering.GeneratedIdsAssignEachOnce | DescriptorClustering/TestClustering/HelperTestClass.cs:23-30 | the generated descriptors are numbered 0, ..., n - 1, each once |
| TestClustering.TestDescriptorAssignment | DescriptorClustering/TestClustering/HelperTestClass.cs:45-72 | passes exactly when the listed descriptor ids assign each of 0..n-1 once and no centroid id repeats; a negative count is out of range, an id outside the flags an index error, every other failure an assertion |
| TestClustering.CheckAssignment | DescriptorClustering/TestClustering/HelperTestClass.cs:49-71 | the three passes pass exactly when every descriptor is assigned once and the centroid ids are distinct |
| TestClustering.MarkLists | DescriptorClustering/TestClustering/HelperTestClass.cs:50-57 | the duplicate pass passes exactly when all ids are in range and distinct, and then the flags mark exactly the listed ids |
| TestClustering.MarkIds | DescriptorClustering/TestClustering/HelperTestClass.cs:52-56 | one list's ids marked: passes exactly when they stay in range and distinct from those seen |
| TestClustering.CheckAllMarked | DescriptorClustering/TestClustering/HelperTestClass.cs:60-63 | passes exactly when every flag is set |
| TestClustering.AssignsEachOnceIff | DescriptorClustering/TestClustering/HelperTestClass.cs:49-63 | the flag pass and the coverage pass together hold exactly when the ids are n distinct values of [0, n) |
| TestClustering.RearrangedLayerPasses | DescriptorClustering/TestClustering/HelperTestClass.cs:45-72 | a layer whose lists rearrange descriptors numbered 0..n-1, under distinct centroid ids, passes the test |

## Left out

- Parallelism: `Parallel.For` and `Parallel.ForEach` run sequentially in the model. This affects:
  - Mles.ComputeDistances (MLES.cs:251);
  - Simulator.Engine.RunSimulations (BrowsingSimulator.cs:29);
  - KMeans.ClusteringSimple.Assign and KMeans.ClusteringSimple.Update (ClusteringSimple.cs:28, 88);
  - Clustering.AssignClosestDescriptors (ClusteringBase.cs:51);
  - Agglomerative.ClusteringAgglomerative.PrecomputeAllDistances, ComputeNewDistances and FindMinimalDistanceIds (ClusteringAgglomerative.cs:87, 100, 127).

  The cache's ConcurrentDictionary is a map with first-writer-wins insertion, and Centroid's lock is a plain append. Interleavings are not modelled.
- Floating point: `float` and `double` are `real`. Rounding, NaN and infinities are not modelled. This affects:
  - Vectors.DistanceSqr and Items.GetDistanceSqr;
  - Agglomerative.GetDistance (the Ward distance);
  - the k-means means and deltas (KMeans.ClusteringSimple.Update);
  - Dropout.DropDecision;
  - the seed counts Divisive.ChildSeedCount and KMeans.SeedCount, whose truncations are taken on exact quotients and products (see the lines below).

  Ties that float rounding would create or break are not modelled either.
- Divisive.ChildSeedCount: the model takes the exact floor of len * expected / total. The C# computes `(int)(len / (total * 1.0 / expected))` in double (ClusteringDivisive.cs:88), and the rounded quotient total / expected can make it one less when the share is a whole number: (len, total, expected) = (9, 9, 7) gives 6 there and 7 here, and so do (18, 18, 7) → 6, (21, 21, 19) → 18 and (23, 23, 15) → 14.
- Divisive.ChildSeedCountFits: its bounds are proved for the exact floor above, not for the double quotient of the C#, which can be one smaller on a whole-number share. The model does not prove that the C# value obeys the same bounds.
- Divisive.ClusteringDivisive.ClusterParent: the seed count it passes to the parent's clustering is the exact share of Divisive.ChildSeedCount, so on the inputs above it asks for one seed more than the C#.
- KMeans.SeedCount: `(int)(n * seedPercentage)` (ClusteringSimpleBase.cs:25) is the floor of the exact product in the model. In double the product can round below a whole number, so n = 100 with seedPercentage 0.29 gives 28 in the C# and 29 here.
- Square-rooted L2 distances: Features.FeatureReader.FindSimilar takes the distance function as a parameter. `Distance.L2` (FeatureReader.cs:10-20) is not part of this model.
- The NaN entries that ComputeNewDistances writes for a dropped slot (ClusteringAgglomerative.cs:110): Agglomerative.ClusteringAgglomerative.ComputeNewDistances leaves those entries as they were. No later step reads a dropped slot's entries.
- Ranking.Rank orders equal distances in candidate order. Array.Sort (MLES.cs:208) leaves that order unspecified, so the model fixes one choice of the tie order.
- Out of memory: Mles.Mles.constructor takes an oracle `outOfMemory` that says whether the n-th cache insertion runs out of memory. The real allocator is not modelled.
- DEBUG builds: the model is a Release build. This affects:
  - Mles.NewMles does not call TestLayerChildrenCount and TestLayerParent (MLES.cs:36-45);
  - KMeans.ClusteringSimple.Clusterize does not call TestUniqueDescriptorAssignment (ClusteringSimple.cs:56);
  - Clustering.AssignClosestDescriptors does not call TestUniqueCentroidAssignment (ClusteringBase.cs:76).

  These validators are modelled as methods of their own, with lemmas that say when they pass.
- The GPU path (`#if GPU`, MLES.cs:20-26, 53-75, 257-300) calls an external library and is not part of this model.
- Console output: the VERBOSE and progress lines are not modelled. This affects Divisive.ClusteringDivisive.Clusterize (line 70 reads each top mean's id, which is modelled as a null check), Agglomerative.ClusteringAgglomerative.Clusterize, Simulator.Engine.RunSimulations, and the summaries of PrintSessionInfo and PrintDisplayInfo.
- File and stream I/O: files are values.
  - The feature and thumbnail files are a header text, int32 words and a data sequence.
  - Cache files are int32 word sequences.
  - Text files are lines.

  Directory creation, StreamWriter and BinaryWriter calls and file existence checks are parameters or left out. The same holds for LoadClassMapping, LoadDescriptorFile and Load3LayerClusteringFiles (BrowsingSimulatorCLI/Program.cs:70-150), whose work is file reading.
- Features.FeatureReader.GetFeatures: a read whose seek position falls inside the header is an IO error in the model. One example is feature id -1 with the data start at 4096. The model keeps the header apart from the data, but C# (FeatureReader.cs:145) seeks there and returns header bytes decoded as floats. Only a negative seek position fails in both.
- Bitmaps.BitmapReader.ReadFrame: the same gap (BitmapReader.cs:117). A seek inside the header fails in the model, while C# returns header bytes as pixels.
- Int32 wrap-around in the readers is not modelled:
  - Features.FeatureReader.ReadHeader: the metadata size (FeatureReader.cs:123-129) is unbounded, so it does not wrap for files whose tables exceed 2^31 bytes;
  - Bitmaps.BitmapReader.ReadHeader: the bitmap size `W*H*3` (BitmapReader.cs:93-102) is unbounded, so it does not wrap;
  - Features.FeatureReader.GetFeatureId: the sums `VideoShotOffsets[v] + shotId` and `ShotOffsets[..] + videoFrameId` (FeatureReader.cs:205-206) are unbounded, so they do not wrap. The same holds for BitmapReader's GetGlobal*Id sums.

  Other Int32 arithmetic is written out with wrap-around where it matters: the divisive expected layer size, the test-data count, and the elapsed-seconds conversion of the heuristic tool.
- Structures.Descriptor.Dimension: a descriptor always has a value array in the model. The null case, which returns 0 (Descriptor.cs:17), is not modelled.
- Cli.ParseFloatArray: Int32.Parse's value is stored exactly as a real. The C# stores it in a `float`, so values above 2^24 in magnitude lose precision.
- Cli.DirectoryName requires a drop factor below 10^7 in magnitude. Two cases outside that bound are not modelled:
  - a float of magnitude 10^7 or more prints as "1E+07" and similar (Program.cs:59), not as its digits;
  - distinct drop factors can become the same float, such as 16777216 and 16777217, so two runs write to one directory.

  Cli.DirectoryNamesDiffer therefore holds only below that bound.
- Items.GetDistanceSqr and Vectors.DistanceSqr require the second vector to be at least as long as the first. The C# loop throws IndexOutOfRange otherwise (Item.cs:31-40). Two places model that error:
  - Structures.GetDistanceSqr models the error path;
  - Mles.ComputeDistances reports it as an error.
- Clustering.AssignClosest and Clustering.AssignClosestDescriptors require each centroid with members to be Comparable: it has a mean, and every member is at least as long as the mean. The C# throws from GetDistanceSQR otherwise. Every caller in the model establishes this.
- KMeans.ClusteringSimple.Clusterize requires Consistent(): every descriptor has the data's dimension. The same holds for ClusterizeFraction. Divisive.ClusteringDivisive.Clusterize and its helpers require all descriptors to have one length (Uniform), and Agglomerative.ClusteringAgglomerative.Clusterize requires the same. With mixed lengths the C# throws from GetDistanceSQR or ComputeMean, and that error path is not modelled.
- RunClassSimulations, which the simulator's Main calls (Program.cs:54), has no definition in the engine source. Simulator.Engine.RunSimulations is modelled in its place.
- FeatureReader's GetVideoFeatures, GetShotFeatures, GetVideoId, GetShotId, GetFrameId, FindSimilars and FindSimilarsIgnoreNullRadius (FeatureReader.cs:153-201, 309-447) are not part of this model. They are batch and parallel variants over floating point. Their offset arithmetic is the one Offsets and Features.FeatureReader.GetFeatureId model.
- Agglomerative.ClusteringAgglomerative.Clusterize models only the overload with an iteration count. The overload without arguments is Clusterize(int.MaxValue), which gives n - 1 iterations (ClusteringAgglomerative.cs:28-31). WeightedCentroid.ToCentroids (:228-236) has no caller and is not modelled.
- Centroid.Clone and `new Centroid(int)` are used by ClusteringAgglomerative.cs:178 and :210, but Centroid.cs does not declare them. Structures.Centroid.Clone is pinned to a new centroid with the same id, a cloned mean and a copy of the list. The id constructor is pinned to no mean and an empty list.
- Clustering.AssignClosestDescriptors: ClusteringSimpleBase.cs:65 and ClusteringAgglomerative.cs:78 call a two-argument `AssignClosestDescriptors(centroids, descriptors)`, but ClusteringBase.cs declares only the one-argument version (ClusteringBase.cs:48-79). The model pins the call to the declared version. Each centroid's new mean is the closest of its own descriptors, and the second argument is ignored. The stale copy in Clustering/Simple/ClusteringSimple.cs:67-88 searched all the descriptors instead, and that reading is not modelled.
- Simulator.Run, Simulator.Engine.RunSimulations and Simulator.FoundsOf: BrowsingSimulator.cs:48 and :180 read `session.ItemFound`, but BrowsingSession.cs declares no such member. The model pins it to DisplayContainsSearchedItem: the current display shows an item with the searched item's id (ShowsId).
- Simulator.SessionLogLines and Simulator.DisplayLine: BrowsingSimulator.cs:102 reads `session.Logs`, and :135 and :143 read `log.Id` and `log.SearchedItemDistance`. The BrowsingLog the session builds (BrowsingSession.cs:183-197) has four fields and neither of these. The seven-field BrowsingLog of BrowsingLog.cs is never built by the session. The model pins `Logs` to the session's own log, in step order. The line ids and the distance texts become parameters, so what the C# would print for them is not modelled.
- Structures.Centroid (id) and Divisive.Renumber: ClusteringDivisive.cs:104 assigns `centroid.Id`, whose setter is private (Centroid.cs:11). The model pins the assignment as written: `id` is a writable field, and Renumber sets it in place.
- Mles.NewMles: BrowsingSimulatorCLI/Program.cs:46 calls a four-argument `new MLES(descriptors, classMapping, clustering, cacheFilename)`, but MLES.cs:31 declares only the three-argument constructor. The model pins the call to the declared constructor, and the class mapping is not passed to the index.
- Agglomerative.ClusteringAgglomerative.Clusterize requires that no slot is dropped yet, so only the first call on an object is modelled. The C# clears isDropped only in the constructor (ClusteringAgglomerative.cs:17-26) and keeps it after a run, so a second call on the same object starts from the dropped slots of the first. That second call is not modelled.
- The histogram fractions and the distance text format ("00000000.00") of the session log are not modelled. Simulator.SessionLogLines takes the distance text as a parameter.
- A round trip between the session-log writer and the viewer's parser is not modelled, because the viewer reads a seventh field that the writer never writes.
- Viewer windows, drawing code (HelperTestClass.cs:75-244), image extraction, and the stubs and stale duplicates of the clustering library are not part of this model.

## Findings

| source | as written | input that shows it | evidently intended | confidence | as-written member | corrected member |
|---|---|---|---|---|---|---|
| BrowsingSimulator/BrowsingSimulatorCLI/FeatureReader.cs:235 | the skip loop reads `ShotOffsets[nextShotOffset]` before comparing the index with the length | a table whose last shot has an offset, or any shot followed only by -1 entries: the read at index Length throws IndexOutOfRange | the count runs up to FeatureCount when no later shot has an offset | not executed | Offsets.ShotSpanAsWritten, Offsets.SkipOverruns, Offsets.LastShotOverruns | Offsets.Skip, Offsets.ShotSpan, Offsets.SkipAgrees, Offsets.ShotSpanAgrees |
| BrowsingSimulator/SessionLogViewerApp/BitmapReader.cs:253 | the same skip loop in GetFrameCount(video, shot) | the same table: the last shot with frames throws IndexOutOfRange | the count runs up to FrameCount | not executed | Bitmaps.BitmapReader.GetShotFrameCount, Offsets.LastShotOverruns | Offsets.ShotSpan, Offsets.ShotSpanAgrees |
| BrowsingSimulator/SessionLogViewerApp/BitmapReader.cs:162-165 | ReadShot seeks to `start + ShotOffsets[s] * bitmapSize` even when the shot has no frames and its offset is -1 | an empty shot with a bitmap larger than the data start (for example 64x64x3 = 12288 bytes against a 4096-byte start): Seek to a negative position throws IOException | an empty shot returns no bitmaps without seeking | not executed | Bitmaps.BitmapReader.EmptyShotSeekFails | Bitmaps.BitmapReader.ShotFramesIntended, Bitmaps.BitmapReader.ShotFramesIntendedAgrees |
