/**
 * ClusteringBase (DescriptorClustering/ClusteringBase.cs): what every clustering
 * shares. GenerateRandomSeeds samples seed descriptors without replacement;
 * AssignClosestDescriptors replaces each centroid's mean by the first of its own
 * descriptors at the smallest distance; TestUniqueCentroidAssignment is the DEBUG
 * check that no two centroids got the same descriptor. The module also holds the
 * vocabulary the clusterings are specified in: the first strict minimum a
 * `distance < smallest` scan finds, and the list a partition gives each cluster.
 */
module Clustering {
  import opened Wrappers
  import opened Vectors
  import opened DotNetRandom
  import opened Sampling
  import opened Structures

  // ---------------------------------------------------------------------------
  // Minimum scans and clusters

  /**
   * The position a scan keeping the entry with `distance < smallest` ends on: a
   * smallest entry, and the first of the smallest ones.
   */
  function FirstMin(xs: seq<real>): (k: nat)
    requires |xs| > 0
    ensures k < |xs|
    ensures forall j :: 0 <= j < |xs| ==> xs[k] <= xs[j]
    ensures forall j :: 0 <= j < k ==> xs[k] < xs[j]
    decreases |xs|
  {
    if |xs| == 1 then 0
    else
      var k := FirstMin(xs[..|xs| - 1]);
      if xs[|xs| - 1] < xs[k] then |xs| - 1 else k
  }

  /** The distances from m to each of vs, as GetDistanceSQR(m, v) computes them. */
  function DistancesFrom(m: Vec, vs: seq<Vec>): (ds: seq<real>)
    requires forall i :: 0 <= i < |vs| ==> |m| <= |vs[i]|
    ensures |ds| == |vs| && forall i :: 0 <= i < |vs| ==> ds[i] == DistanceSqr(m, vs[i])
  {
    seq(|vs|, i requires 0 <= i < |vs| => DistanceSqr(m, vs[i]))
  }

  /** One more entry: the first minimum moves to it exactly when it is strictly smaller. */
  lemma FirstMinStep(xs: seq<real>, i: nat, k: nat)
    requires i < |xs| && (i > 0 ==> k == FirstMin(xs[..i]))
    ensures (if i == 0 || xs[i] < xs[k] then i else k) == FirstMin(xs[..i + 1])
  {
    assert xs[..i + 1][..i] == xs[..i];
  }

  /** The distances from each of ms to v, as GetDistanceSQR(mean, v) computes them. */
  function DistancesTo(ms: seq<Vec>, v: Vec): (ds: seq<real>)
    requires forall k :: 0 <= k < |ms| ==> |ms[k]| <= |v|
    ensures |ds| == |ms| && forall k :: 0 <= k < |ms| ==> ds[k] == DistanceSqr(ms[k], v)
  {
    seq(|ms|, k requires 0 <= k < |ms| => DistanceSqr(ms[k], v))
  }

  /** The members xs[i] whose choice ch[i] is k, in list order. */
  function Cluster<T>(xs: seq<T>, ch: seq<nat>, k: nat): seq<T>
    requires |xs| == |ch|
    decreases |xs|
  {
    if |xs| == 0 then []
    else
      var n := |xs| - 1;
      Cluster(xs[..n], ch[..n], k) + if ch[n] == k then [xs[n]] else []
  }

  /** No members, no cluster. */
  lemma ClusterOfNone<T>(xs: seq<T>, ch: seq<nat>, k: nat)
    requires |xs| == |ch|
    ensures Cluster(xs[..0], ch[..0], k) == []
  {
  }

  /** Extending the members by one appends it to its own cluster and leaves the others alone. */
  lemma ClusterSnoc<T>(xs: seq<T>, ch: seq<nat>, i: nat, k: nat)
    requires |xs| == |ch| && i < |xs|
    ensures Cluster(xs[..i + 1], ch[..i + 1], k) == Cluster(xs[..i], ch[..i], k) + if ch[i] == k then [xs[i]] else []
  {
    assert xs[..i + 1][..i] == xs[..i] && ch[..i + 1][..i] == ch[..i];
  }

  /** The lists one after the other. */
  function Flatten<T>(ls: seq<seq<T>>): seq<T>
    decreases |ls|
  {
    if |ls| == 0 then [] else Flatten(ls[..|ls| - 1]) + ls[|ls| - 1]
  }

  /** The clusters 0, ..., n - 1 of a choice of cluster for each member. */
  function Clusters<T>(xs: seq<T>, ch: seq<nat>, n: nat): (cl: seq<seq<T>>)
    requires |xs| == |ch|
    ensures |cl| == n && forall k :: 0 <= k < n ==> cl[k] == Cluster(xs, ch, k)
  {
    seq(n, k requires 0 <= k < n => Cluster(xs, ch, k))
  }

  /** A member is in a cluster exactly when it was chosen for it. */
  lemma {:induction false} InCluster<T>(xs: seq<T>, ch: seq<nat>, k: nat, x: T)
    requires |xs| == |ch|
    ensures x in Cluster(xs, ch, k) <==> exists i :: 0 <= i < |xs| && xs[i] == x && ch[i] == k
    decreases |xs|
  {
    if |xs| > 0 {
      var n := |xs| - 1;
      InCluster(xs[..n], ch[..n], k, x);
      if x in Cluster(xs, ch, k) && x !in Cluster(xs[..n], ch[..n], k) {
        assert xs[n] == x && ch[n] == k;
      }
      if exists i :: 0 <= i < |xs| && xs[i] == x && ch[i] == k {
        var i :| 0 <= i < |xs| && xs[i] == x && ch[i] == k;
        if i < n {
          assert xs[..n][i] == x && ch[..n][i] == k;
        }
      }
    }
  }

  /** Adding one member to cluster c adds it to the flattened clusters. */
  lemma {:induction false} FlattenGrows<T>(cl: seq<seq<T>>, c: nat, x: T)
    requires c < |cl|
    ensures multiset(Flatten(cl[c := cl[c] + [x]])) == multiset(Flatten(cl)) + multiset{x}
    decreases |cl|
  {
    var n := |cl| - 1;
    var grown := cl[c := cl[c] + [x]];
    assert Flatten(grown) == Flatten(grown[..n]) + grown[n];
    assert Flatten(cl) == Flatten(cl[..n]) + cl[n];
    hide Flatten;
    if c < n {
      assert grown[..n] == cl[..n][c := cl[c] + [x]];
      FlattenGrows(cl[..n], c, x);
    } else {
      assert grown[..n] == cl[..n];
    }
  }

  /**
   * When every member chose one of clusters 0, ..., n - 1, the clusters together
   * hold every member exactly as often as the list does: they partition it.
   */
  lemma {:induction false} ClustersPartition<T>(xs: seq<T>, ch: seq<nat>, n: nat)
    requires |xs| == |ch| && forall i :: 0 <= i < |ch| ==> ch[i] < n
    ensures multiset(Flatten(Clusters(xs, ch, n))) == multiset(xs)
    decreases |xs|
  {
    hide Flatten, Clusters, Cluster;
    if |xs| == 0 {
      EmptyClusters<T>(n);
    } else {
      var m := |xs| - 1;
      ClustersPartition(xs[..m], ch[..m], n);
      ClustersGrow(xs, ch, n);
      assert xs == xs[..m] + [xs[m]];
    }
  }

  /** The last member adds itself, once, to the clusters taken together. */
  lemma ClustersGrow<T>(xs: seq<T>, ch: seq<nat>, n: nat)
    requires |xs| == |ch| && |xs| > 0 && ch[|xs| - 1] < n
    ensures var m := |xs| - 1;
      multiset(Flatten(Clusters(xs, ch, n))) == multiset(Flatten(Clusters(xs[..m], ch[..m], n))) + multiset{xs[m]}
  {
    var m := |xs| - 1;
    ClustersSnoc(xs, ch, n);
    FlattenGrows(Clusters(xs[..m], ch[..m], n), ch[m], xs[m]);
  }

  /** The last member joins the cluster it chose; the other clusters stay as they were. */
  lemma ClustersSnoc<T>(xs: seq<T>, ch: seq<nat>, n: nat)
    requires |xs| == |ch| && |xs| > 0 && ch[|xs| - 1] < n
    ensures var m := |xs| - 1; var before := Clusters(xs[..m], ch[..m], n);
      Clusters(xs, ch, n) == before[ch[m] := before[ch[m]] + [xs[m]]]
  {
    var m := |xs| - 1;
    var before := Clusters(xs[..m], ch[..m], n);
    forall k | 0 <= k < n
      ensures Clusters(xs, ch, n)[k] == before[ch[m] := before[ch[m]] + [xs[m]]][k]
    {
      assert Cluster(xs, ch, k) == Cluster(xs[..m], ch[..m], k) + if ch[m] == k then [xs[m]] else [];
    }
  }

  /** No members, no cluster holds anything. */
  lemma {:induction false} EmptyClusters<T>(n: nat)
    ensures Flatten(Clusters<T>([], [], n)) == []
    decreases n
  {
    if n > 0 {
      EmptyClusters<T>(n - 1);
      assert Clusters<T>([], [], n)[..n - 1] == Clusters<T>([], [], n - 1);
    }
  }

  /** A cluster of descriptors has the vectors of the same cluster of their vectors. */
  lemma {:induction false} ClusterVals(ds: seq<Descriptor>, ch: seq<nat>, k: nat)
    requires |ds| == |ch|
    ensures Vals(Cluster(ds, ch, k)) == Cluster(Vals(ds), ch, k)
    decreases |ds|
  {
    if |ds| > 0 {
      var n := |ds| - 1;
      ClusterVals(ds[..n], ch[..n], k);
      assert Vals(ds)[..n] == Vals(ds[..n]);
      assert Vals(Cluster(ds, ch, k)) == Vals(Cluster(ds[..n], ch[..n], k)) + if ch[n] == k then [ds[n].values[..]] else [];
    }
  }

  /** A cluster of descriptors has the ids of the same cluster of their ids. */
  lemma {:induction false} ClusterIds(ds: seq<Descriptor>, ch: seq<nat>, k: nat)
    requires |ds| == |ch|
    ensures IdsOf(Cluster(ds, ch, k)) == Cluster(IdsOf(ds), ch, k)
    decreases |ds|
  {
    if |ds| > 0 {
      var n := |ds| - 1;
      ClusterIds(ds[..n], ch[..n], k);
      assert IdsOf(ds)[..n] == IdsOf(ds[..n]);
      assert IdsOf(Cluster(ds, ch, k)) == IdsOf(Cluster(ds[..n], ch[..n], k)) + if ch[n] == k then [ds[n].id] else [];
    }
  }

  /** Flattening two runs of lists is flattening each and joining the results. */
  lemma {:induction false} FlattenAppend<T>(a: seq<seq<T>>, b: seq<seq<T>>)
    ensures Flatten(a + b) == Flatten(a) + Flatten(b)
    decreases |b|
  {
    if |b| > 0 {
      var n := |b| - 1;
      FlattenAppend(a, b[..n]);
      assert (a + b)[..|a + b| - 1] == a + b[..n];
    } else {
      assert a + b == a;
    }
  }

  /**
   * The first Offset(ls, k) + i entries of the flattened lists are lists 0..k-1
   * followed by the first i entries of list k.
   */
  lemma FlattenPrefix<T>(ls: seq<seq<T>>, k: nat, i: nat)
    requires k < |ls| && i <= |ls[k]|
    ensures Offset(ls, k) + i <= |Flatten(ls)|
    ensures Flatten(ls)[..Offset(ls, k) + i] == Flatten(ls[..k]) + ls[k][..i]
  {
    assert ls == ls[..k] + [ls[k]] + ls[k + 1..];
    FlattenAppend(ls[..k] + [ls[k]], ls[k + 1..]);
    FlattenAppend(ls[..k], [ls[k]]);
    assert Flatten([ls[k]]) == ls[k] by {
      assert [ls[k]][..0] == [];
    }
  }

  /** Flattening commutes with taking ids. */
  lemma {:induction false} FlattenIds(ls: seq<seq<Descriptor>>)
    ensures IdsOf(Flatten(ls)) == Flatten(seq(|ls|, k requires 0 <= k < |ls| => IdsOf(ls[k])))
    decreases |ls|
  {
    if |ls| > 0 {
      var n := |ls| - 1;
      FlattenIds(ls[..n]);
      var ids := seq(|ls|, k requires 0 <= k < |ls| => IdsOf(ls[k]));
      assert ids[..n] == seq(n, k requires 0 <= k < n => IdsOf(ls[..n][k]));
      assert IdsOf(Flatten(ls[..n]) + ls[n]) == IdsOf(Flatten(ls[..n])) + IdsOf(ls[n]);
    }
  }

  /** A list of distinct ints holds each value at most once. */
  lemma {:induction false} DistinctCounts(a: seq<int>, x: int)
    requires DistinctInts(a)
    ensures multiset(a)[x] <= 1
    decreases |a|
  {
    if |a| > 0 {
      var n := |a| - 1;
      assert a == a[..n] + [a[n]];
      DistinctCounts(a[..n], x);
      if a[n] == x {
        assert x !in a[..n];
      }
    }
  }

  /** A rearrangement of distinct ints is distinct. */
  lemma DistinctPermutation(a: seq<int>, b: seq<int>)
    requires multiset(a) == multiset(b) && DistinctInts(a)
    ensures DistinctInts(b)
  {
    forall i, j | 0 <= i < j < |b| ensures b[i] != b[j] {
      if b[i] == b[j] {
        assert b == b[..j] + b[j..];
        assert b[i] in b[..j] && b[j] in b[j..];
        assert multiset(b)[b[i]] == multiset(b[..j])[b[i]] + multiset(b[j..])[b[i]];
        DistinctCounts(a, b[i]);
        assert false;
      }
    }
  }

  /**
   * Clusters of descriptors with distinct ids hold every id at most once, all
   * clusters together: the DEBUG duplicate check cannot fire on a partition.
   */
  lemma ClustersKeepIdsDistinct(ds: seq<Descriptor>, ch: seq<nat>, n: nat)
    requires |ds| == |ch| && forall i :: 0 <= i < |ch| ==> ch[i] < n
    requires DistinctInts(IdsOf(ds))
    ensures DistinctInts(IdsOf(Flatten(Clusters(ds, ch, n))))
  {
    var cl := Clusters(ds, ch, n);
    FlattenIds(cl);
    var idCl := seq(|cl|, k requires 0 <= k < |cl| => IdsOf(cl[k]));
    forall k | 0 <= k < n ensures idCl[k] == Clusters(IdsOf(ds), ch, n)[k] {
      ClusterIds(ds, ch, k);
    }
    assert idCl == Clusters(IdsOf(ds), ch, n);
    ClustersPartition(IdsOf(ds), ch, n);
    DistinctPermutation(IdsOf(ds), IdsOf(Flatten(cl)));
  }

  /**
   * Means taken one from each of several different clusters of descriptors with
   * distinct ids have distinct ids.
   */
  lemma ClusterMeansDistinct(ds: seq<Descriptor>, ch: seq<nat>, kept: seq<nat>, means: seq<Descriptor>)
    requires |ds| == |ch| && |means| == |kept|
    requires forall j, j' :: 0 <= j < j' < |kept| ==> kept[j] < kept[j']
    requires forall j :: 0 <= j < |kept| ==> means[j] in Cluster(ds, ch, kept[j])
    requires DistinctInts(IdsOf(ds))
    ensures DistinctInts(IdsOf(means))
  {
    forall j, j' | 0 <= j < j' < |kept| ensures means[j].id != means[j'].id {
      MeansOfClustersDiffer(ds, ch, kept[j], kept[j'], means[j], means[j']);
    }
  }

  /** Members of two different clusters of descriptors with distinct ids have different ids. */
  lemma MeansOfClustersDiffer(ds: seq<Descriptor>, ch: seq<nat>, k: nat, k': nat, m: Descriptor, m': Descriptor)
    requires |ds| == |ch| && k != k' && m in Cluster(ds, ch, k) && m' in Cluster(ds, ch, k')
    requires DistinctInts(IdsOf(ds))
    ensures m.id != m'.id
  {
    InCluster(ds, ch, k, m);
    InCluster(ds, ch, k', m');
    hide Cluster;
    var i :| 0 <= i < |ds| && ds[i] == m && ch[i] == k;
    var i' :| 0 <= i' < |ds| && ds[i'] == m' && ch[i'] == k';
    assert IdsOf(ds)[i] == m.id && IdsOf(ds)[i'] == m'.id;
  }

  // ---------------------------------------------------------------------------
  // Filtering in order, and sums

  /** The positions whose flag is set, in increasing order. */
  function Kept(flags: seq<bool>): (ks: seq<nat>)
    ensures |ks| <= |flags|
    ensures forall j :: 0 <= j < |ks| ==> ks[j] < |flags| && flags[ks[j]]
    ensures forall j, j' :: 0 <= j < j' < |ks| ==> ks[j] < ks[j']
    ensures forall k :: 0 <= k < |flags| && flags[k] ==> k in ks
    decreases |flags|
  {
    if |flags| == 0 then []
    else
      var n := |flags| - 1;
      Kept(flags[..n]) + if flags[n] then [n] else []
  }

  /** Keeping as many positions as there are means keeping every position, each in place. */
  lemma {:induction false} KeptEverything(flags: seq<bool>)
    requires |Kept(flags)| == |flags|
    ensures forall k :: 0 <= k < |flags| ==> flags[k]
    ensures forall j :: 0 <= j < |flags| ==> Kept(flags)[j] == j
    decreases |flags|
  {
    hide Kept;
    if |flags| > 0 {
      var n := |flags| - 1;
      var before := Kept(flags[..n]);
      KeptUnfold(flags);
      if !flags[n] {
        assert false;
      }
      KeptEverything(flags[..n]);
      forall j | 0 <= j < |flags| ensures Kept(flags)[j] == j {
        if j < n {
          assert Kept(flags)[j] == before[j];
        }
      }
    }
  }

  lemma KeptUnfold(flags: seq<bool>)
    requires |flags| > 0
    ensures var n := |flags| - 1; Kept(flags) == Kept(flags[..n]) + if flags[n] then [n] else []
  {
  }

  /** The entries at the given positions, in the order given. */
  function Select<T>(xs: seq<T>, ks: seq<nat>): (s: seq<T>)
    requires forall j :: 0 <= j < |ks| ==> ks[j] < |xs|
    ensures |s| == |ks| && forall j :: 0 <= j < |ks| ==> s[j] == xs[ks[j]]
  {
    seq(|ks|, j requires 0 <= j < |ks| => xs[ks[j]])
  }

  /** Enumerable.Sum over the reals, added in order. */
  function Sum(xs: seq<real>): (s: real)
    ensures (forall i :: 0 <= i < |xs| ==> xs[i] >= 0.0) ==> s >= 0.0
    ensures (forall i :: 0 <= i < |xs| ==> xs[i] == 0.0) ==> s == 0.0
    decreases |xs|
  {
    if |xs| == 0 then 0.0 else Sum(xs[..|xs| - 1]) + xs[|xs| - 1]
  }

  // ---------------------------------------------------------------------------
  // Centroid lists

  predicate Distinct(cs: seq<Centroid>)
  {
    forall i, j :: 0 <= i < j < |cs| ==> cs[i] != cs[j]
  }

  /** Every centroid has a mean. */
  predicate HasMeans(cs: seq<Centroid>)
    reads (set k | 0 <= k < |cs| :: cs[k])`mean
  {
    forall k :: 0 <= k < |cs| ==> cs[k].mean != null
  }

  /** The mean vectors of centroids that all have one. */
  function MeanVals(cs: seq<Centroid>): (ms: seq<Vec>)
    requires HasMeans(cs)
    reads (set k | 0 <= k < |cs| :: cs[k])`mean
    reads set k | 0 <= k < |cs| :: cs[k].mean.values
    ensures |ms| == |cs| && forall k :: 0 <= k < |cs| ==> ms[k] == cs[k].mean.values[..]
  {
    if |cs| == 0 then [] else MeanVals(cs[..|cs| - 1]) + [cs[|cs| - 1].mean.values[..]]
  }

  /** The descriptor lists of centroids, in centroid order. */
  function Lists(cs: seq<Centroid>): (ls: seq<seq<Descriptor>>)
    reads (set k | 0 <= k < |cs| :: cs[k])`descriptors
    ensures |ls| == |cs| && forall k :: 0 <= k < |cs| ==> ls[k] == cs[k].descriptors
  {
    if |cs| == 0 then [] else Lists(cs[..|cs| - 1]) + [cs[|cs| - 1].descriptors]
  }

  /** The ids of the centroids' means, for centroids that all have one. */
  function MeanIds(cs: seq<Centroid>): (ids: seq<int>)
    requires HasMeans(cs)
    reads (set k | 0 <= k < |cs| :: cs[k])`mean
    ensures |ids| == |cs| && forall k :: 0 <= k < |cs| ==> ids[k] == cs[k].mean.id
  {
    if |cs| == 0 then [] else MeanIds(cs[..|cs| - 1]) + [cs[|cs| - 1].mean.id]
  }

  predicate DistinctInts(xs: seq<int>)
  {
    forall i, j :: 0 <= i < j < |xs| ==> xs[i] != xs[j]
  }

  // ---------------------------------------------------------------------------
  // GenerateRandomSeeds

  /** The seed descriptors the sampler takes from the descriptor list with the given samples. */
  function Seeds(descriptors: seq<Descriptor>, seedCount: nat, stream: nat -> int): (s: seq<Descriptor>)
    requires IsSampleStream(stream)
    ensures seedCount <= |descriptors| ==> |s| == seedCount
    ensures forall x :: x in s ==> x in descriptors
  {
    PicksAreASample(descriptors, seedCount, stream, 0);
    Picks(descriptors, seedCount, stream, 0)
  }

  /**
   * GenerateRandomSeeds: a seed count outside [1, |descriptors|] is out of range.
   * Otherwise new Random(randomSeed) (the samples `stream`) picks a descriptor with
   * Next(Count - 1) from a linked list of those not yet picked, seedCount times;
   * centroid i gets id i, the i-th pick as mean and an empty list.
   */
  method GenerateRandomSeeds(descriptors: seq<Descriptor>, seedCount: int, stream: nat -> int)
    returns (r: Result<seq<Centroid>>)
    requires IsSampleStream(stream)
    ensures r.Err? <==> seedCount <= 0 || seedCount > |descriptors|
    ensures r.Err? ==> r.error == ArgumentOutOfRange
    ensures r.Ok? ==> |r.value| == seedCount && Distinct(r.value)
    ensures r.Ok? ==> |Seeds(descriptors, seedCount, stream)| == seedCount
    ensures r.Ok? ==> forall i :: 0 <= i < seedCount ==>
      (fresh(r.value[i]) && r.value[i].id == i &&
       r.value[i].mean == Seeds(descriptors, seedCount, stream)[i] && r.value[i].descriptors == [])
  {
    if seedCount <= 0 || seedCount > |descriptors| {
      return Err(ArgumentOutOfRange);
    }
    var result: seq<Centroid> := [];
    var remaining := descriptors;
    var random := new Rng(stream);
    ghost var picked: seq<Descriptor> := [];
    ghost var all := Seeds(descriptors, seedCount, stream);
    assert SeededAs(result, picked);
    assert PickedSoFar(picked, remaining, seedCount - 0, stream, 0, all);
    hide Picks, Seeds, RemoveAt, SeededAs, Distinct, PickedSoFar;
    for i := 0 to seedCount
      invariant |remaining| == |descriptors| - i && random.drawn == i && random.stream == stream
      invariant |result| == i && |picked| == i && SeededAs(result, picked)
      invariant PickedSoFar(picked, remaining, seedCount - i, stream, i, all)
      invariant forall k :: 0 <= k < i ==> fresh(result[k])
    {
      var randomId := random.NextBelow(|remaining| - 1);
      var index := randomId.value;
      assert index == PickIndex(stream, i, |remaining|);
      var node := remaining[index];
      var centroid := new Centroid.Seeded(i, node);
      PickStep(picked, remaining, seedCount - i, stream, i, all);
      SeededSnoc(result, picked, centroid, node);
      result := result + [centroid];
      picked := picked + [node];
      remaining := RemoveAt(remaining, index);
    }
    PickedAll(picked, remaining, stream, seedCount, all);
    SeededAsIs(result, picked);
    return Ok(result);
  }

  /** Centroid k has id k, the k-th mean and an empty list; no centroid twice. */
  ghost predicate SeededAs(cs: seq<Centroid>, means: seq<Descriptor>)
    reads set k | 0 <= k < |cs| :: cs[k]
  {
    |cs| == |means| && Distinct(cs) &&
    forall k :: 0 <= k < |cs| ==> cs[k].id == k && cs[k].mean == means[k] && cs[k].descriptors == []
  }

  /** One more such centroid, different from the others, keeps the list SeededAs. */
  lemma SeededSnoc(cs: seq<Centroid>, means: seq<Descriptor>, c: Centroid, m: Descriptor)
    requires SeededAs(cs, means) && c !in cs && c.id == |cs| && c.mean == m && c.descriptors == []
    ensures SeededAs(cs + [c], means + [m])
  {
  }

  /** What SeededAs says, spelled out. */
  lemma SeededAsIs(cs: seq<Centroid>, means: seq<Descriptor>)
    requires SeededAs(cs, means)
    ensures |cs| == |means| && Distinct(cs)
    ensures forall k :: 0 <= k < |cs| ==> cs[k].id == k && cs[k].mean == means[k] && cs[k].descriptors == []
  {
  }

  /** No picks asked, none taken. */
  lemma PicksNone<T>(remaining: seq<T>, stream: nat -> int, pos: nat)
    requires IsSampleStream(stream)
    ensures Picks(remaining, 0, stream, pos) == []
  {
  }

  /** One step of the sampler: the first pick, then the picks from what is left. */
  /** The picks taken, then the picks still to come, make up all the picks. */
  ghost predicate PickedSoFar<T>(picked: seq<T>, remaining: seq<T>, k: nat, stream: nat -> int, pos: nat, all: seq<T>)
    requires IsSampleStream(stream)
  {
    picked + Picks(remaining, k, stream, pos) == all
  }

  /** Taking the next pick moves it from the picks still to come to the picks taken. */
  lemma PickStep<T>(picked: seq<T>, remaining: seq<T>, k: nat, stream: nat -> int, pos: nat, all: seq<T>)
    requires IsSampleStream(stream) && k > 0 && |remaining| > 0 && PickedSoFar(picked, remaining, k, stream, pos, all)
    ensures var i := PickIndex(stream, pos, |remaining|);
      PickedSoFar(picked + [remaining[i]], RemoveAt(remaining, i), k - 1, stream, pos + 1, all)
  {
    PicksUnfold(remaining, k, stream, pos);
    var i := PickIndex(stream, pos, |remaining|);
    assert picked + [remaining[i]] + Picks(RemoveAt(remaining, i), k - 1, stream, pos + 1) == picked + Picks(remaining, k, stream, pos);
  }

  /** With no picks to come, the picks taken are all of them. */
  lemma PickedAll<T>(picked: seq<T>, remaining: seq<T>, stream: nat -> int, pos: nat, all: seq<T>)
    requires IsSampleStream(stream) && PickedSoFar(picked, remaining, 0, stream, pos, all)
    ensures picked == all
  {
    PicksNone(remaining, stream, pos);
    assert picked + [] == picked;
  }

  lemma PicksUnfold<T>(remaining: seq<T>, k: nat, stream: nat -> int, pos: nat)
    requires IsSampleStream(stream) && k > 0 && |remaining| > 0
    ensures var i := PickIndex(stream, pos, |remaining|);
      Picks(remaining, k, stream, pos) == [remaining[i]] + Picks(RemoveAt(remaining, i), k - 1, stream, pos + 1)
  {
  }

  /**
   * The seeds are seedCount different descriptors of the list (different list
   * positions when the list holds no object twice), and the descriptor that ends
   * the list is a seed only when every descriptor is.
   */
  lemma SeedsSample(descriptors: seq<Descriptor>, seedCount: nat, stream: nat -> int)
    requires IsSampleStream(stream) && 0 < seedCount <= |descriptors|
    ensures |Seeds(descriptors, seedCount, stream)| == seedCount
    ensures forall x :: x in Seeds(descriptors, seedCount, stream) ==> x in descriptors
    ensures NoDuplicates(descriptors) ==> NoDuplicates(Seeds(descriptors, seedCount, stream))
    ensures NoDuplicates(descriptors) && seedCount < |descriptors| ==>
      descriptors[|descriptors| - 1] !in Seeds(descriptors, seedCount, stream)
  {
    PicksAreASample(descriptors, seedCount, stream, 0);
    if NoDuplicates(descriptors) && seedCount < |descriptors| {
      LastPickedOnlyWhenAllAre(descriptors, seedCount, stream, 0);
    }
  }

  // ---------------------------------------------------------------------------
  // AssignClosestDescriptors

  /**
   * The descriptor of a list AssignClosestDescriptors picks for a centroid whose
   * mean is m: the first at the smallest distance from m.
   */
  function ClosestIndex(m: Vec, vs: seq<Vec>): (i: nat)
    requires |vs| > 0 && forall j :: 0 <= j < |vs| ==> |m| <= |vs[j]|
    ensures i < |vs|
  {
    FirstMin(DistancesFrom(m, vs))
  }

  /** The closest descriptor is no farther than any other, and strictly closer than those before it. */
  lemma ClosestIsNearest(m: Vec, vs: seq<Vec>)
    requires |vs| > 0 && forall j :: 0 <= j < |vs| ==> |m| <= |vs[j]|
    ensures var i := ClosestIndex(m, vs);
      (forall j :: 0 <= j < |vs| ==> DistanceSqr(m, vs[i]) <= DistanceSqr(m, vs[j])) &&
      (forall j :: 0 <= j < i ==> DistanceSqr(m, vs[i]) < DistanceSqr(m, vs[j]))
  {
    var ds := DistancesFrom(m, vs);
    var i := FirstMin(ds);
    assert forall j :: 0 <= j < |vs| ==> ds[i] <= ds[j];
  }

  /** Every descriptor of the centroid's list can be compared with its mean. */
  predicate Comparable(c: Centroid)
    reads c, c.mean
  {
    c.mean != null && forall i :: 0 <= i < |c.descriptors| ==> c.mean.values.Length <= c.descriptors[i].values.Length
  }

  /**
   * The descriptor AssignClosestDescriptors makes a centroid's mean: none for an
   * empty list, else the first closest to the current mean.
   */
  function ClosestOf(c: Centroid): (d: Descriptor?)
    requires c.descriptors == [] || Comparable(c)
    reads c, c.mean, if c.mean != null then {c.mean.values} else {}
    reads set i | 0 <= i < |c.descriptors| :: c.descriptors[i].values
    ensures d == null <==> c.descriptors == []
    ensures d != null ==> d in c.descriptors
  {
    if c.descriptors == [] then null
    else c.descriptors[ClosestIndex(c.mean.values[..], Vals(c.descriptors))]
  }

  /** The scan of AssignClosestDescriptors over one centroid's list: the first closest to the mean. */
  method ClosestPosition(mean: Descriptor, ds: seq<Descriptor>) returns (closest: nat)
    requires |ds| > 0 && forall i :: 0 <= i < |ds| ==> mean.values.Length <= ds[i].values.Length
    ensures closest == ClosestIndex(mean.values[..], Vals(ds))
  {
    ghost var distances := DistancesFrom(mean.values[..], Vals(ds));
    var smallest := 0.0;
    closest := 0;
    hide FirstMin, DistancesFrom, Vals;
    for i := 0 to |ds|
      invariant i > 0 ==> closest < i && closest == FirstMin(distances[..i]) && smallest == distances[closest]
    {
      var distance := GetDistanceSqr(mean.values, ds[i].values);
      assert distance.value == distances[i];
      FirstMinStep(distances, i, closest);
      if i == 0 || distance.value < smallest {
        smallest := distance.value;
        closest := i;
      }
    }
    assert distances[..|ds|] == distances;
  }

  /**
   * The inner loop of AssignClosestDescriptors for one centroid: the scan over its
   * descriptors, then the mean set to the closest, or to none for an empty list.
   */
  method AssignClosest(c: Centroid)
    requires c.descriptors != [] ==> Comparable(c)
    modifies c`mean
    ensures c.descriptors == old(c.descriptors)
    ensures c.mean == old(ClosestOf(c))
  {
    var ds := c.descriptors;
    if ds == [] {
      c.AssignClosestDescriptor(null);
      return;
    }
    var closest := ClosestPosition(c.mean, ds);
    c.AssignClosestDescriptor(ds[closest]);
  }

  /**
   * AssignClosestDescriptors: every centroid's mean becomes the first of its own
   * descriptors closest to the mean it had, or none when its list is empty; the
   * lists stay as they are.
   */
  method AssignClosestDescriptors(cs: seq<Centroid>)
    requires Distinct(cs)
    requires forall k :: 0 <= k < |cs| ==> cs[k].descriptors == [] || Comparable(cs[k])
    modifies cs`mean
    ensures forall k :: 0 <= k < |cs| ==> cs[k].descriptors == old(cs[k].descriptors)
    ensures forall k :: 0 <= k < |cs| ==> cs[k].mean == old(ClosestOf(cs[k]))
  {
    hide ClosestOf;
    for k := 0 to |cs|
      invariant forall j :: 0 <= j < k ==> cs[j].mean == old(ClosestOf(cs[j]))
      invariant forall j :: 0 <= j < |cs| ==> cs[j].descriptors == old(cs[j].descriptors)
      invariant forall j :: k <= j < |cs| ==> cs[j].mean == old(cs[j].mean)
    {
      AssignClosest(cs[k]);
    }
  }

  // ---------------------------------------------------------------------------
  // TestUniqueCentroidAssignment

  /**
   * TestUniqueCentroidAssignment: passes exactly when every centroid has a mean
   * and no two means have the same id; a missing mean is a null reference, a
   * repeated id an ArgumentException, whichever the scan meets first.
   */
  method TestUniqueCentroidAssignment(cs: seq<Centroid>) returns (r: Outcome)
    ensures r.Pass? <==> HasMeans(cs) && DistinctInts(MeanIds(cs))
    ensures r.Fail? ==> r.error == NullReference || r.error == Argument
    ensures r.Fail? && HasMeans(cs) ==> r.error == Argument
  {
    var hashSet: set<int> := {};
    for k := 0 to |cs|
      invariant forall j :: 0 <= j < k ==> cs[j].mean != null
      invariant hashSet == set j | 0 <= j < k :: cs[j].mean.id
      invariant forall i, j :: 0 <= i < j < k ==> cs[i].mean.id != cs[j].mean.id
    {
      if cs[k].mean == null {
        return Fail(NullReference);
      }
      if cs[k].mean.id in hashSet {
        return Fail(Argument);
      }
      hashSet := hashSet + {cs[k].mean.id};
    }
    return Pass;
  }

  /**
   * After AssignClosestDescriptors on centroids whose lists are disjoint and non-empty,
   * with descriptor ids that are all different, the DEBUG check passes: every mean is
   * a descriptor of its own list.
   */
  lemma ClosestMeansUnique(cs: seq<Centroid>, all: seq<int>)
    requires forall k :: 0 <= k < |cs| ==> cs[k].descriptors != [] && cs[k].mean in cs[k].descriptors
    requires IdsOf(Flatten(Lists(cs))) == all && DistinctInts(all)
    ensures HasMeans(cs) && DistinctInts(MeanIds(cs))
  {
    hide Lists, MeanIds, Flatten, Offset;
    var ls := Lists(cs);
    forall i, j | 0 <= i < j < |cs| ensures cs[i].mean.id != cs[j].mean.id {
      var a :| 0 <= a < |ls[i]| && ls[i][a] == cs[i].mean;
      var b :| 0 <= b < |ls[j]| && ls[j][b] == cs[j].mean;
      FlattenPosition(ls, i, a);
      FlattenPosition(ls, j, b);
      FlattenOrder(ls, i, a, j, b);
    }
  }

  /** The position in the flattened lists of entry a of list i. */
  function Offset<T>(ls: seq<seq<T>>, i: nat): nat
    requires i <= |ls|
  {
    |Flatten(ls[..i])|
  }

  /** Entry a of list i sits at its offset plus a in the flattened lists. */
  lemma {:induction false} FlattenPosition<T>(ls: seq<seq<T>>, i: nat, a: nat)
    requires i < |ls| && a < |ls[i]|
    ensures Offset(ls, i) + a < |Flatten(ls)| && Flatten(ls)[Offset(ls, i) + a] == ls[i][a]
    decreases |ls|
  {
    var n := |ls| - 1;
    assert ls[..n] == ls[..|ls| - 1];
    if i < n {
      FlattenPosition(ls[..n], i, a);
      assert ls[..n][..i] == ls[..i];
    } else {
      assert ls[..i] == ls[..n];
    }
  }

  /** List i ends where list i + 1 starts. */
  lemma OffsetStep<T>(ls: seq<seq<T>>, i: nat)
    requires i < |ls|
    ensures Offset(ls, i + 1) == Offset(ls, i) + |ls[i]|
  {
    assert ls[..i + 1][..i] == ls[..i];
  }

  /** Later lists start no earlier. */
  lemma {:induction false} OffsetGrows<T>(ls: seq<seq<T>>, p: nat, q: nat)
    requires p <= q <= |ls|
    ensures Offset(ls, p) <= Offset(ls, q)
    decreases q - p
  {
    if p < q {
      OffsetStep(ls, p);
      OffsetGrows(ls, p + 1, q);
    }
  }

  /** Entries of different lists sit at different places of the flattened lists. */
  lemma FlattenOrder<T>(ls: seq<seq<T>>, i: nat, a: nat, j: nat, b: nat)
    requires i < j < |ls| && a < |ls[i]| && b < |ls[j]|
    ensures Offset(ls, i) + a < Offset(ls, j) + b
  {
    OffsetStep(ls, i);
    OffsetGrows(ls, i + 1, j);
  }
}
