/**
 * The flat k-means clustering (DescriptorClustering/Simple/ClusteringSimpleBase.cs
 * and Simple/ClusteringSimple.cs). Clusterize seeds centroids from the descriptors,
 * then runs a fixed number of rounds, each an Assign (every descriptor to its
 * closest centroid), an Update (every centroid's mean recomputed from its list)
 * and a DropEmptyCentroids; finally every mean is replaced by the closest of its
 * own descriptors.
 *
 * The first half of the module states one round as a function of the mean
 * vectors, and proves what a round does; the class runs the rounds in place and
 * is proved to follow those functions.
 */
module KMeans {
  import opened Wrappers
  import opened Vectors
  import opened DotNetRandom
  import opened Sampling
  import opened Structures
  import opened Clustering

  // ---------------------------------------------------------------------------
  // One round on mean vectors

  /** The centroid Assign gives a vector: the first mean at the smallest distance. */
  function Choice(ms: seq<Vec>, v: Vec): (k: nat)
    requires |ms| > 0 && forall j :: 0 <= j < |ms| ==> |ms[j]| <= |v|
    ensures k < |ms|
  {
    FirstMin(DistancesTo(ms, v))
  }

  /** No mean is closer than the chosen one, and every mean before it is farther. */
  lemma ChoiceIsNearest(ms: seq<Vec>, v: Vec)
    requires |ms| > 0 && forall j :: 0 <= j < |ms| ==> |ms[j]| <= |v|
    ensures var k := Choice(ms, v);
      (forall j :: 0 <= j < |ms| ==> DistanceSqr(ms[k], v) <= DistanceSqr(ms[j], v)) &&
      (forall j :: 0 <= j < k ==> DistanceSqr(ms[k], v) < DistanceSqr(ms[j], v))
  {
    var ds := DistancesTo(ms, v);
    var k := FirstMin(ds);
    assert forall j :: 0 <= j < |ms| ==> ds[k] <= ds[j];
  }

  /** The choice for every vector. */
  function Choices(ms: seq<Vec>, vs: seq<Vec>, dim: nat): (ch: seq<nat>)
    requires |ms| > 0 && AllOfDimension(ms, dim) && AllOfDimension(vs, dim)
    ensures |ch| == |vs|
    ensures forall i :: 0 <= i < |vs| ==> ch[i] == Choice(ms, vs[i]) && ch[i] < |ms|
  {
    seq(|vs|, i requires 0 <= i < |vs| => Choice(ms, vs[i]))
  }

  /** The vectors each centroid receives, in list order. */
  function Groups(ms: seq<Vec>, vs: seq<Vec>, dim: nat): (g: seq<seq<Vec>>)
    requires |ms| > 0 && AllOfDimension(ms, dim) && AllOfDimension(vs, dim)
    ensures |g| == |ms|
  {
    Clusters(vs, Choices(ms, vs, dim), |ms|)
  }

  /** The groups of a round partition the vectors. */
  lemma GroupsPartition(ms: seq<Vec>, vs: seq<Vec>, dim: nat)
    requires |ms| > 0 && AllOfDimension(ms, dim) && AllOfDimension(vs, dim)
    ensures multiset(Flatten(Groups(ms, vs, dim))) == multiset(vs)
  {
    ClustersPartition(vs, Choices(ms, vs, dim), |ms|);
  }

  /** Every group holds vectors of the common dimension, and the first vector's group is not empty. */
  lemma GroupsFit(ms: seq<Vec>, vs: seq<Vec>, dim: nat)
    requires |ms| > 0 && AllOfDimension(ms, dim) && AllOfDimension(vs, dim)
    ensures forall k :: 0 <= k < |ms| ==> AllOfDimension(Groups(ms, vs, dim)[k], dim)
    ensures |vs| > 0 ==> Groups(ms, vs, dim)[Choice(ms, vs[0])] != []
  {
    var ch := Choices(ms, vs, dim);
    var g := Groups(ms, vs, dim);
    forall k, x | 0 <= k < |ms| && x in g[k] ensures |x| == dim {
      InCluster(vs, ch, k, x);
    }
    if |vs| > 0 {
      InCluster(vs, ch, ch[0], vs[0]);
    }
  }

  /** Which centroids received anything. */
  function Occupied(g: seq<seq<Vec>>): (flags: seq<bool>)
    ensures |flags| == |g| && forall k :: 0 <= k < |g| ==> flags[k] == (g[k] != [])
  {
    seq(|g|, k requires 0 <= k < |g| => g[k] != [])
  }

  /** The centroids that survive a round: those that received a vector, in order. */
  function Survivors(ms: seq<Vec>, vs: seq<Vec>, dim: nat): (kept: seq<nat>)
    requires |ms| > 0 && AllOfDimension(ms, dim) && AllOfDimension(vs, dim)
    ensures forall j :: 0 <= j < |kept| ==> kept[j] < |ms| && Groups(ms, vs, dim)[kept[j]] != []
    ensures forall j, j' :: 0 <= j < j' < |kept| ==> kept[j] < kept[j']
    ensures forall k :: 0 <= k < |ms| && Groups(ms, vs, dim)[k] != [] ==> k in kept
    ensures |kept| <= |ms| && (|vs| > 0 ==> |kept| > 0)
  {
    GroupsFit(ms, vs, dim);
    Kept(Occupied(Groups(ms, vs, dim)))
  }

  /**
   * The means after one round: Update sets each centroid's mean to the mean of
   * its group, and DropEmptyCentroids removes the centroids whose group was empty.
   */
  function Round(ms: seq<Vec>, vs: seq<Vec>, dim: nat): (r: seq<Vec>)
    requires |ms| > 0 && AllOfDimension(ms, dim) && AllOfDimension(vs, dim)
    ensures AllOfDimension(r, dim) && |r| <= |ms| && (|vs| > 0 ==> |r| > 0)
    ensures |r| == |Survivors(ms, vs, dim)|
  {
    var g := Groups(ms, vs, dim);
    var kept := Survivors(ms, vs, dim);
    GroupsFit(ms, vs, dim);
    seq(|kept|, j requires 0 <= j < |kept| => MeanOf(g[kept[j]], dim))
  }

  /** One centroid's share of Update's result: how far its mean moved, or 0 when it had or gets none. */
  function DeltaOf(before: Option<Vec>, members: seq<Vec>, dim: nat): (d: real)
    requires AllOfDimension(members, dim) && (before.Some? ==> |before.value| == dim)
    ensures d >= 0.0
    ensures members == [] || before.None? ==> d == 0.0
  {
    if before.Some? && members != [] then
      DistanceNonNegative(before.value, MeanOf(members, dim));
      DistanceSqr(before.value, MeanOf(members, dim))
    else 0.0
  }

  /** Update's result: the sum of every centroid's share. */
  function UpdateDelta(befores: seq<Option<Vec>>, lists: seq<seq<Vec>>, dim: nat): (d: real)
    requires |befores| == |lists|
    requires forall k :: 0 <= k < |lists| ==> AllOfDimension(lists[k], dim)
    requires forall k :: 0 <= k < |befores| && befores[k].Some? ==> |befores[k].value| == dim
    ensures d >= 0.0
  {
    Sum(seq(|lists|, k requires 0 <= k < |lists| => DeltaOf(befores[k], lists[k], dim)))
  }

  function Lift(ms: seq<Vec>): (os: seq<Option<Vec>>)
    ensures |os| == |ms| && forall k :: 0 <= k < |ms| ==> os[k] == Some(ms[k])
  {
    seq(|ms|, k requires 0 <= k < |ms| => Some(ms[k]))
  }

  /** The means Update leaves for lists ls: the mean of each list, none for an empty one. */
  function NewMeans(ls: seq<seq<Vec>>, dim: nat): (os: seq<Option<Vec>>)
    requires forall k :: 0 <= k < |ls| ==> AllOfDimension(ls[k], dim)
    ensures |os| == |ls| && forall k :: 0 <= k < |ls| ==> (os[k].None? <==> ls[k] == [])
  {
    seq(|ls|, k requires 0 <= k < |ls| => if ls[k] == [] then None else Some(MeanOf(ls[k], dim)))
  }

  /** The value Update returns in a round that starts from the means ms. */
  function RoundDelta(ms: seq<Vec>, vs: seq<Vec>, dim: nat): (d: real)
    requires |ms| > 0 && AllOfDimension(ms, dim) && AllOfDimension(vs, dim)
    ensures d >= 0.0
  {
    GroupsFit(ms, vs, dim);
    UpdateDelta(Lift(ms), Groups(ms, vs, dim), dim)
  }

  /** The means after n rounds. */
  function Rounds(ms: seq<Vec>, vs: seq<Vec>, dim: nat, n: nat): (r: seq<Vec>)
    requires |ms| > 0 && |vs| > 0 && AllOfDimension(ms, dim) && AllOfDimension(vs, dim)
    ensures |r| > 0 && |r| <= |ms| && AllOfDimension(r, dim)
    decreases n
  {
    if n == 0 then ms else Round(Rounds(ms, vs, dim, n - 1), vs, dim)
  }

  lemma RoundsUnfold(ms: seq<Vec>, vs: seq<Vec>, dim: nat, n: nat)
    requires |ms| > 0 && |vs| > 0 && AllOfDimension(ms, dim) && AllOfDimension(vs, dim) && n > 0
    ensures Rounds(ms, vs, dim, n) == Round(Rounds(ms, vs, dim, n - 1), vs, dim)
  {
  }

  /** The update deltas of the first n rounds: the array Clusterize returns. */
  function Deltas(ms: seq<Vec>, vs: seq<Vec>, dim: nat, n: nat): (ds: seq<real>)
    requires |ms| > 0 && |vs| > 0 && AllOfDimension(ms, dim) && AllOfDimension(vs, dim)
    ensures |ds| == n && forall i :: 0 <= i < n ==> ds[i] >= 0.0
    decreases n
  {
    if n == 0 then [] else Deltas(ms, vs, dim, n - 1) + [RoundDelta(Rounds(ms, vs, dim, n - 1), vs, dim)]
  }

  /**
   * A round never adds centroids; it keeps all of them exactly when every
   * centroid received a vector.
   */
  lemma RoundKeepsAllIffNoneEmpty(ms: seq<Vec>, vs: seq<Vec>, dim: nat)
    requires |ms| > 0 && AllOfDimension(ms, dim) && AllOfDimension(vs, dim)
    ensures |Round(ms, vs, dim)| <= |ms|
    ensures |Round(ms, vs, dim)| == |ms| <==> forall k :: 0 <= k < |ms| ==> Groups(ms, vs, dim)[k] != []
  {
    var flags := Occupied(Groups(ms, vs, dim));
    if |Round(ms, vs, dim)| == |ms| {
      KeptEverything(flags);
    }
    if forall k :: 0 <= k < |ms| ==> Groups(ms, vs, dim)[k] != [] {
      AllKept(flags);
    }
  }

  /** With every flag set, every position is kept. */
  lemma {:induction false} AllKept(flags: seq<bool>)
    requires forall k :: 0 <= k < |flags| ==> flags[k]
    ensures |Kept(flags)| == |flags|
    decreases |flags|
  {
    if |flags| > 0 {
      var n := |flags| - 1;
      KeptUnfold(flags);
      AllKept(flags[..n]);
    }
  }

  /**
   * Means that a round reproduces are settled: the round moves nothing, so Update
   * reports 0, and every later round gives the same means again.
   */
  lemma {:induction false} SettledStaysSettled(ms: seq<Vec>, vs: seq<Vec>, dim: nat, n: nat)
    requires |ms| > 0 && |vs| > 0 && AllOfDimension(ms, dim) && AllOfDimension(vs, dim)
    requires Round(ms, vs, dim) == ms
    ensures Rounds(ms, vs, dim, n) == ms
    ensures forall i :: 0 <= i < n ==> Deltas(ms, vs, dim, n)[i] == 0.0
    decreases n
  {
    hide Round, RoundDelta, Groups, Survivors, Choices, Clusters;
    if n > 0 {
      SettledStaysSettled(ms, vs, dim, n - 1);
      SettledMovesNothing(ms, vs, dim);
    }
  }

  /** A round that reproduces its means reports a delta of 0. */
  lemma SettledMovesNothing(ms: seq<Vec>, vs: seq<Vec>, dim: nat)
    requires |ms| > 0 && AllOfDimension(ms, dim) && AllOfDimension(vs, dim)
    requires Round(ms, vs, dim) == ms
    ensures RoundDelta(ms, vs, dim) == 0.0
  {
    hide Sum, MeanOf, Choices, Cluster, DistanceSqr, Kept;
    var g := Groups(ms, vs, dim);
    var flags := Occupied(g);
    KeptEverything(flags);
    GroupsFit(ms, vs, dim);
    var shares := seq(|g|, k requires 0 <= k < |g| => DeltaOf(Lift(ms)[k], g[k], dim));
    forall k | 0 <= k < |g| ensures shares[k] == 0.0 {
      assert Kept(flags)[k] == k;
      assert MeanOf(g[k], dim) == ms[k];
      DistanceToSelfIsZero(ms[k], ms[k]);
    }
  }

  // ---------------------------------------------------------------------------
  // Centroid state

  /** The centroids' means, none where a centroid has none. */
  function OptMeans(cs: seq<Centroid>): (os: seq<Option<Vec>>)
    reads (set k | 0 <= k < |cs| :: cs[k])`mean
    reads set k | 0 <= k < |cs| && cs[k].mean != null :: cs[k].mean.values
    ensures |os| == |cs|
    ensures forall k :: 0 <= k < |cs| ==>
      os[k] == if cs[k].mean == null then None else Some(cs[k].mean.values[..])
  {
    if |cs| == 0 then []
    else
      var c := cs[|cs| - 1];
      OptMeans(cs[..|cs| - 1]) + [if c.mean == null then None else Some(c.mean.values[..])]
  }

  /** The vectors on each centroid's list. */
  function ListVals(cs: seq<Centroid>): (ls: seq<seq<Vec>>)
    reads (set k | 0 <= k < |cs| :: cs[k])`descriptors
    reads set k, i | 0 <= k < |cs| && 0 <= i < |cs[k].descriptors| :: cs[k].descriptors[i].values
    ensures |ls| == |cs| && forall k :: 0 <= k < |cs| ==> ls[k] == Vals(cs[k].descriptors)
  {
    if |cs| == 0 then [] else ListVals(cs[..|cs| - 1]) + [Vals(cs[|cs| - 1].descriptors)]
  }

  /** Which centroids have a mean. */
  function MeanFlags(cs: seq<Centroid>): (flags: seq<bool>)
    reads (set k | 0 <= k < |cs| :: cs[k])`mean
    ensures |flags| == |cs| && forall k :: 0 <= k < |cs| ==> flags[k] == (cs[k].mean != null)
  {
    if |cs| == 0 then [] else MeanFlags(cs[..|cs| - 1]) + [cs[|cs| - 1].mean != null]
  }

  /** DropEmptyCentroids keeps a centroid exactly when it has a mean, and keeps no object twice. */
  lemma DropKeepsExactlyTheMeans(cs: seq<Centroid>)
    requires Distinct(cs)
    ensures var kept := Select(cs, Kept(MeanFlags(cs)));
      Distinct(kept) && forall c :: c in kept <==> c in cs && c.mean != null
  {
    var flags := MeanFlags(cs);
    var ks := Kept(flags);
    var kept := Select(cs, ks);
    hide Kept, MeanFlags, Select;
    forall j, j' | 0 <= j < j' < |kept| ensures kept[j] != kept[j'] {
      assert ks[j] < ks[j'];
    }
    forall c | c in kept ensures c in cs && c.mean != null {
      var j :| 0 <= j < |kept| && kept[j] == c;
      assert flags[ks[j]];
    }
    forall c | c in cs && c.mean != null ensures c in kept {
      var k :| 0 <= k < |cs| && cs[k] == c;
      assert flags[k];
      var j :| 0 <= j < |ks| && ks[j] == k;
      assert kept[j] == c;
    }
  }

  /** The centroid Assign's inner loop picks for one descriptor. */
  method ClosestCentroid(cs: seq<Centroid>, d: Descriptor) returns (k: nat)
    requires |cs| > 0 && HasMeans(cs)
    requires forall j :: 0 <= j < |cs| ==> cs[j].mean.values.Length <= d.values.Length
    ensures k == Choice(MeanVals(cs), d.values[..])
  {
    ghost var distances := DistancesTo(MeanVals(cs), d.values[..]);
    assert Choice(MeanVals(cs), d.values[..]) == FirstMin(distances);
    hide MeanVals, Choice, FirstMin, DistancesTo;
    var smallestDistance := 0.0;
    k := 0;
    for j := 0 to |cs|
      invariant j > 0 ==> k < j && k == FirstMin(distances[..j]) && smallestDistance == distances[k]
    {
      var distance := GetDistanceSqr(cs[j].mean.values, d.values);
      assert distance.value == distances[j];
      FirstMinStep(distances, j, k);
      if j == 0 || distance.value < smallestDistance {
        smallestDistance := distance.value;
        k := j;
      }
    }
    assert distances[..|cs|] == distances;
  }

  /** One step of Assign's loop: the descriptor joins its first closest centroid. */
  method AssignDescriptor(cs: seq<Centroid>, d: Descriptor) returns (k: nat)
    requires |cs| > 0 && Distinct(cs) && HasMeans(cs)
    requires forall j :: 0 <= j < |cs| ==> cs[j].mean.values.Length <= d.values.Length
    modifies cs`descriptors, d`centroid
    ensures k == Choice(MeanVals(cs), d.values[..])
    ensures forall c :: 0 <= c < |cs| ==> cs[c].descriptors == old(cs[c].descriptors) + if c == k then [d] else []
    ensures d.centroid == cs[k]
  {
    hide MeanVals, Choice;
    k := ClosestCentroid(cs, d);
    cs[k].AddDescriptorConcurrent(d);
    d.centroid := cs[k];
  }

  /**
   * Assign's loop over the descriptors: each is appended to the list of its first
   * closest centroid, which it records as its own.
   */
  method AssignEach(cs: seq<Centroid>, ds: seq<Descriptor>, dim: nat)
    requires |cs| > 0 && Distinct(cs) && HasMeans(cs)
    requires forall k :: 0 <= k < |cs| ==> cs[k].mean.values.Length == dim && cs[k].descriptors == []
    requires forall i :: 0 <= i < |ds| ==> ds[i].values.Length == dim
    modifies cs`descriptors, ds`centroid
    ensures forall k :: 0 <= k < |cs| ==> cs[k].descriptors == Cluster(ds, Choices(MeanVals(cs), Vals(ds), dim), k)
    ensures forall i :: 0 <= i < |ds| ==> ds[i].centroid == cs[Choices(MeanVals(cs), Vals(ds), dim)[i]]
    ensures MeanVals(cs) == old(MeanVals(cs)) && Vals(ds) == old(Vals(ds))
  {
    hide Cluster, Choices, Choice, Vals, MeanVals;
    ghost var ms := MeanVals(cs);
    ghost var vs := Vals(ds);
    ghost var ch := Choices(ms, vs, dim);
    forall c | 0 <= c < |cs| ensures Cluster(ds[..0], ch[..0], c) == [] {
      ClusterOfNone(ds, ch, c);
    }
    for i := 0 to |ds|
      invariant MeanVals(cs) == ms && Vals(ds) == vs
      invariant forall k :: 0 <= k < |cs| ==> cs[k].descriptors == Cluster(ds[..i], ch[..i], k)
      invariant forall j :: 0 <= j < i ==> ds[j].centroid == cs[ch[j]]
    {
      var d := ds[i];
      assert vs[i] == d.values[..];
      var k := AssignDescriptor(cs, d);
      assert k == ch[i];
      forall c | 0 <= c < |cs|
        ensures cs[c].descriptors == Cluster(ds[..i + 1], ch[..i + 1], c)
      {
        ClusterSnoc(ds, ch, i, c);
      }
      forall j | 0 <= j < i
        ensures ds[j].centroid == cs[ch[j]]
      {
        if ds[j] == d {
          assert vs[j] == vs[i];
        }
      }
    }
    assert ds[..|ds|] == ds && ch[..|ds|] == ch;
  }

  /** What a round is made of, as the proofs about the class use it. */
  lemma RoundFacts(ms: seq<Vec>, vs: seq<Vec>, dim: nat)
    requires |ms| > 0 && AllOfDimension(ms, dim) && AllOfDimension(vs, dim)
    ensures Groups(ms, vs, dim) == Clusters(vs, Choices(ms, vs, dim), |ms|)
    ensures forall k :: 0 <= k < |ms| ==> AllOfDimension(Groups(ms, vs, dim)[k], dim)
    ensures Survivors(ms, vs, dim) == Kept(Occupied(Groups(ms, vs, dim)))
    ensures forall j :: 0 <= j < |Survivors(ms, vs, dim)| ==>
      Round(ms, vs, dim)[j] == MeanOf(Groups(ms, vs, dim)[Survivors(ms, vs, dim)[j]], dim)
    ensures RoundDelta(ms, vs, dim) == UpdateDelta(Lift(ms), Groups(ms, vs, dim), dim)
  {
    GroupsFit(ms, vs, dim);
  }

  /**
   * After Assign the centroids' lists hold, as vectors, the groups of a round, and
   * every listed descriptor has the data's dimension.
   */
  lemma AssignedGroups(cs: seq<Centroid>, ds: seq<Descriptor>, ms: seq<Vec>, dim: nat)
    requires |ms| > 0 && |cs| == |ms| && AllOfDimension(ms, dim) && AllOfDimension(Vals(ds), dim)
    requires forall k :: 0 <= k < |cs| ==> cs[k].descriptors == Cluster(ds, Choices(ms, Vals(ds), dim), k)
    ensures ListVals(cs) == Groups(ms, Vals(ds), dim)
    ensures forall k, i :: 0 <= k < |cs| && 0 <= i < |cs[k].descriptors| ==> cs[k].descriptors[i].values.Length == dim
  {
    var vs := Vals(ds);
    var ch := Choices(ms, vs, dim);
    forall k | 0 <= k < |cs| ensures ListVals(cs)[k] == Groups(ms, vs, dim)[k] {
      ClusterVals(ds, ch, k);
    }
    forall k, i | 0 <= k < |cs| && 0 <= i < |cs[k].descriptors|
      ensures cs[k].descriptors[i].values.Length == dim
    {
      var d := cs[k].descriptors[i];
      InCluster(ds, ch, k, d);
      var j :| 0 <= j < |ds| && ds[j] == d && ch[j] == k;
      assert vs[j] == d.values[..];
    }
  }

  /**
   * After Update, the centroids whose list is not empty carry exactly the means of
   * a round, in order.
   */
  lemma SurvivorsAreTheRound(cs: seq<Centroid>, ms: seq<Vec>, vs: seq<Vec>, dim: nat, next: seq<Centroid>)
    requires |ms| > 0 && |cs| == |ms| && AllOfDimension(ms, dim) && AllOfDimension(vs, dim)
    requires ListVals(cs) == Groups(ms, vs, dim)
    requires forall k, i :: 0 <= k < |cs| && 0 <= i < |cs[k].descriptors| ==> cs[k].descriptors[i].values.Length == dim
    requires forall k :: 0 <= k < |cs| ==> (cs[k].mean == null <==> cs[k].descriptors == [])
    requires forall k :: 0 <= k < |cs| && cs[k].descriptors != [] ==>
      cs[k].mean.values[..] == MeanOf(Vals(cs[k].descriptors), dim)
    requires next == Select(cs, Survivors(ms, vs, dim))
    ensures HasMeans(next) && MeanVals(next) == Round(ms, vs, dim)
    ensures forall j :: 0 <= j < |next| ==> next[j].mean.values.Length == dim
  {
    hide Round, Survivors, Groups, Select, Vals, MeanOf, Kept, Occupied, MeanVals, ListVals;
    RoundFacts(ms, vs, dim);
    var g := Groups(ms, vs, dim);
    var kept := Survivors(ms, vs, dim);
    forall j | 0 <= j < |next|
      ensures next[j].mean != null && next[j].mean.values[..] == MeanOf(g[kept[j]], dim)
    {
      assert next[j] == cs[kept[j]];
      assert Vals(cs[kept[j]].descriptors) == g[kept[j]];
    }
    assert MeanVals(next) == Round(ms, vs, dim);
  }

  /**
   * The lists and means Clusterize leaves when its last round started from the
   * means ms, over the descriptors ds with vectors vs: one list per survivor of
   * that round, in order, holding the survivor's cluster (as many descriptors as
   * its group has vectors), and as mean the first of those descriptors closest to
   * the survivor's new mean.
   */
  predicate Finished(ds: seq<Descriptor>, ms: seq<Vec>, vs: seq<Vec>, dim: nat, lists: seq<seq<Descriptor>>, means: seq<Descriptor?>)
    requires |ms| > 0 && AllOfDimension(ms, dim) && AllOfDimension(vs, dim) && |ds| == |vs|
  {
    var g := Groups(ms, vs, dim);
    var kept := Survivors(ms, vs, dim);
    GroupsFit(ms, vs, dim);
    |lists| == |kept| && |means| == |kept| &&
    forall j :: 0 <= j < |kept| ==>
      lists[j] == Cluster(ds, Choices(ms, vs, dim), kept[j]) && |lists[j]| == |g[kept[j]]| &&
      means[j] == lists[j][ClosestIndex(Round(ms, vs, dim)[j], g[kept[j]])]
  }

  /**
   * What a finished clustering leaves: no more lists than seeds, at least one
   * over data that is not empty, every list holding descriptors of the data and
   * none empty, and every mean present and one of its own list's descriptors.
   */
  lemma FinishedLists(ds: seq<Descriptor>, ms: seq<Vec>, dim: nat, lists: seq<seq<Descriptor>>, means: seq<Descriptor?>)
    requires |ms| > 0 && AllOfDimension(ms, dim) && AllOfDimension(Vals(ds), dim)
    requires Finished(ds, ms, Vals(ds), dim, lists, means)
    ensures |lists| == |means| && |lists| <= |ms| && (|ds| > 0 ==> |lists| > 0)
    ensures forall j, i :: 0 <= j < |lists| && 0 <= i < |lists[j]| ==> lists[j][i] in ds
    ensures forall j :: 0 <= j < |lists| ==> lists[j] != [] && means[j] != null && means[j] in lists[j]
  {
    var vs := Vals(ds);
    var kept := Survivors(ms, vs, dim);
    var ch := Choices(ms, vs, dim);
    assert |lists| == |kept| && |means| == |kept|;
    assert forall j :: 0 <= j < |kept| ==> lists[j] == Cluster(ds, ch, kept[j]) && means[j] in lists[j];
    hide *;
    ClusteredLists(ds, ch, kept, lists, means);
  }

  /** Lists that are clusters of ds hold descriptors of ds; one holding its mean is not empty. */
  lemma ClusteredLists(ds: seq<Descriptor>, ch: seq<nat>, kept: seq<nat>, lists: seq<seq<Descriptor>>, means: seq<Descriptor?>)
    requires |ds| == |ch| && |lists| == |kept| && |means| == |kept|
    requires forall j :: 0 <= j < |kept| ==> lists[j] == Cluster(ds, ch, kept[j]) && means[j] in lists[j]
    ensures forall j, i :: 0 <= j < |lists| && 0 <= i < |lists[j]| ==> lists[j][i] in ds
    ensures forall j :: 0 <= j < |lists| ==> lists[j] != [] && means[j] != null && means[j] in lists[j]
  {
    forall j, i | 0 <= j < |lists| && 0 <= i < |lists[j]| ensures lists[j][i] in ds {
      InCluster(ds, ch, kept[j], lists[j][i]);
    }
  }

  /**
   * The means the final AssignClosestDescriptors picks for lists that are the
   * clusters of the survivors of a round from ms: for each, the descriptor at the
   * position of the vector of its group closest to the survivor's new mean.
   */
  function FinalMeans(ds: seq<Descriptor>, ms: seq<Vec>, vs: seq<Vec>, dim: nat, lists: seq<seq<Descriptor>>): (means: seq<Descriptor?>)
    requires |ms| > 0 && AllOfDimension(ms, dim) && AllOfDimension(vs, dim) && |ds| == |vs|
    requires |lists| == |Survivors(ms, vs, dim)|
    requires forall j :: 0 <= j < |lists| ==>
      lists[j] == Cluster(ds, Choices(ms, vs, dim), Survivors(ms, vs, dim)[j]) &&
      |lists[j]| == |Groups(ms, vs, dim)[Survivors(ms, vs, dim)[j]]|
    ensures Finished(ds, ms, vs, dim, lists, means)
    ensures |means| == |lists| && forall j :: 0 <= j < |lists| ==> means[j] in lists[j]
  {
    var g := Groups(ms, vs, dim);
    var kept := Survivors(ms, vs, dim);
    GroupsFit(ms, vs, dim);
    seq(|lists|, j requires 0 <= j < |lists| => lists[j][ClosestIndex(Round(ms, vs, dim)[j], g[kept[j]])])
  }

  /** Lists, read back from the centroids one by one. */
  lemma ListsAre(cs: seq<Centroid>, lists: seq<seq<Descriptor>>)
    requires |cs| == |lists| && forall k :: 0 <= k < |cs| ==> cs[k].descriptors == lists[k]
    ensures Lists(cs) == lists
  {
  }

  /** Means, read back from the centroids one by one. */
  lemma MeansAre(cs: seq<Centroid>, means: seq<Descriptor?>)
    requires |cs| == |means| && forall k :: 0 <= k < |cs| ==> cs[k].mean == means[k]
    ensures Means(cs) == means
  {
  }

  /** The centroids' means, in centroid order. */
  function Means(cs: seq<Centroid>): (means: seq<Descriptor?>)
    reads (set k | 0 <= k < |cs| :: cs[k])`mean
    ensures |means| == |cs| && forall k :: 0 <= k < |cs| ==> means[k] == cs[k].mean
  {
    if |cs| == 0 then [] else Means(cs[..|cs| - 1]) + [cs[|cs| - 1].mean]
  }

  /**
   * The clusters of a round are made of the data: each holds descriptors of the
   * data's dimension, and each survivor's cluster holds at least one.
   */
  lemma SurvivorClusters(ds: seq<Descriptor>, ms: seq<Vec>, dim: nat)
    requires |ms| > 0 && AllOfDimension(ms, dim) && AllOfDimension(Vals(ds), dim)
    ensures var ch := Choices(ms, Vals(ds), dim);
      forall k, d :: d in Cluster(ds, ch, k) ==> d in ds && d.values.Length == dim
    ensures var ch := Choices(ms, Vals(ds), dim); var kept := Survivors(ms, Vals(ds), dim);
      forall j :: 0 <= j < |kept| ==> Cluster(ds, ch, kept[j]) != []
  {
    hide *;
    ClustersOfData(ds, ms, dim);
    SurvivorsNonEmpty(ds, ms, dim);
  }

  /** Every cluster of a round holds only descriptors of the data, of its dimension. */
  lemma ClustersOfData(ds: seq<Descriptor>, ms: seq<Vec>, dim: nat)
    requires |ms| > 0 && AllOfDimension(ms, dim) && AllOfDimension(Vals(ds), dim)
    ensures var ch := Choices(ms, Vals(ds), dim);
      forall k, d :: d in Cluster(ds, ch, k) ==> d in ds && d.values.Length == dim
  {
    hide Survivors, Choices, Cluster, Vals;
    var vs := Vals(ds);
    var ch := Choices(ms, vs, dim);
    RoundFacts(ms, vs, dim);
    forall k, d | d in Cluster(ds, ch, k) ensures d in ds && d.values.Length == dim {
      InCluster(ds, ch, k, d);
      var i :| 0 <= i < |ds| && ds[i] == d && ch[i] == k;
      assert vs[i] == d.values[..];
    }
  }

  /** The cluster of every survivor of a round holds at least one descriptor. */
  lemma SurvivorsNonEmpty(ds: seq<Descriptor>, ms: seq<Vec>, dim: nat)
    requires |ms| > 0 && AllOfDimension(ms, dim) && AllOfDimension(Vals(ds), dim)
    ensures var ch := Choices(ms, Vals(ds), dim); var kept := Survivors(ms, Vals(ds), dim);
      forall j :: 0 <= j < |kept| ==> Cluster(ds, ch, kept[j]) != []
  {
    hide Survivors, Choices, Cluster, Vals;
    var vs := Vals(ds);
    var ch := Choices(ms, vs, dim);
    var kept := Survivors(ms, vs, dim);
    RoundFacts(ms, vs, dim);
    forall j | 0 <= j < |kept| ensures Cluster(ds, ch, kept[j]) != [] {
      ClusterVals(ds, ch, kept[j]);
      assert Groups(ms, vs, dim)[kept[j]] == Cluster(vs, ch, kept[j]);
    }
  }

  /**
   * Means taken one from each cluster of different survivors, over descriptors
   * whose ids are all different, have ids that are all different: the check of
   * TestUniqueCentroidAssignment holds after Clusterize.
   */
  lemma FinalMeansDistinct(lists: seq<seq<Descriptor>>, means: seq<Descriptor?>, ds: seq<Descriptor>, ch: seq<nat>, kept: seq<nat>)
    requires |ds| == |ch| && |lists| == |kept| && |means| == |lists|
    requires forall j, j' :: 0 <= j < j' < |kept| ==> kept[j] < kept[j']
    requires forall j :: 0 <= j < |lists| ==> lists[j] == Cluster(ds, ch, kept[j]) && means[j] in lists[j]
    requires DistinctInts(IdsOf(ds))
    ensures forall j :: 0 <= j < |means| ==> means[j] != null
    ensures forall j, j' :: 0 <= j < j' < |means| ==> means[j].id != means[j'].id
  {
    hide Cluster;
    forall j, j' | 0 <= j < j' < |means| ensures means[j].id != means[j'].id {
      SameClusterOnly(ds, ch, kept[j], kept[j'], means[j], means[j']);
    }
  }

  /** Centroids whose means are those descriptors have means, with distinct ids. */
  lemma DistinctMeanIds(cs: seq<Centroid>, means: seq<Descriptor?>)
    requires Means(cs) == means
    requires forall j :: 0 <= j < |means| ==> means[j] != null
    requires forall j, j' :: 0 <= j < j' < |means| ==> means[j].id != means[j'].id
    ensures HasMeans(cs) && DistinctInts(MeanIds(cs))
  {
  }

  /**
   * AssignClosestDescriptors on centroids whose lists and closest descriptors are
   * known: the lists stay, and the means become those descriptors.
   */
  method AssignKnownClosest(cs: seq<Centroid>, ghost lists: seq<seq<Descriptor>>, ghost picks: seq<Descriptor?>)
    requires Distinct(cs) && forall k :: 0 <= k < |cs| ==> Comparable(cs[k])
    requires Lists(cs) == lists && |picks| == |cs| && forall k :: 0 <= k < |cs| ==> ClosestOf(cs[k]) == picks[k]
    modifies cs`mean
    ensures Lists(cs) == lists && Means(cs) == picks
  {
    AssignClosestDescriptors(cs);
    ListsAre(cs, lists);
    MeansAre(cs, picks);
  }

  lemma SameClusterOnly(ds: seq<Descriptor>, ch: seq<nat>, k: nat, k': nat, d: Descriptor, d': Descriptor)
    requires |ds| == |ch| && k != k' && d in Cluster(ds, ch, k) && d' in Cluster(ds, ch, k')
    requires DistinctInts(IdsOf(ds))
    ensures d.id != d'.id
  {
    InCluster(ds, ch, k, d);
    InCluster(ds, ch, k', d');
    var i :| 0 <= i < |ds| && ds[i] == d && ch[i] == k;
    var i' :| 0 <= i' < |ds| && ds[i'] == d' && ch[i'] == k';
    var ids := IdsOf(ds);
    if i < i' {
      assert ids[i] != ids[i'];
    } else {
      assert ids[i'] != ids[i];
    }
  }

  /**
   * One step of Update's parallel loop: the centroid's mean recomputed from its list
   * (none for an empty list); the result is how far the mean moved.
   */
  method UpdateCentroid(c: Centroid, dim: nat) returns (d: real)
    requires forall i :: 0 <= i < |c.descriptors| ==> c.descriptors[i].values.Length == dim
    requires c.mean != null ==> c.mean.values.Length == dim
    modifies c`mean
    ensures c.mean == null <==> c.descriptors == []
    ensures c.descriptors != [] ==>
      fresh(c.mean) && fresh(c.mean.values) && c.mean.id == -1 && c.mean.values[..] == MeanOf(Vals(c.descriptors), dim)
    ensures d == DeltaOf(if old(c.mean) == null then None else Some(old(c.mean.values[..])), Vals(c.descriptors), dim)
  {
    var oldMean := c.mean;
    var computed := c.ComputeMean();
    var newMean := c.mean;
    if newMean != null && oldMean != null {
      var distance := GetDistanceSqr(oldMean.values, newMean.values);
      d := distance.value;
    } else {
      d := 0.0;
    }
  }

  /** A centroid whose mean Update recomputed from `list`: none for an empty list. */
  predicate Recomputed(c: Centroid, list: seq<Vec>, dim: nat)
    reads c, if c.mean != null then {c.mean.values} else {}
  {
    (c.mean == null <==> c.descriptors == []) &&
    (c.mean != null ==> c.mean.id == -1 && |list| > 0 && AllOfDimension(list, dim) && c.mean.values[..] == MeanOf(list, dim))
  }

  lemma RecomputedIntro(c: Centroid, list: seq<Vec>, dim: nat)
    requires c.mean == null <==> c.descriptors == []
    requires c.mean != null ==> c.mean.id == -1 && |list| > 0 && AllOfDimension(list, dim) && c.mean.values[..] == MeanOf(list, dim)
    ensures Recomputed(c, list, dim)
  {
  }

  lemma RecomputedElim(c: Centroid, list: seq<Vec>, dim: nat)
    requires Recomputed(c, list, dim)
    ensures c.mean == null <==> c.descriptors == []
    ensures c.mean != null ==> c.mean.id == -1 && |list| > 0 && AllOfDimension(list, dim) && c.mean.values[..] == MeanOf(list, dim)
  {
  }

  /**
   * Update's parallel loop over all centroids, run in order; the k-th delta is how
   * far the k-th centroid's mean moved.
   */
  method UpdateCentroids(cs: seq<Centroid>, dim: nat) returns (updatedCentroidDeltas: seq<real>)
    requires Distinct(cs)
    requires forall k, i :: 0 <= k < |cs| && 0 <= i < |cs[k].descriptors| ==> cs[k].descriptors[i].values.Length == dim
    requires forall k :: 0 <= k < |cs| && cs[k].mean != null ==> cs[k].mean.values.Length == dim
    modifies cs`mean
    ensures |updatedCentroidDeltas| == |cs|
    ensures forall k :: 0 <= k < |cs| ==> (cs[k].mean == null <==> cs[k].descriptors == [])
    ensures forall k :: 0 <= k < |cs| && cs[k].descriptors != [] ==>
      fresh(cs[k].mean) && cs[k].mean.id == -1 && cs[k].mean.values[..] == MeanOf(Vals(cs[k].descriptors), dim)
    ensures forall k :: 0 <= k < |cs| ==>
      updatedCentroidDeltas[k] == DeltaOf(old(OptMeans(cs))[k], Vals(cs[k].descriptors), dim)
    ensures Lists(cs) == old(Lists(cs)) && ListVals(cs) == old(ListVals(cs))
    ensures OptMeans(cs) == NewMeans(ListVals(cs), dim)
  {
    hide MeanOf, SumOf, DistanceSqr, OptMeans, DeltaOf, ListVals, Vals, Recomputed;
    ghost var befores := OptMeans(cs);
    ghost var lists := ListVals(cs);
    var ds: seq<real> := [];
    for index := 0 to |cs|
      invariant ListVals(cs) == lists
      invariant forall k :: index <= k < |cs| ==> cs[k].mean == old(cs[k].mean)
      invariant forall k :: 0 <= k < index ==>
        Recomputed(cs[k], lists[k], dim) &&
        (cs[k].mean != null ==> fresh(cs[k].mean))
      invariant |ds| == index && forall k :: 0 <= k < index ==> ds[k] == DeltaOf(befores[k], lists[k], dim)
    {
      var centroid := cs[index];
      assert lists[index] == Vals(centroid.descriptors);
      var d := UpdateCentroid(centroid, dim);
      RecomputedIntro(centroid, lists[index], dim);
      ds := ds + [d];
    }
    updatedCentroidDeltas := ds;
    RecomputedAll(cs, lists, dim);
  }

  /** Every centroid recomputed from its list: the new means are the means of the lists. */
  lemma RecomputedAll(cs: seq<Centroid>, lists: seq<seq<Vec>>, dim: nat)
    requires |lists| == |cs| && forall k :: 0 <= k < |cs| ==> |lists[k]| == |cs[k].descriptors|
    requires forall k :: 0 <= k < |cs| ==> AllOfDimension(lists[k], dim) && Recomputed(cs[k], lists[k], dim)
    ensures forall k :: 0 <= k < |cs| ==> (cs[k].mean == null <==> cs[k].descriptors == [])
    ensures forall k :: 0 <= k < |cs| && cs[k].mean != null ==>
      cs[k].mean.id == -1 && cs[k].mean.values[..] == MeanOf(lists[k], dim)
    ensures OptMeans(cs) == NewMeans(lists, dim)
  {
    forall k | 0 <= k < |cs|
      ensures cs[k].mean == null <==> cs[k].descriptors == []
      ensures cs[k].mean != null ==> cs[k].mean.id == -1 && cs[k].mean.values[..] == MeanOf(lists[k], dim)
    {
      RecomputedElim(cs[k], lists[k], dim);
    }
    hide MeanOf, Recomputed;
    assert OptMeans(cs) == NewMeans(lists, dim);
  }

  /** Seed count of the percentage overload: the truncated share of n, at least 1. */
  function SeedCount(n: nat, seedPercentage: real): (c: int)
    requires 0.0 < seedPercentage <= 1.0
    ensures c >= 1 && (n > 0 ==> c <= n)
    ensures c == 1 || (c as real <= n as real * seedPercentage < c as real + 1.0)
    ensures n as real * seedPercentage >= 1.0 ==> c as real <= n as real * seedPercentage < c as real + 1.0
  {
    var seedCount := (n as real * seedPercentage).Floor;
    if seedCount != 0 then seedCount else 1
  }

  // ---------------------------------------------------------------------------
  // TestUniqueDescriptorAssignment

  /**
   * TestUniqueDescriptorAssignment, the DEBUG check at the end of Clusterize: the
   * descriptors of every centroid, centroid by centroid and in list order, are
   * checked against the ids met so far, and a repeated id throws an
   * ArgumentException. It passes exactly when the lists together hold no id twice.
   */
  method TestUniqueDescriptorAssignment(cs: seq<Centroid>) returns (r: Outcome)
    ensures r.Pass? <==> DistinctInts(IdsOf(Flatten(Lists(cs))))
    ensures r.Fail? ==> r.error == Argument
  {
    ghost var idLists := IdLists(cs);
    var ok := ScanLists(cs, idLists);
    r := if ok then Pass else Fail(Argument);
  }

  /** The ids of each centroid's list; flattened, the ids of all lists. */
  lemma IdLists(cs: seq<Centroid>) returns (idLists: seq<seq<int>>)
    ensures |idLists| == |cs| && forall k :: 0 <= k < |cs| ==> idLists[k] == IdsOf(cs[k].descriptors)
    ensures IdsOf(Flatten(Lists(cs))) == Flatten(idLists)
  {
    var ls := Lists(cs);
    idLists := seq(|ls|, k requires 0 <= k < |ls| => IdsOf(ls[k]));
    FlattenIds(ls);
  }

  /** The outer loop: the lists in order, each through ScanIds, until an id repeats. */
  method ScanLists(cs: seq<Centroid>, ghost idLists: seq<seq<int>>) returns (ok: bool)
    requires |idLists| == |cs| && forall k :: 0 <= k < |cs| ==> idLists[k] == IdsOf(cs[k].descriptors)
    ensures ok <==> DistinctInts(Flatten(idLists))
  {
    assert idLists[..0] == [] && idLists[..|cs|] == idLists;
    assert Flatten(idLists[..0]) == [] && DistinctInts([]);
    hide *;
    var hashSet: set<int> := {};
    ghost var seen: seq<int> := [];
    for k := 0 to |cs|
      invariant seen == Flatten(idLists[..k]) && DistinctInts(seen)
      invariant hashSet == set x | x in seen
    {
      FlattenUpTo(idLists, k);
      ok, hashSet := ScanIds(IdsOf(cs[k].descriptors), hashSet, seen);
      seen := seen + idLists[k];
      if !ok {
        FlattenSplit(idLists, k + 1);
        RepeatedStays(seen, Flatten(idLists[k + 1..]));
        return false;
      }
    }
    return true;
  }

  /**
   * The inner loop of TestUniqueDescriptorAssignment: each id of one list checked
   * against, then added to, the ids met so far.
   */
  method ScanIds(ids: seq<int>, hashSet: set<int>, ghost seen: seq<int>) returns (ok: bool, hashSet': set<int>)
    requires DistinctInts(seen) && hashSet == set x | x in seen
    ensures ok <==> DistinctInts(seen + ids)
    ensures ok ==> hashSet' == set x | x in seen + ids
  {
    hashSet' := hashSet;
    for i := 0 to |ids|
      invariant DistinctInts(seen + ids[..i])
      invariant hashSet' == set x | x in seen + ids[..i]
    {
      assert (seen + ids)[..|seen| + i + 1] == seen + ids[..i] + [ids[i]];
      if ids[i] in hashSet' {
        assert ids[i] in seen + ids[..i];
        ghost var before := seen + ids[..i];
        ghost var j :| 0 <= j < |before| && before[j] == ids[i];
        assert seen + ids[..i + 1] == before + [ids[i]];
        assert (before + [ids[i]])[j] == (before + [ids[i]])[|before|];
        RepeatedStays(seen + ids[..i + 1], ids[i + 1..]);
        assert seen + ids[..i + 1] + ids[i + 1..] == seen + ids;
        return false, hashSet';
      }
      hashSet' := hashSet' + {ids[i]};
      assert seen + ids[..i + 1] == seen + ids[..i] + [ids[i]];
    }
    assert ids[..|ids|] == ids;
    return true, hashSet';
  }

  /** The lists up to k, then list k. */
  lemma FlattenUpTo<T>(ls: seq<seq<T>>, k: nat)
    requires k < |ls|
    ensures Flatten(ls[..k + 1]) == Flatten(ls[..k]) + ls[k]
  {
    assert ls[..k + 1][..k] == ls[..k];
  }

  /** The lists before k, then the lists from k on. */
  lemma FlattenSplit<T>(ls: seq<seq<T>>, k: nat)
    requires k <= |ls|
    ensures Flatten(ls) == Flatten(ls[..k]) + Flatten(ls[k..])
  {
    FlattenAppend(ls[..k], ls[k..]);
    assert ls[..k] + ls[k..] == ls;
  }

  /** A repeated value stays repeated whatever follows it. */
  lemma RepeatedStays(xs: seq<int>, ys: seq<int>)
    requires !DistinctInts(xs)
    ensures !DistinctInts(xs + ys)
  {
    var i, j :| 0 <= i < j < |xs| && xs[i] == xs[j];
    assert (xs + ys)[i] == (xs + ys)[j];
  }

  class ClusteringSimple {
    /** Descriptors: the data, fixed by the constructor. */
    const descriptors: seq<Descriptor>
    /** Centroids: null (None) until Clusterize seeds them. */
    var centroids: Option<seq<Centroid>>

    /** ClusteringSimple(descriptors): the data stored, no centroids yet. */
    constructor (descriptors: seq<Descriptor>)
      ensures this.descriptors == descriptors && centroids == None
    {
      this.descriptors := descriptors;
      centroids := None;
    }

    /** The dimension of the data: the first descriptor's. */
    function Dim(): nat
    {
      if |descriptors| == 0 then 0 else descriptors[0].values.Length
    }

    /** Every descriptor has the data's dimension, which the distance and mean computations rely on. */
    predicate Consistent()
    {
      forall i :: 0 <= i < |descriptors| ==> descriptors[i].values.Length == Dim()
    }

    /** Centroids Assign can run on: at least one, no object twice, each with a mean of the data's dimension. */
    predicate Ready(cs: seq<Centroid>)
      reads (set k | 0 <= k < |cs| :: cs[k])`mean
    {
      |cs| > 0 && Distinct(cs) && HasMeans(cs) &&
      forall k :: 0 <= k < |cs| ==> cs[k].mean.values.Length == Dim()
    }

    /** Every listed descriptor has the data's dimension. */
    predicate ListsFit(cs: seq<Centroid>)
      reads (set k | 0 <= k < |cs| :: cs[k])`descriptors
    {
      forall k, i :: 0 <= k < |cs| && 0 <= i < |cs[k].descriptors| ==> cs[k].descriptors[i].values.Length == Dim()
    }

    /** Every mean present has the data's dimension. */
    predicate MeansFit(cs: seq<Centroid>)
      reads (set k | 0 <= k < |cs| :: cs[k])`mean
    {
      forall k :: 0 <= k < |cs| && cs[k].mean != null ==> cs[k].mean.values.Length == Dim()
    }

    /**
     * Assign: every list cleared, then every descriptor appended, in order, to the
     * list of its first closest centroid, which it records as its own.
     */
    method Assign(ghost ms: seq<Vec>, ghost vs: seq<Vec>)
      requires Consistent() && centroids.Some? && Ready(centroids.value)
      requires MeanVals(centroids.value) == ms && Vals(descriptors) == vs
      modifies centroids.value`descriptors, descriptors`centroid
      ensures Ready(centroids.value) && MeanVals(centroids.value) == ms && Vals(descriptors) == vs
      ensures Lists(centroids.value) == Clusters(descriptors, Choices(ms, vs, Dim()), |centroids.value|)
      ensures forall i :: 0 <= i < |descriptors| ==>
        descriptors[i].centroid == centroids.value[Choices(ms, vs, Dim())[i]]
    {
      hide Clusters, Choices, Lists, MeanVals, Cluster, Vals;
      var cs := centroids.value;
      for k := 0 to |cs|
        invariant forall j :: 0 <= j < k ==> cs[j].descriptors == []
        invariant Ready(cs) && MeanVals(cs) == ms && Vals(descriptors) == vs
      {
        cs[k].ClearDescriptors();
      }
      AssignEach(cs, descriptors, Dim());
      ListsAre(cs, Clusters(descriptors, Choices(ms, vs, Dim()), |cs|));
    }

    /**
     * The first two phases of a pass of Clusterize's loop: after Assign and Update
     * every list is the round's cluster and every non-empty list has its mean.
     */
    method AssignUpdate(ghost ms: seq<Vec>, ghost vs: seq<Vec>) returns (delta: real)
      requires Consistent() && |descriptors| > 0 && centroids.Some? && Ready(centroids.value)
      requires MeanVals(centroids.value) == ms && Vals(descriptors) == vs
      modifies centroids.value`descriptors, centroids.value`mean, descriptors`centroid
      ensures |ms| > 0 && AllOfDimension(ms, Dim()) && AllOfDimension(vs, Dim())
      ensures forall k :: 0 <= k < |ms| ==> AllOfDimension(Groups(ms, vs, Dim())[k], Dim())
      ensures Lists(centroids.value) == Clusters(descriptors, Choices(ms, vs, Dim()), |centroids.value|)
      ensures ListVals(centroids.value) == Groups(ms, vs, Dim())
      ensures OptMeans(centroids.value) == NewMeans(Groups(ms, vs, Dim()), Dim())
      ensures delta == RoundDelta(ms, vs, Dim())
    {
      var cs := centroids.value;
      hide *;
      Assign(ms, vs);
      AfterAssign(cs, ms, vs);
      delta := Update();
    }

    /**
     * What Assign leaves: every list is its centroid's cluster in the round from ms,
     * and the state is what Update expects.
     */
    lemma AfterAssign(cs: seq<Centroid>, ms: seq<Vec>, vs: seq<Vec>)
      requires Consistent() && Ready(cs)
      requires MeanVals(cs) == ms && Vals(descriptors) == vs
      requires Lists(cs) == Clusters(descriptors, Choices(ms, vs, Dim()), |cs|)
      ensures |ms| > 0 && AllOfDimension(ms, Dim()) && AllOfDimension(vs, Dim())
      ensures Distinct(cs) && ListsFit(cs) && MeansFit(cs)
      ensures forall k :: 0 <= k < |ms| ==> AllOfDimension(Groups(ms, vs, Dim())[k], Dim())
      ensures OptMeans(cs) == Lift(ms) && ListVals(cs) == Groups(ms, vs, Dim())
      ensures RoundDelta(ms, vs, Dim()) == UpdateDelta(Lift(ms), Groups(ms, vs, Dim()), Dim())
    {
      hide Round, RoundDelta, Survivors, Groups, Choices, Choice, Clusters, Cluster, MeanVals, ListVals, OptMeans;
      hide MeanFlags, Kept, Select, Vals, MeanOf, Occupied, UpdateDelta, Lift, Lists, DeltaOf, Sum;
      var dim := Dim();
      RoundFacts(ms, vs, dim);
      var ch := Choices(ms, vs, dim);
      forall k | 0 <= k < |cs| ensures cs[k].descriptors == Cluster(descriptors, ch, k) {
        assert Lists(cs)[k] == Clusters(descriptors, ch, |cs|)[k];
      }
      AssignedGroups(cs, descriptors, ms, dim);
      assert OptMeans(cs) == Lift(ms);
    }

    /**
     * One pass of Clusterize's loop: Assign, Update, DropEmptyCentroids. The means
     * become the round's means, the centroids left are the round's survivors in
     * order, and the result is the round's delta.
     */
    /** One assignment and update pass, with the survivors of the round identified by their flags. */
    method Refresh(ghost ms: seq<Vec>, ghost vs: seq<Vec>) returns (delta: real)
      requires Consistent() && |descriptors| > 0 && centroids.Some? && Ready(centroids.value)
      requires MeanVals(centroids.value) == ms && Vals(descriptors) == vs
      modifies centroids.value`descriptors, centroids.value`mean, descriptors`centroid
      ensures Kept(MeanFlags(centroids.value)) == Survivors(ms, vs, Dim())
      ensures Ready(Select(centroids.value, Survivors(ms, vs, Dim())))
      ensures HasMeans(Select(centroids.value, Survivors(ms, vs, Dim())))
      ensures MeanVals(Select(centroids.value, Survivors(ms, vs, Dim()))) == Round(ms, vs, Dim())
      ensures forall j :: 0 <= j < |Survivors(ms, vs, Dim())| ==>
        Survivors(ms, vs, Dim())[j] < |centroids.value| &&
        centroids.value[Survivors(ms, vs, Dim())[j]].descriptors == Cluster(descriptors, Choices(ms, vs, Dim()), Survivors(ms, vs, Dim())[j])
      ensures delta == RoundDelta(ms, vs, Dim())
    {
      var cs := centroids.value;
      ghost var next := Select(cs, Survivors(ms, vs, Dim()));
      assert Distinct(cs);
      hide *;
      delta := AssignUpdate(ms, vs);
      assert Lists(cs) == Clusters(descriptors, Choices(ms, vs, Dim()), |cs|);
      assert ListVals(cs) == Groups(ms, vs, Dim());
      assert OptMeans(cs) == NewMeans(Groups(ms, vs, Dim()), Dim());
      assert Consistent() && |descriptors| > 0 && |vs| == |descriptors|;
      assert Distinct(cs);
      assert |ms| > 0 && |cs| == |ms|;
      assert AllOfDimension(ms, Dim()) && AllOfDimension(vs, Dim());
      assert forall k :: 0 <= k < |ms| ==> AllOfDimension(Groups(ms, vs, Dim())[k], Dim());
      assert next == Select(cs, Survivors(ms, vs, Dim()));
      AfterUpdate(cs, ms, vs, next);
    }

    method Iteration(ghost ms: seq<Vec>, ghost vs: seq<Vec>) returns (delta: real)
      requires Consistent() && |descriptors| > 0 && centroids.Some? && Ready(centroids.value)
      requires MeanVals(centroids.value) == ms && Vals(descriptors) == vs
      modifies this`centroids, centroids.value`descriptors, centroids.value`mean, descriptors`centroid
      ensures centroids.Some? && Ready(centroids.value)
      ensures centroids.value == Select(old(centroids.value), Survivors(ms, vs, Dim()))
      ensures MeanVals(centroids.value) == Round(ms, vs, Dim())
      ensures delta == RoundDelta(ms, vs, Dim())
      ensures forall j :: 0 <= j < |centroids.value| ==>
        centroids.value[j].descriptors == Cluster(descriptors, Choices(ms, vs, Dim()), Survivors(ms, vs, Dim())[j])
    {
      hide *;
      delta := Refresh(ms, vs);
      var droppedCount := DropEmptyCentroids();
    }

    /**
     * What Assign and Update leave: the centroids with a mean are the round's
     * survivors, and their means are the round's means.
     */
    lemma AfterUpdate(cs: seq<Centroid>, ms: seq<Vec>, vs: seq<Vec>, next: seq<Centroid>)
      requires Consistent() && |descriptors| > 0 && |vs| == |descriptors| && Distinct(cs)
      requires |ms| > 0 && |cs| == |ms| && AllOfDimension(ms, Dim()) && AllOfDimension(vs, Dim())
      requires forall k :: 0 <= k < |ms| ==> AllOfDimension(Groups(ms, vs, Dim())[k], Dim())
      requires Lists(cs) == Clusters(descriptors, Choices(ms, vs, Dim()), |cs|)
      requires ListVals(cs) == Groups(ms, vs, Dim())
      requires OptMeans(cs) == NewMeans(Groups(ms, vs, Dim()), Dim())
      requires next == Select(cs, Survivors(ms, vs, Dim()))
      ensures Kept(MeanFlags(cs)) == Survivors(ms, vs, Dim())
      ensures Ready(next) && HasMeans(next) && MeanVals(next) == Round(ms, vs, Dim())
      ensures forall j :: 0 <= j < |next| ==>
        next[j].descriptors == Cluster(descriptors, Choices(ms, vs, Dim()), Survivors(ms, vs, Dim())[j])
      ensures forall j :: 0 <= j < |next| ==>
        Survivors(ms, vs, Dim())[j] < |cs| && next[j] == cs[Survivors(ms, vs, Dim())[j]] && next[j].descriptors != []
    {
      hide Round, RoundDelta, Survivors, Groups, Choices, Choice, Clusters, Cluster, MeanVals, ListVals, OptMeans;
      hide MeanFlags, Kept, Select, Vals, MeanOf, Occupied, UpdateDelta, Lift, Lists, DeltaOf, Sum;
      var dim := Dim();
      var ch := Choices(ms, vs, dim);
      var g := Groups(ms, vs, dim);
      var kept := Survivors(ms, vs, dim);
      RoundFacts(ms, vs, dim);
      forall k | 0 <= k < |cs| ensures cs[k].descriptors == Cluster(descriptors, ch, k) {
        assert Lists(cs)[k] == Clusters(descriptors, ch, |cs|)[k];
      }
      forall k, i | 0 <= k < |cs| && 0 <= i < |cs[k].descriptors| ensures cs[k].descriptors[i].values.Length == dim {
        assert ListVals(cs)[k] == Vals(cs[k].descriptors);
        assert Vals(cs[k].descriptors)[i] == cs[k].descriptors[i].values[..];
      }
      forall k | 0 <= k < |cs|
        ensures (cs[k].mean == null <==> cs[k].descriptors == [])
        ensures cs[k].descriptors != [] ==> cs[k].mean.values[..] == MeanOf(Vals(cs[k].descriptors), dim)
      {
        assert OptMeans(cs)[k] == NewMeans(g, dim)[k];
        assert ListVals(cs)[k] == g[k] == Vals(cs[k].descriptors);
      }
      assert MeanFlags(cs) == Occupied(g);
      SurvivorsAreTheRound(cs, ms, vs, dim, next);
      forall j | 0 <= j < |next|
        ensures next[j] == cs[kept[j]] && next[j].descriptors == Cluster(descriptors, ch, kept[j])
      {
        assert next[j] == cs[kept[j]];
      }
      DropKeepsExactlyTheMeans(cs);
    }

    /** The data as vectors. */
    function Data(): (vs: seq<Vec>)
      requires Consistent()
      reads set i | 0 <= i < |descriptors| :: descriptors[i].values
      ensures |vs| == |descriptors| && AllOfDimension(vs, Dim())
    {
      Vals(descriptors)
    }

    /** The vectors of the seeds GenerateRandomSeeds takes. */
    function SeedVals(seedCount: nat, stream: nat -> int): (ss: seq<Vec>)
      requires IsSampleStream(stream) && Consistent() && 0 < seedCount <= |descriptors|
      reads set i | 0 <= i < |descriptors| :: descriptors[i].values
      ensures |ss| == seedCount && AllOfDimension(ss, Dim())
    {
      var seeds := Seeds(descriptors, seedCount, stream);
      assert forall i :: 0 <= i < |seeds| ==> seeds[i] in descriptors;
      Vals(seeds)
    }

    /**
     * The loop of Clusterize: iterationCount rounds from the current means; the
     * result holds the rounds' deltas in order, and the lists are the clusters of
     * the last round.
     */
    method Iterate(ghost seedVals: seq<Vec>, ghost vs: seq<Vec>, iterationCount: nat) returns (updateDeltas: seq<real>)
      requires Consistent() && |descriptors| > 0 && centroids.Some? && Ready(centroids.value)
      requires MeanVals(centroids.value) == seedVals && Vals(descriptors) == vs
      modifies this`centroids, centroids.value`descriptors, centroids.value`mean, descriptors`centroid
      ensures |seedVals| > 0 && AllOfDimension(seedVals, Dim()) && AllOfDimension(vs, Dim())
      ensures centroids.Some? && Ready(centroids.value)
      ensures forall j :: 0 <= j < |centroids.value| ==> centroids.value[j] in old(centroids.value)
      ensures MeanVals(centroids.value) == Rounds(seedVals, vs, Dim(), iterationCount)
      ensures updateDeltas == Deltas(seedVals, vs, Dim(), iterationCount)
      ensures iterationCount == 0 ==>
        centroids == old(centroids) &&
        (forall j :: 0 <= j < |centroids.value| ==> centroids.value[j].descriptors == old(centroids.value[j].descriptors))
      ensures iterationCount > 0 ==>
        forall j :: 0 <= j < |centroids.value| ==>
          centroids.value[j].descriptors == Cluster(descriptors,
            Choices(Rounds(seedVals, vs, Dim(), iterationCount - 1), vs, Dim()),
            Survivors(Rounds(seedVals, vs, Dim(), iterationCount - 1), vs, Dim())[j])
    {
      hide Round, RoundDelta, Survivors, Groups, Choices, Choice, Clusters, Cluster, MeanVals, ListVals, OptMeans;
      hide MeanFlags, Kept, Select, Vals, MeanOf, Occupied, UpdateDelta, Lift, Lists, DeltaOf, Sum;
      ghost var dim := Dim();
      assert AllOfDimension(seedVals, dim) && AllOfDimension(vs, dim) && |seedVals| > 0;
      hide *;
      updateDeltas := [];
      for i := 0 to iterationCount
        invariant centroids.Some? && Ready(centroids.value)
        invariant forall j :: 0 <= j < |centroids.value| ==> centroids.value[j] in old(centroids.value)
        invariant MeanVals(centroids.value) == Rounds(seedVals, vs, dim, i)
        invariant updateDeltas == Deltas(seedVals, vs, dim, i)
        invariant i == 0 ==>
          centroids == old(centroids) &&
          (forall j :: 0 <= j < |centroids.value| ==> centroids.value[j].descriptors == old(centroids.value[j].descriptors))
        invariant i > 0 ==>
          forall j :: 0 <= j < |centroids.value| ==>
            centroids.value[j].descriptors == Cluster(descriptors,
              Choices(Rounds(seedVals, vs, dim, i - 1), vs, dim),
              Survivors(Rounds(seedVals, vs, dim, i - 1), vs, dim)[j])
      {
        ghost var ms := Rounds(seedVals, vs, dim, i);
        var delta := Iteration(ms, vs);
        updateDeltas := updateDeltas + [delta];
      }
    }

    /**
     * Before the final AssignClosestDescriptors: every survivor's list can be
     * compared with its mean, and the descriptor picked for it is the one at the
     * position of the closest vector of its group.
     */
    lemma SurvivorsComparable(cs: seq<Centroid>, ms: seq<Vec>)
      requires Consistent() && |descriptors| > 0 && Ready(cs)
      requires |ms| > 0 && AllOfDimension(ms, Dim())
      requires MeanVals(cs) == Round(ms, Data(), Dim())
      requires forall j :: 0 <= j < |cs| ==>
        cs[j].descriptors == Cluster(descriptors, Choices(ms, Data(), Dim()), Survivors(ms, Data(), Dim())[j])
      ensures forall j :: 0 <= j < |cs| ==> Comparable(cs[j])
      ensures |cs| == |Survivors(ms, Data(), Dim())|
      ensures forall j :: 0 <= j < |cs| ==> |cs[j].descriptors| == |Groups(ms, Data(), Dim())[Survivors(ms, Data(), Dim())[j]]|
      ensures forall j :: 0 <= j < |cs| ==> ClosestOf(cs[j]) == FinalMeans(descriptors, ms, Data(), Dim(), Lists(cs))[j]
    {
      hide Round, RoundDelta, Survivors, Groups, Choices, Choice, Clusters, Cluster, ListVals, OptMeans, MeanVals;
      hide MeanFlags, Kept, Select, MeanOf, Occupied, UpdateDelta, Lift, Lists, DeltaOf, Sum, Rounds, Deltas, Vals;
      var vs := Data();
      var dim := Dim();
      var ch := Choices(ms, vs, dim);
      var kept := Survivors(ms, vs, dim);
      var g := Groups(ms, vs, dim);
      RoundFacts(ms, vs, dim);
      SurvivorClusters(descriptors, ms, dim);
      forall j | 0 <= j < |cs|
        ensures Comparable(cs[j]) && Vals(cs[j].descriptors) == g[kept[j]] && g[kept[j]] != []
        ensures ClosestOf(cs[j]) == cs[j].descriptors[ClosestIndex(Round(ms, vs, dim)[j], g[kept[j]])]
      {
        ClusterVals(descriptors, ch, kept[j]);
        assert cs[j].mean.values[..] == MeanVals(cs)[j];
      }
      assert |cs| == |Round(ms, vs, dim)|;
      var fm := FinalMeans(descriptors, ms, vs, dim, Lists(cs));
      assert forall j :: 0 <= j < |cs| ==> fm[j] == cs[j].descriptors[ClosestIndex(Round(ms, vs, dim)[j], g[kept[j]])];
    }

    /**
     * The final AssignClosestDescriptors after at least one round: the lists are the
     * clusters of the last round, which started from ms, and the means its result.
     */
    method Finish(ghost ms: seq<Vec>, ghost vs: seq<Vec>)
      requires Consistent() && |descriptors| > 0 && centroids.Some? && Ready(centroids.value)
      requires |ms| > 0 && AllOfDimension(ms, Dim())
      requires Data() == vs && MeanVals(centroids.value) == Round(ms, vs, Dim())
      requires forall j :: 0 <= j < |centroids.value| ==>
        centroids.value[j].descriptors == Cluster(descriptors, Choices(ms, vs, Dim()), Survivors(ms, vs, Dim())[j])
      modifies centroids.value`mean
      ensures Finished(descriptors, ms, vs, Dim(), Lists(centroids.value), Means(centroids.value))
      ensures DistinctInts(IdsOf(descriptors)) ==> HasMeans(centroids.value) && DistinctInts(MeanIds(centroids.value))
    {
      hide Round, RoundDelta, Survivors, Groups, Choices, Choice, Clusters, Cluster, ListVals, OptMeans, MeanVals;
      hide MeanFlags, Kept, Select, MeanOf, Occupied, UpdateDelta, Lift, Lists, DeltaOf, Sum, Rounds, Deltas, Vals;
      hide ClosestOf, Comparable, ClosestIndex, Ready, HasMeans, MeanIds, Means, Finished, FinalMeans, Data;
      hide Distinct, DistinctInts, AllOfDimension, IdsOf;
      var cs := centroids.value;
      ghost var lists, fm := FinishPlan(cs, ms, vs);
      AssignKnownClosest(cs, lists, fm);
      if DistinctInts(IdsOf(descriptors)) {
        DistinctMeanIds(cs, fm);
      }
    }

    /** What the final AssignClosestDescriptors will find, worked out before it runs. */
    lemma FinishPlan(cs: seq<Centroid>, ms: seq<Vec>, vs: seq<Vec>) returns (lists: seq<seq<Descriptor>>, fm: seq<Descriptor?>)
      requires Consistent() && |descriptors| > 0 && Ready(cs)
      requires |ms| > 0 && AllOfDimension(ms, Dim())
      requires Data() == vs && MeanVals(cs) == Round(ms, vs, Dim())
      requires forall j :: 0 <= j < |cs| ==>
        cs[j].descriptors == Cluster(descriptors, Choices(ms, vs, Dim()), Survivors(ms, vs, Dim())[j])
      ensures Distinct(cs) && forall k :: 0 <= k < |cs| ==> Comparable(cs[k])
      ensures Lists(cs) == lists && |fm| == |cs| && forall k :: 0 <= k < |cs| ==> ClosestOf(cs[k]) == fm[k]
      ensures AllOfDimension(vs, Dim()) && |descriptors| == |vs|
      ensures Finished(descriptors, ms, vs, Dim(), lists, fm)
      ensures DistinctInts(IdsOf(descriptors)) ==>
        (forall j :: 0 <= j < |fm| ==> fm[j] != null) &&
        (forall j, j' :: 0 <= j < j' < |fm| ==> fm[j].id != fm[j'].id)
    {
      SurvivorsComparable(cs, ms);
      assert Distinct(cs);
      hide Round, RoundDelta, Survivors, Groups, Choices, Choice, Clusters, Cluster, ListVals, OptMeans, MeanVals;
      hide MeanFlags, Kept, Select, MeanOf, Occupied, UpdateDelta, Lift, Lists, DeltaOf, Sum, Rounds, Deltas, Vals;
      hide ClosestOf, Comparable, ClosestIndex, Ready, HasMeans, MeanIds, Means, Finished, FinalMeans;
      var dim := Dim();
      lists := Lists(cs);
      fm := FinalMeans(descriptors, ms, vs, dim, lists);
      if DistinctInts(IdsOf(descriptors)) {
        FinalMeansDistinct(lists, fm, descriptors, Choices(ms, vs, dim), Survivors(ms, vs, dim));
      }
    }

    /**
     * Clusterize(seedCount, iterationCount, randomSeed), with `stream` the samples of
     * new Random(randomSeed): the centroids seeded, iterationCount rounds run (a
     * negative count fails when the result array is allocated, after seeding), and
     * every mean finally replaced by the first of its own descriptors closest to it.
     * The result is the rounds' deltas.
     */
    method Clusterize(seedCount: int, iterationCount: int, stream: nat -> int) returns (r: Result<seq<real>>)
      requires IsSampleStream(stream) && Consistent()
      modifies this`centroids, descriptors`centroid
      ensures r.Ok? <==> 0 < seedCount <= |descriptors| && iterationCount >= 0
      ensures seedCount <= 0 || seedCount > |descriptors| ==> r == Err(ArgumentOutOfRange) && centroids == old(centroids)
      ensures 0 < seedCount <= |descriptors| && iterationCount < 0 ==>
        r == Err(Overflow) && centroids.Some? && |centroids.value| == seedCount &&
        (forall j :: 0 <= j < seedCount ==>
          centroids.value[j].id == j && centroids.value[j].mean == Seeds(descriptors, seedCount, stream)[j] && centroids.value[j].descriptors == [])
      ensures r.Ok? ==> centroids.Some? && r.value == Deltas(SeedVals(seedCount, stream), Data(), Dim(), iterationCount)
      ensures r.Ok? ==> Distinct(centroids.value) && forall j :: 0 <= j < |centroids.value| ==> fresh(centroids.value[j])
      ensures r.Ok? && iterationCount == 0 ==>
        |centroids.value| == seedCount &&
        (forall j :: 0 <= j < seedCount ==>
          centroids.value[j].id == j && centroids.value[j].mean == null && centroids.value[j].descriptors == [])
      ensures r.Ok? && iterationCount > 0 ==>
        Finished(descriptors, Rounds(SeedVals(seedCount, stream), Data(), Dim(), iterationCount - 1), Data(), Dim(),
          Lists(centroids.value), Means(centroids.value))
      ensures r.Ok? && iterationCount > 0 && DistinctInts(IdsOf(descriptors)) ==>
        HasMeans(centroids.value) && DistinctInts(MeanIds(centroids.value))
    {
      hide Round, RoundDelta, Survivors, Groups, Choices, Choice, Clusters, Cluster, ListVals, OptMeans, MeanVals;
      hide MeanFlags, Kept, Select, MeanOf, Occupied, UpdateDelta, Lift, Lists, DeltaOf, Sum, Deltas, Finished, Rounds;
      hide Seeds, Picks, SeedVals, Data, Ready, HasMeans, MeanIds, DistinctInts, IdsOf, Means, AllOfDimension;
      var seeds := GenerateRandomSeeds(descriptors, seedCount, stream);
      if seeds.Err? {
        return Err(seeds.error);
      }
      centroids := Some(seeds.value);
      if iterationCount < 0 {
        return Err(Overflow);
      }
      ghost var seedVals := SeedVals(seedCount, stream);
      SeededReady(seeds.value, seedCount, stream);
      var updateDeltas := Run(seedVals, Data(), iterationCount);
      return Ok(updateDeltas);
    }

    /** Centroids seeded with the seeds are ready for the rounds, their means the seeds' vectors. */
    lemma SeededReady(cs: seq<Centroid>, seedCount: nat, stream: nat -> int)
      requires IsSampleStream(stream) && Consistent() && 0 < seedCount <= |descriptors|
      requires |cs| == seedCount && Distinct(cs)
      requires forall j :: 0 <= j < seedCount ==> cs[j].mean == Seeds(descriptors, seedCount, stream)[j]
      ensures Ready(cs) && MeanVals(cs) == SeedVals(seedCount, stream)
    {
      var seeds := Seeds(descriptors, seedCount, stream);
      forall j | 0 <= j < seedCount ensures cs[j].mean.values.Length == Dim() {
        assert seeds[j] in descriptors;
      }
    }

    /**
     * Clusterize after seeding: the rounds, then the final AssignClosestDescriptors.
     * With no rounds the seeds' lists stay empty, so every mean becomes none.
     */
    method Run(ghost seedVals: seq<Vec>, ghost vs: seq<Vec>, iterationCount: nat) returns (updateDeltas: seq<real>)
      requires Consistent() && |descriptors| > 0 && centroids.Some? && Ready(centroids.value)
      requires MeanVals(centroids.value) == seedVals && Data() == vs
      requires forall j :: 0 <= j < |centroids.value| ==> centroids.value[j].descriptors == []
      modifies this`centroids, centroids.value`descriptors, centroids.value`mean, descriptors`centroid
      ensures |seedVals| > 0 && AllOfDimension(seedVals, Dim())
      ensures updateDeltas == Deltas(seedVals, vs, Dim(), iterationCount)
      ensures centroids.Some? && Distinct(centroids.value)
      ensures forall j :: 0 <= j < |centroids.value| ==> centroids.value[j] in old(centroids.value)
      ensures iterationCount == 0 ==>
        centroids == old(centroids) &&
        (forall j :: 0 <= j < |centroids.value| ==> centroids.value[j].mean == null && centroids.value[j].descriptors == [])
      ensures iterationCount > 0 ==>
        Finished(descriptors, Rounds(seedVals, vs, Dim(), iterationCount - 1), vs, Dim(), Lists(centroids.value), Means(centroids.value))
      ensures iterationCount > 0 && DistinctInts(IdsOf(descriptors)) ==>
        HasMeans(centroids.value) && DistinctInts(MeanIds(centroids.value))
    {
      hide Round, RoundDelta, Survivors, Groups, Choices, Choice, Clusters, Cluster, MeanVals, ListVals, OptMeans;
      hide MeanFlags, Kept, Select, MeanOf, Occupied, UpdateDelta, Lift, Lists, DeltaOf, Sum, Deltas, Finished, Rounds;
      ghost var dim := Dim();
      updateDeltas := Iterate(seedVals, vs, iterationCount);
      if iterationCount > 0 {
        RoundsUnfold(seedVals, vs, dim, iterationCount);
        Finish(Rounds(seedVals, vs, dim, iterationCount - 1), vs);
      } else {
        AssignClosestDescriptors(centroids.value);
      }
    }

    /**
     * Clusterize(seedPercentage, iterationCount, randomSeed): a share outside (0, 1]
     * is an argument error; otherwise Clusterize with the truncated share of the
     * descriptors, at least one, as seed count.
     */
    method ClusterizeFraction(seedPercentage: real, iterationCount: int, stream: nat -> int) returns (r: Result<seq<real>>)
      requires IsSampleStream(stream) && Consistent()
      modifies this`centroids, descriptors`centroid
      ensures !(0.0 < seedPercentage <= 1.0) ==> r == Err(Argument) && centroids == old(centroids)
      ensures 0.0 < seedPercentage <= 1.0 && |descriptors| == 0 ==> r == Err(ArgumentOutOfRange)
      ensures r.Ok? <==> 0.0 < seedPercentage <= 1.0 && |descriptors| > 0 && iterationCount >= 0
      ensures r.Ok? ==> r.value == Deltas(SeedVals(SeedCount(|descriptors|, seedPercentage), stream), Data(), Dim(), iterationCount)
    {
      if seedPercentage > 1.0 || seedPercentage <= 0.0 {
        return Err(Argument);
      }
      var seedCount := SeedCount(|descriptors|, seedPercentage);
      r := Clusterize(seedCount, iterationCount, stream);
    }

    /**
     * Update: every centroid's mean recomputed from its list (none for an empty
     * list); the result is the sum over centroids of how far the mean moved, 0 for
     * a centroid that had or gets no mean.
     */
    method Update() returns (delta: real)
      requires Consistent() && centroids.Some? && Distinct(centroids.value)
      requires ListsFit(centroids.value) && MeansFit(centroids.value)
      modifies centroids.value`mean
      ensures Lists(centroids.value) == old(Lists(centroids.value)) && ListVals(centroids.value) == old(ListVals(centroids.value))
      ensures OptMeans(centroids.value) == NewMeans(ListVals(centroids.value), Dim())
      ensures forall k :: 0 <= k < |centroids.value| && centroids.value[k].descriptors != [] ==>
        fresh(centroids.value[k].mean) && centroids.value[k].mean.id == -1
      ensures delta == UpdateDelta(old(OptMeans(centroids.value)), old(ListVals(centroids.value)), Dim())
    {
      hide MeanOf, SumOf, DistanceSqr, OptMeans, ListVals, Sum, DeltaOf;
      var cs := centroids.value;
      ghost var befores := OptMeans(cs);
      ghost var lists := ListVals(cs);
      var updatedCentroidDeltas := UpdateCentroids(cs, Dim());
      assert updatedCentroidDeltas == seq(|lists|, k requires 0 <= k < |lists| => DeltaOf(befores[k], lists[k], Dim()));
      delta := Sum(updatedCentroidDeltas);
    }

    /**
     * DropEmptyCentroids: the centroids without a mean unlinked, the others kept in
     * order; the result is how many were dropped.
     */
    method DropEmptyCentroids() returns (droppedCounter: int)
      requires centroids.Some?
      modifies this`centroids
      ensures centroids.Some?
      ensures centroids.value == Select(old(centroids.value), Kept(old(MeanFlags(centroids.value))))
      ensures droppedCounter == |old(centroids.value)| - |centroids.value|
    {
      hide Kept, Select, MeanFlags;
      var cs := centroids.value;
      ghost var flags := MeanFlags(cs);
      var linkedCentroids := cs;
      var node := 0;
      droppedCounter := 0;
      while node < |linkedCentroids|
        invariant node + droppedCounter <= |cs| && |linkedCentroids| == |cs| - droppedCounter
        invariant linkedCentroids[..node] == Select(cs, Kept(flags[..node + droppedCounter]))
        invariant linkedCentroids[node..] == cs[node + droppedCounter..]
        decreases |linkedCentroids| - node
      {
        ghost var i := node + droppedCounter;
        KeptUnfold(flags[..i + 1]);
        assert flags[..i + 1][..i] == flags[..i];
        assert linkedCentroids[node] == cs[i];
        if linkedCentroids[node].mean == null {
          linkedCentroids := RemoveAt(linkedCentroids, node);
          droppedCounter := droppedCounter + 1;
        } else {
          node := node + 1;
        }
      }
      assert flags[..|cs|] == flags;
      assert linkedCentroids == Select(cs, Kept(flags)) by {
        assert linkedCentroids[..node] == linkedCentroids;
      }
      centroids := Some(linkedCentroids);
    }
  }
}
