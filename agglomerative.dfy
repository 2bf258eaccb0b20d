/**
 * Agglomerative clustering (Hierarchical/Agglomerative/ClusteringAgglomerative.cs).
 * Every descriptor starts as a cluster of its own in a slot of the weighted-centroid
 * array; each iteration finds the two live slots at the smallest weighted distance,
 * merges the lighter into the heavier, marks the other dropped, refreshes the
 * distance matrix and exports the live centroids as one layer of the hierarchy.
 */
module Agglomerative {
  import opened Wrappers
  import opened Vectors
  import opened Structures
  import opened Clustering

  // ---------------------------------------------------------------------------
  // Weighted distance

  /**
   * WeightedCentroid.GetDistance on the means a and b with weights wa and wb: the
   * squared distance times wa * wb, divided by wa + wb (Ward's criterion).
   */
  function Ward(a: Vec, wa: int, b: Vec, wb: int): real
    requires |a| <= |b| && wa + wb != 0
  {
    DistanceSqr(a, b) * (wa * wb) as real / (wa + wb) as real
  }

  lemma WardSymmetric(a: Vec, wa: int, b: Vec, wb: int)
    requires |a| == |b| && wa + wb != 0
    ensures Ward(a, wa, b, wb) == Ward(b, wb, a, wa)
  {
    DistanceSymmetric(a, b);
    assert wa * wb == wb * wa;
  }

  /** Positive weights give a distance that is never negative, and zero from a mean to itself. */
  lemma WardNonNegative(a: Vec, wa: int, b: Vec, wb: int)
    requires |a| <= |b| && wa > 0 && wb > 0
    ensures Ward(a, wa, b, wb) >= 0.0
    ensures a == b ==> Ward(a, wa, b, wb) == 0.0
  {
    DistanceNonNegative(a, b);
    if a == b {
      DistanceToSelfIsZero(a, b);
    }
  }

  // ---------------------------------------------------------------------------
  // Weighted centroids

  /** A centroid and its weight; neither is reassigned once constructed. */
  class WeightedCentroid {
    const centroid: Centroid
    const weight: int

    constructor (centroid: Centroid, weight: int)
      ensures this.centroid == centroid && this.weight == weight
    {
      this.centroid := centroid;
      this.weight := weight;
    }

    /** WeightedCentroid(centroid): weight 1. */
    constructor Unweighted(centroid: Centroid)
      ensures this.centroid == centroid && weight == 1
    {
      this.centroid := centroid;
      weight := 1;
    }

    /** WeightedCentroid(id, descriptor): a new centroid seeded by the descriptor and holding only it, weight 1. */
    constructor FromDescriptor(id: int, d: Descriptor)
      ensures fresh(centroid) && centroid.id == id && centroid.mean == d && centroid.descriptors == [d]
      ensures weight == 1
    {
      var c := new Centroid.Seeded(id, d);
      c.AddDescriptorConcurrent(d);
      centroid := c;
      weight := 1;
    }
  }

  /**
   * WeightedCentroid.Merge: a new centroid with the id of `merged`, holding the
   * descriptors of `merged` followed by those of `dropped`, with their mean
   * computed, and weight 1. ComputeMean's ArgumentException on vectors of
   * different lengths passes through.
   */
  method Merge(merged: WeightedCentroid, dropped: WeightedCentroid) returns (r: Result<WeightedCentroid>)
    ensures var ds := merged.centroid.descriptors + dropped.centroid.descriptors;
      r.Err? <==> ds != [] && !Uniform(Vals(ds))
    ensures r.Err? ==> r.error == Argument
    ensures r.Ok? ==>
      fresh(r.value) && fresh(r.value.centroid) && r.value.weight == 1 &&
      r.value.centroid.id == merged.centroid.id &&
      r.value.centroid.descriptors == merged.centroid.descriptors + dropped.centroid.descriptors
    ensures r.Ok? && merged.centroid.descriptors + dropped.centroid.descriptors == [] ==>
      r.value.centroid.mean == null
    ensures var ds := merged.centroid.descriptors + dropped.centroid.descriptors;
      r.Ok? && ds != [] ==>
        r.value.centroid.mean != null &&
        fresh(r.value.centroid.mean) && fresh(r.value.centroid.mean.values) &&
        r.value.centroid.mean.values[..] == MeanOf(Vals(ds), |Vals(ds)[0]|)
  {
    ghost var ds := merged.centroid.descriptors + dropped.centroid.descriptors;
    var c := new Centroid.WithId(merged.centroid.id);
    c.descriptors := c.descriptors + merged.centroid.descriptors;
    c.descriptors := c.descriptors + dropped.centroid.descriptors;
    assert c.descriptors == ds;
    var mean := c.ComputeMean();
    if mean.Err? {
      return Err(mean.error);
    }
    var w := new WeightedCentroid.Unweighted(c);
    return Ok(w);
  }

  /** WeightedCentroid.FromDescriptors: slot i holds descriptor i alone, under id i. */
  method FromDescriptors(descriptors: seq<Descriptor>) returns (result: array<WeightedCentroid>)
    ensures fresh(result) && result.Length == |descriptors|
    ensures forall i :: 0 <= i < |descriptors| ==>
      fresh(result[i].centroid) && result[i].weight == 1 && result[i].centroid.id == i &&
      result[i].centroid.mean == descriptors[i] && result[i].centroid.descriptors == [descriptors[i]]
  {
    var slots: seq<WeightedCentroid> := [];
    for i := 0 to |descriptors|
      invariant |slots| == i
      invariant forall k :: 0 <= k < i ==>
        fresh(slots[k].centroid) && slots[k].weight == 1 && slots[k].centroid.id == k &&
        slots[k].centroid.mean == descriptors[k] && slots[k].centroid.descriptors == [descriptors[k]]
    {
      var w := new WeightedCentroid.FromDescriptor(i, descriptors[i]);
      slots := slots + [w];
    }
    result := new WeightedCentroid[|descriptors|](i requires 0 <= i < |slots| => slots[i]);
  }

  /**
   * WeightedCentroid.GetDistance: a missing mean is a null reference, a second
   * mean shorter than the first an index error; otherwise the weighted distance.
   */
  method GetDistance(a: WeightedCentroid, b: WeightedCentroid) returns (r: Result<real>)
    requires a.weight + b.weight != 0
    ensures r.Err? <==>
      a.centroid.mean == null || b.centroid.mean == null ||
      b.centroid.mean.values.Length < a.centroid.mean.values.Length
    ensures r.Err? ==> r.error == if a.centroid.mean == null || b.centroid.mean == null then NullReference else IndexOutOfRange
    ensures r.Ok? ==>
      r.value == Ward(a.centroid.mean.values[..], a.weight, b.centroid.mean.values[..], b.weight)
  {
    if a.centroid.mean == null || b.centroid.mean == null {
      return Err(NullReference);
    }
    var l2sqr := GetDistanceSqr(a.centroid.mean.values, b.centroid.mean.values);
    if l2sqr.Err? {
      return Err(l2sqr.error);
    }
    var weightMultiplied := (a.weight * b.weight) as real;
    var weightAdded := (a.weight + b.weight) as real;
    return Ok(l2sqr.value * weightMultiplied / weightAdded);
  }

  // ---------------------------------------------------------------------------
  // Live slots

  /** The slots not dropped, in increasing order. */
  function Alive(dropped: seq<bool>): (ks: seq<nat>)
    ensures forall j :: 0 <= j < |ks| ==> ks[j] < |dropped| && !dropped[ks[j]]
    ensures forall j, j' :: 0 <= j < j' < |ks| ==> ks[j] < ks[j']
    ensures forall k :: 0 <= k < |dropped| && !dropped[k] ==> k in ks
  {
    Kept(seq(|dropped|, k requires 0 <= k < |dropped| => !dropped[k]))
  }

  lemma AliveUnfold(dropped: seq<bool>)
    requires |dropped| > 0
    ensures var n := |dropped| - 1; Alive(dropped) == Alive(dropped[..n]) + if dropped[n] then [] else [n]
  {
    var n := |dropped| - 1;
    var live := seq(|dropped|, k requires 0 <= k < |dropped| => !dropped[k]);
    KeptUnfold(live);
    assert live[..n] == seq(n, k requires 0 <= k < n => !dropped[..n][k]);
  }

  /** With nothing dropped every slot is live, each in place. */
  lemma {:induction false} AliveAll(dropped: seq<bool>)
    requires forall k :: 0 <= k < |dropped| ==> !dropped[k]
    ensures |Alive(dropped)| == |dropped|
    ensures forall j :: 0 <= j < |dropped| ==> Alive(dropped)[j] == j
    decreases |dropped|
  {
    if |dropped| > 0 {
      var n := |dropped| - 1;
      AliveUnfold(dropped);
      AliveAll(dropped[..n]);
    }
  }

  /** Dropping a live slot leaves one live slot fewer. */
  lemma {:induction false} AliveDrop(dropped: seq<bool>, d: nat)
    requires d < |dropped| && !dropped[d]
    ensures |Alive(dropped[d := true])| == |Alive(dropped)| - 1
    decreases |dropped|
  {
    var n := |dropped| - 1;
    var after := dropped[d := true];
    AliveUnfold(dropped);
    AliveUnfold(after);
    if d < n {
      assert after[..n] == dropped[..n][d := true];
      AliveDrop(dropped[..n], d);
    } else {
      assert after[..n] == dropped[..n];
    }
  }

  /** Two live slots exist exactly when at least two slots are live. */
  lemma TwoAlive(dropped: seq<bool>)
    ensures |Alive(dropped)| >= 2 <==> exists i, j :: 0 <= j < i < |dropped| && !dropped[i] && !dropped[j]
  {
    var ks := Alive(dropped);
    if |ks| >= 2 {
      assert ks[0] < ks[1];
    }
    if exists i, j :: 0 <= j < i < |dropped| && !dropped[i] && !dropped[j] {
      var i, j :| 0 <= j < i < |dropped| && !dropped[i] && !dropped[j];
      assert i in ks && j in ks;
      var a :| 0 <= a < |ks| && ks[a] == i;
      var b :| 0 <= b < |ks| && ks[b] == j;
      assert a != b;
    }
  }

  /** The lists of the live slots joined, counted with repetition. */
  ghost function Pool<T>(ls: seq<seq<T>>, dropped: seq<bool>): multiset<T>
    requires |ls| == |dropped|
    decreases |ls|
  {
    if |ls| == 0 then multiset{}
    else
      var n := |ls| - 1;
      Pool(ls[..n], dropped[..n]) + if dropped[n] then multiset{} else multiset(ls[n])
  }

  lemma SelectSnoc<T>(xs: seq<T>, ks: seq<nat>, k: nat)
    requires k < |xs| && forall j :: 0 <= j < |ks| ==> ks[j] < |xs|
    ensures Select(xs, ks + [k]) == Select(xs, ks) + [xs[k]]
  {
  }

  lemma SelectPrefix<T>(xs: seq<T>, ks: seq<nat>, n: nat)
    requires n <= |xs| && forall j :: 0 <= j < |ks| ==> ks[j] < n
    ensures Select(xs, ks) == Select(xs[..n], ks)
  {
  }

  lemma FlattenSnoc<T>(ls: seq<seq<T>>, x: seq<T>)
    ensures Flatten(ls + [x]) == Flatten(ls) + x
  {
    assert (ls + [x])[..|ls|] == ls;
  }

  /** The pool is what the live slots' lists hold, taken in slot order. */
  lemma {:induction false} PoolIsLiveLists<T>(ls: seq<seq<T>>, dropped: seq<bool>)
    requires |ls| == |dropped|
    ensures Pool(ls, dropped) == multiset(Flatten(Select(ls, Alive(dropped))))
    decreases |ls|
  {
    if |ls| > 0 {
      var n := |ls| - 1;
      PoolIsLiveLists(ls[..n], dropped[..n]);
      var before := Alive(dropped[..n]);
      AliveUnfold(dropped);
      SelectPrefix(ls, before, n);
      var last := if dropped[n] then multiset{} else multiset(ls[n]);
      assert Pool(ls, dropped) == Pool(ls[..n], dropped[..n]) + last;
      var t := Select(ls[..n], before);
      assert multiset(Flatten(t)) == Pool(ls[..n], dropped[..n]);
      hide *;
      if !dropped[n] {
        SelectSnoc(ls, before, n);
        FlattenSnoc(t, ls[n]);
        assert Alive(dropped) == before + [n];
        assert Flatten(Select(ls, Alive(dropped))) == Flatten(t) + ls[n];
      } else {
        assert Alive(dropped) == before;
        assert last == multiset{};
      }
    }
  }

  /** Lists that are the live slots' lists in slot order together hold the pool. */
  lemma LiveListsPool<T>(ls: seq<seq<T>>, dropped: seq<bool>, live: seq<seq<T>>)
    requires |ls| == |dropped| && |live| == |Alive(dropped)|
    requires forall k :: 0 <= k < |live| ==> live[k] == ls[Alive(dropped)[k]]
    ensures multiset(Flatten(live)) == Pool(ls, dropped)
  {
    PoolIsLiveLists(ls, dropped);
    assert live == Select(ls, Alive(dropped));
  }

  /** Appending y to the list of a live slot adds y to the pool. */
  lemma {:induction false} PoolGrow<T>(ls: seq<seq<T>>, dropped: seq<bool>, k: nat, y: seq<T>)
    requires |ls| == |dropped| && k < |ls| && !dropped[k]
    ensures Pool(ls[k := ls[k] + y], dropped) == Pool(ls, dropped) + multiset(y)
    decreases |ls|
  {
    var n := |ls| - 1;
    var grown := ls[k := ls[k] + y];
    assert grown[n] == if k == n then ls[k] + y else ls[n];
    if k < n {
      assert grown[..n] == ls[..n][k := ls[..n][k] + y];
      assert grown[n] == ls[n];
      PoolGrow(ls[..n], dropped[..n], k, y);
    } else {
      assert grown[..n] == ls[..n];
    }
  }

  /** Dropping a live slot takes its list out of the pool. */
  lemma {:induction false} PoolDrop<T>(ls: seq<seq<T>>, dropped: seq<bool>, d: nat)
    requires |ls| == |dropped| && d < |ls| && !dropped[d]
    ensures Pool(ls, dropped[d := true]) + multiset(ls[d]) == Pool(ls, dropped)
    decreases |ls|
  {
    var n := |ls| - 1;
    var after := dropped[d := true];
    if d < n {
      assert after[..n] == dropped[..n][d := true];
      assert after[n] == dropped[n];
      PoolDrop(ls[..n], dropped[..n], d);
    } else {
      assert after[..n] == dropped[..n];
    }
  }

  /**
   * MergeClusters keeps the pool: the survivor's list grows by the dropped slot's
   * list exactly as the dropped slot leaves, so every descriptor stays in exactly
   * as many live clusters as before.
   */
  lemma {:induction false} MergeKeepsPool<T>(ls: seq<seq<T>>, dropped: seq<bool>, m: nat, d: nat)
    requires |ls| == |dropped| && m < |ls| && d < |ls| && m != d && !dropped[m] && !dropped[d]
    ensures Pool(ls[m := ls[m] + ls[d]], dropped[d := true]) == Pool(ls, dropped)
    decreases |ls|
  {
    var n := |ls| - 1;
    if m == n {
      MergeIntoLast(ls, dropped, d);
    } else if d == n {
      MergeLast(ls, dropped, m);
    } else {
      var merged := ls[m := ls[m] + ls[d]];
      var after := dropped[d := true];
      assert Pool(ls, dropped) == Pool(ls[..n], dropped[..n]) + if dropped[n] then multiset{} else multiset(ls[n]);
      assert Pool(merged, after) == Pool(merged[..n], after[..n]) + if after[n] then multiset{} else multiset(merged[n]);
      hide *;
      assert merged[..n] == ls[..n][m := ls[..n][m] + ls[..n][d]];
      assert after[..n] == dropped[..n][d := true];
      assert merged[n] == ls[n] && after[n] == dropped[n];
      MergeKeepsPool(ls[..n], dropped[..n], m, d);
    }
  }

  /** MergeKeepsPool when the survivor is the last slot. */
  lemma MergeIntoLast<T>(ls: seq<seq<T>>, dropped: seq<bool>, d: nat)
    requires |ls| == |dropped| && d < |ls| - 1 && !dropped[|ls| - 1] && !dropped[d]
    ensures Pool(ls[|ls| - 1 := ls[|ls| - 1] + ls[d]], dropped[d := true]) == Pool(ls, dropped)
  {
    var n := |ls| - 1;
    var merged := ls[n := ls[n] + ls[d]];
    var after := dropped[d := true];
    assert Pool(ls, dropped) == Pool(ls[..n], dropped[..n]) + multiset(ls[n]);
    assert Pool(merged, after) == Pool(merged[..n], after[..n]) + multiset(merged[n]);
    hide *;
    assert merged[..n] == ls[..n];
    assert after[..n] == dropped[..n][d := true];
    assert multiset(merged[n]) == multiset(ls[n]) + multiset(ls[d]);
    PoolDrop(ls[..n], dropped[..n], d);
    assert ls[..n][d] == ls[d];
  }

  /** MergeKeepsPool when the dropped slot is the last one. */
  lemma MergeLast<T>(ls: seq<seq<T>>, dropped: seq<bool>, m: nat)
    requires |ls| == |dropped| && m < |ls| - 1 && !dropped[m] && !dropped[|ls| - 1]
    ensures Pool(ls[m := ls[m] + ls[|ls| - 1]], dropped[|ls| - 1 := true]) == Pool(ls, dropped)
  {
    var n := |ls| - 1;
    var merged := ls[m := ls[m] + ls[n]];
    var after := dropped[n := true];
    assert Pool(ls, dropped) == Pool(ls[..n], dropped[..n]) + multiset(ls[n]);
    assert Pool(merged, after) == Pool(merged[..n], after[..n]);
    hide *;
    assert merged[..n] == ls[..n][m := ls[..n][m] + ls[n]];
    assert after[..n] == dropped[..n];
    PoolGrow(ls[..n], dropped[..n], m, ls[n]);
  }

  /** Every element listed in ls is one of xs. */
  ghost predicate Listed<T>(ls: seq<seq<T>>, xs: seq<T>)
  {
    forall k, x :: 0 <= k < |ls| && x in ls[k] ==> x in xs
  }

  /** Appending one list to another keeps every listed element among xs. */
  lemma JoinKeepsMembers<T>(ls: seq<seq<T>>, xs: seq<T>, m: nat, d: nat)
    requires m < |ls| && d < |ls| && Listed(ls, xs)
    ensures Listed(ls[m := ls[m] + ls[d]], xs)
  {
  }

  /** One descriptor per slot and nothing dropped: the pool is the descriptors. */
  lemma {:induction false} PoolOfSingletons<T>(xs: seq<T>, ls: seq<seq<T>>, dropped: seq<bool>)
    requires |ls| == |xs| == |dropped| && forall k :: 0 <= k < |dropped| ==> !dropped[k] && ls[k] == [xs[k]]
    ensures Pool(ls, dropped) == multiset(xs)
    decreases |xs|
  {
    if |xs| > 0 {
      var n := |xs| - 1;
      assert Pool(ls, dropped) == Pool(ls[..n], dropped[..n]) + multiset(ls[n]);
      hide *;
      PoolOfSingletons(xs[..n], ls[..n], dropped[..n]);
      assert xs == xs[..n] + [xs[n]];
    }
  }

  // ---------------------------------------------------------------------------
  // The merge history

  /** The slots between two iterations: each slot's list and mean vector, and which slots are dropped. */
  datatype SlotState = SlotState(lists: seq<seq<Descriptor>>, means: seq<Vec>, dropped: seq<bool>)

  /** Every slot has a list, a flag and a mean of dimension dim. */
  ghost predicate Fits(s: SlotState, dim: nat)
  {
    |s.lists| == |s.means| == |s.dropped| && forall k :: 0 <= k < |s.means| ==> |s.means[k]| == dim
  }

  /** Two live slots, j below i: a pair FindMinimalDistanceIds weighs. */
  ghost predicate LivePair(s: SlotState, i: int, j: int)
  {
    0 <= j < i < |s.dropped| && !s.dropped[i] && !s.dropped[j]
  }

  /** The distance the matrix holds for slots i and j: Ward's criterion on their means, weight 1 each. */
  ghost function SlotDistance(s: SlotState, dim: nat, i: nat, j: nat): real
    requires Fits(s, dim) && i < |s.means| && j < |s.means|
  {
    Ward(s.means[i], 1, s.means[j], 1)
  }

  /**
   * (m, d) is the pair an iteration merges: live, d below m, at the smallest
   * distance of all live pairs, and strictly closer than every live pair before
   * it in order of the first slot and then of the second.
   */
  ghost predicate NearestPair(s: SlotState, dim: nat, m: int, d: int)
    requires Fits(s, dim)
  {
    LivePair(s, m, d) &&
    (forall i, j :: LivePair(s, i, j) ==> SlotDistance(s, dim, m, d) <= SlotDistance(s, dim, i, j)) &&
    (forall i, j :: LivePair(s, i, j) && (i < m || (i == m && j < d)) ==>
      SlotDistance(s, dim, m, d) < SlotDistance(s, dim, i, j))
  }

  /** vec records the vector of every descriptor of ds. */
  ghost predicate Snapshot(ds: seq<Descriptor>, vec: map<Descriptor, Vec>)
    reads set i | 0 <= i < |ds| :: ds[i].values
  {
    forall i :: 0 <= i < |ds| ==> ds[i] in vec && vec[ds[i]] == ds[i].values[..]
  }

  /** Under the snapshot, the vectors of descriptors drawn from ds are the recorded ones. */
  lemma SnapshotVals(ds: seq<Descriptor>, vec: map<Descriptor, Vec>, ls: seq<Descriptor>)
    requires Snapshot(ds, vec) && forall x :: x in ls ==> x in ds
    ensures (forall x :: x in ls ==> x in vec) && Vals(ls) == VecsOf(ls, vec)
  {
    forall x | x in ls
      ensures x in vec && vec[x] == x.values[..]
    {
      var i :| 0 <= i < |ds| && ds[i] == x;
    }
  }

  /** The recorded vectors of the descriptors of ls, in order. */
  ghost function VecsOf(ls: seq<Descriptor>, vec: map<Descriptor, Vec>): (vs: seq<Vec>)
    requires forall x :: x in ls ==> x in vec
    ensures |vs| == |ls| && forall i :: 0 <= i < |ls| ==> vs[i] == vec[ls[i]]
  {
    seq(|ls|, i requires 0 <= i < |ls| => vec[ls[i]])
  }

  /** mean is the mean of the recorded vectors of the non-empty list ls, all of dimension dim. */
  ghost predicate MeanOfList(ls: seq<Descriptor>, mean: Vec, dim: nat, vec: map<Descriptor, Vec>)
  {
    (forall x :: x in ls ==> x in vec) && ls != [] &&
    AllOfDimension(VecsOf(ls, vec), dim) && mean == MeanOf(VecsOf(ls, vec), dim)
  }

  /**
   * One iteration: (m, d) is the nearest pair of s, and t is s with d's list
   * appended to m's, m's mean recomputed over the joined list and d dropped.
   */
  ghost predicate Merges(s: SlotState, t: SlotState, dim: nat, vec: map<Descriptor, Vec>, m: nat, d: nat)
  {
    Fits(s, dim) && NearestPair(s, dim, m, d) && |t.means| == |s.means| &&
    t == SlotState(s.lists[m := s.lists[m] + s.lists[d]], s.means[m := t.means[m]], s.dropped[d := true]) &&
    MeanOfList(t.lists[m], t.means[m], dim, vec)
  }

  /** Merges from the three updates an iteration makes to the slots. */
  lemma MergesOf(s: SlotState, t: SlotState, dim: nat, vec: map<Descriptor, Vec>, m: nat, d: nat)
    requires Fits(s, dim) && NearestPair(s, dim, m, d)
    requires t.lists == s.lists[m := s.lists[m] + s.lists[d]] && t.dropped == s.dropped[d := true]
    requires |t.means| == |s.means| && forall k :: 0 <= k < |s.means| && k != m ==> t.means[k] == s.means[k]
    requires MeanOfList(t.lists[m], t.means[m], dim, vec)
    ensures Merges(s, t, dim, vec, m, d)
  {
    assert t.means == s.means[m := t.means[m]];
  }

  /**
   * A merge history: history[s + 1] is history[s] with pair pairs[s] merged,
   * for every step s.
   */
  ghost predicate Chain(history: seq<SlotState>, pairs: seq<(nat, nat)>, dim: nat, vec: map<Descriptor, Vec>)
  {
    |history| == |pairs| + 1 &&
    forall s :: 0 <= s < |pairs| ==> Merges(history[s], history[s + 1], dim, vec, pairs[s].0, pairs[s].1)
  }

  /** A single state is a history of no merges. */
  lemma ChainStart(s: SlotState, dim: nat, vec: map<Descriptor, Vec>)
    ensures Chain([s], [], dim, vec)
  {
  }

  /** A history extended by one more merge is still a history, with the same start. */
  lemma ChainGrows(history: seq<SlotState>, pairs: seq<(nat, nat)>, next: SlotState, dim: nat,
                   vec: map<Descriptor, Vec>, m: nat, d: nat)
    requires Chain(history, pairs, dim, vec) && Merges(history[|pairs|], next, dim, vec, m, d)
    ensures Chain(history + [next], pairs + [(m, d)], dim, vec) && (history + [next])[0] == history[0]
  {
    var h, p := history + [next], pairs + [(m, d)];
    forall s | 0 <= s < |p| ensures Merges(h[s], h[s + 1], dim, vec, p[s].0, p[s].1) {
      if s < |pairs| {
        assert h[s] == history[s] && h[s + 1] == history[s + 1] && p[s] == pairs[s];
      }
    }
  }

  /** The slots before the first iteration: descriptor k alone in slot k with its vector as mean, none dropped. */
  ghost predicate Initial(s: SlotState, ds: seq<Descriptor>, vec: map<Descriptor, Vec>)
  {
    (forall x :: x in ds ==> x in vec) &&
    s == SlotState(seq(|ds|, k requires 0 <= k < |ds| => [ds[k]]), VecsOf(ds, vec), seq(|ds|, _ => false))
  }

  /** x is the first descriptor of the non-empty list ls whose recorded vector is closest to mean. */
  ghost predicate ClosestTo(mean: Vec, ls: seq<Descriptor>, x: Descriptor?, vec: map<Descriptor, Vec>)
  {
    (forall y :: y in ls ==> y in vec) && ls != [] &&
    (forall i :: 0 <= i < |ls| ==> |mean| <= |vec[ls[i]]|) &&
    x == ls[ClosestIndex(mean, VecsOf(ls, vec))]
  }

  /**
   * cs is the layer exported from s: one distinct centroid per live slot in slot
   * order, with the slot as id and the slot's list, whose mean is the descriptor
   * of that list closest to the slot's mean.
   */
  ghost predicate LayerFrom(cs: seq<Centroid>, s: SlotState, vec: map<Descriptor, Vec>)
    reads set k | 0 <= k < |cs| :: cs[k]
  {
    |cs| == |Alive(s.dropped)| && Distinct(cs) &&
    forall k :: 0 <= k < |cs| ==>
      Alive(s.dropped)[k] < |s.lists| && Alive(s.dropped)[k] < |s.means| &&
      cs[k].id == Alive(s.dropped)[k] && cs[k].descriptors == s.lists[Alive(s.dropped)[k]] &&
      ClosestTo(s.means[Alive(s.dropped)[k]], cs[k].descriptors, cs[k].mean, vec)
  }

  /** Every layer from index lo on is exported from the history state as many merges in as its distance from the end. */
  ghost predicate LayersFrom(ls: seq<seq<Centroid>>, lo: nat, history: seq<SlotState>, vec: map<Descriptor, Vec>)
    reads set t, k | 0 <= t < |ls| && 0 <= k < |ls[t]| :: ls[t][k]
  {
    forall t :: lo <= t < |ls| ==> |ls| - t < |history| && LayerFrom(ls[t], history[|ls| - t], vec)
  }

  /** No layer at all is trivially exported from the history. */
  lemma LayersFromNone(ls: seq<seq<Centroid>>, history: seq<SlotState>, vec: map<Descriptor, Vec>)
    ensures LayersFrom(ls, |ls|, history, vec)
  {
  }

  /** Storing the layer exported from one more history state at index lo - 1 extends LayersFrom down by one. */
  lemma LayersGrow(ls: seq<seq<Centroid>>, layer: seq<Centroid>, lo: nat, history: seq<SlotState>,
                   next: SlotState, vec: map<Descriptor, Vec>)
    requires 0 < lo <= |ls| && |history| == |ls| - lo + 1
    requires LayersFrom(ls, lo, history, vec) && LayerFrom(layer, next, vec)
    ensures LayersFrom(ls[lo - 1 := layer], lo - 1, history + [next], vec)
  {
    var ls', h := ls[lo - 1 := layer], history + [next];
    forall t | lo - 1 <= t < |ls'| ensures |ls'| - t < |h| && LayerFrom(ls'[t], h[|ls'| - t], vec) {
      if t >= lo {
        assert ls'[t] == ls[t] && h[|ls| - t] == history[|ls| - t];
        assert LayerFrom(ls[t], history[|ls| - t], vec);
      }
    }
  }

  // ---------------------------------------------------------------------------
  // The clustering

  class ClusteringAgglomerative {
    /** Descriptors, as the base constructor stores them. */
    const descriptors: seq<Descriptor>
    /** Centroids: one layer per iteration, the coarsest first; none before Clusterize. */
    var centroids: array?<seq<Centroid>>
    /** The slots; empty until Clusterize fills them. */
    var weighted: array<WeightedCentroid>
    /** centroidDistances: the weighted distance between the means of every two slots. */
    const distances: array2<real>
    const isDropped: array<bool>
    /** The descriptor list and the mean vector of every slot's centroid. */
    ghost var lists: seq<seq<Descriptor>>
    ghost var means: seq<Vec>
    /** The length of every descriptor vector. */
    ghost const dim: nat
    /** The vector of every descriptor, as recorded when the slots are seeded. */
    ghost var vectorOf: map<Descriptor, Vec>
    /** The slots' centroids, and the vectors of their means. */
    ghost var SlotCentroids: set<Centroid>
    ghost var SlotVectors: set<array<real>>

    /** The constructor: an n×n distance matrix and n flags, none of them dropped. */
    constructor (descriptors: seq<Descriptor>)
      ensures this.descriptors == descriptors && centroids == null
      ensures fresh(distances) && distances.Length0 == |descriptors| && distances.Length1 == |descriptors|
      ensures fresh(isDropped) && isDropped.Length == |descriptors|
      ensures forall i :: 0 <= i < |descriptors| ==> !isDropped[i]
      ensures dim == if |descriptors| > 0 then descriptors[0].values.Length else 0
    {
      this.descriptors := descriptors;
      centroids := null;
      weighted := new WeightedCentroid[0];
      distances := new real[|descriptors|, |descriptors|]((_, _) => 0.0);
      var flags := new bool[|descriptors|];
      for i := 0 to |descriptors|
        invariant forall j :: 0 <= j < i ==> !flags[j]
      {
        flags[i] := false;
      }
      isDropped := flags;
      lists := [];
      means := [];
      vectorOf := map[];
      SlotCentroids, SlotVectors := {}, {};
      dim := if |descriptors| > 0 then descriptors[0].values.Length else 0;
    }

    ghost predicate Sized()
      reads this`weighted, this`lists, this`means
    {
      distances.Length0 == |descriptors| && distances.Length1 == |descriptors| &&
      isDropped.Length == |descriptors| && weighted.Length == |descriptors| &&
      |lists| == |descriptors| && |means| == |descriptors|
    }

    /** Every slot's list is non-empty and of vectors of the common length, as is its mean. */
    ghost predicate Shaped()
      requires Sized()
      reads this`weighted, this`lists, this`means
    {
      forall k :: 0 <= k < |lists| ==>
        lists[k] != [] && |means[k]| == dim && forall x :: x in lists[k] ==> x.values.Length == dim
    }

    /** Every slot holds a weight-1 centroid whose id is the slot, with the slot's list and mean. */
    ghost predicate Slots()
      requires Sized()
      reads this`weighted, this`lists, this`means, this`SlotCentroids, this`SlotVectors, weighted, SlotCentroids, SlotVectors
    {
      forall k :: 0 <= k < weighted.Length ==>
        weighted[k].centroid in SlotCentroids && weighted[k].weight == 1 && weighted[k].centroid.id == k &&
        weighted[k].centroid.descriptors == lists[k] && weighted[k].centroid.mean != null &&
        weighted[k].centroid.mean.values in SlotVectors && weighted[k].centroid.mean.values[..] == means[k]
    }

    /** The matrix holds the weighted distance of every two live slots, except for slot m's row and column. */
    ghost predicate CurrentExcept(m: int)
      requires Sized() && Shaped()
      reads this`weighted, this`lists, this`means, distances, isDropped
    {
      forall i, j ::
        0 <= i < |descriptors| && 0 <= j < |descriptors| && i != m && j != m && !isDropped[i] && !isDropped[j] ==>
          distances[i, j] == Ward(means[i], 1, means[j], 1)
    }

    /** The live slots' lists together hold every descriptor exactly once. */
    ghost predicate Partitioned()
      requires Sized()
      reads this`weighted, this`lists, this`means, isDropped
    {
      Pool(lists, isDropped[..]) == multiset(descriptors)
    }

    ghost predicate Valid()
      reads this`weighted, this`lists, this`means, this`SlotCentroids, this`SlotVectors, weighted, distances, isDropped, SlotCentroids, SlotVectors
    {
      Sized() && Shaped() && Slots() && CurrentExcept(-1) && Partitioned()
    }

    /** vectorOf records every descriptor's vector, and every listed descriptor is one of them. */
    ghost predicate Recorded()
      reads this`lists, this`vectorOf, set i | 0 <= i < |descriptors| :: descriptors[i].values
    {
      Snapshot(descriptors, vectorOf) && forall k, x :: 0 <= k < |lists| && x in lists[k] ==> x in descriptors
    }

    /** The slots as the merge history records them. */
    ghost function State(): SlotState
      reads this`lists, this`means, isDropped
    {
      SlotState(lists, means, isDropped[..])
    }

    /**
     * Clusterize(maxIterations): min(n - 1, maxIterations) iterations, a negative
     * count failing to allocate the layer array. Iteration i merges the nearest
     * live pair and stores the layer it leaves at index (iterationCount - 1) - i,
     * so index 0 is the coarsest; every layer partitions the descriptors into
     * clusters listed in slot order, each with one of its own descriptors as mean.
     * The returned distance array is always empty.
     */
    method Clusterize(maxIterations: int) returns (r: Result<seq<real>>, ghost history: seq<SlotState>, ghost pairs: seq<(nat, nat)>)
      requires distances.Length0 == |descriptors| && distances.Length1 == |descriptors|
      requires isDropped.Length == |descriptors| && forall i :: 0 <= i < |descriptors| ==> !isDropped[i]
      requires forall i :: 0 <= i < |descriptors| ==> descriptors[i].values.Length == dim
      modifies this, distances, isDropped
      ensures var iterationCount := if |descriptors| - 1 < maxIterations then |descriptors| - 1 else maxIterations;
        (r.Err? <==> iterationCount < 0) && (r.Ok? ==> centroids != null && centroids.Length == iterationCount)
      ensures r.Err? ==> r.error == Overflow
      ensures r.Ok? ==> r.value == [] && centroids != null && fresh(centroids)
      ensures r.Ok? && centroids != null ==>
        forall t :: 0 <= t < centroids.Length ==> Layer(centroids[t], |descriptors| - centroids.Length + t)
      ensures r.Ok? && centroids != null ==>
        Chain(history, pairs, dim, vectorOf) && |pairs| == centroids.Length &&
        Snapshot(descriptors, vectorOf) && Initial(history[0], descriptors, vectorOf) &&
        LayersFrom(centroids[..], 0, history, vectorOf)
    {
      history, pairs := [], [];
      var n := |descriptors|;
      var iterationCount := if n - 1 < maxIterations then n - 1 else maxIterations;
      weighted := FromDescriptors(descriptors);
      if iterationCount < 0 {
        return Err(Overflow), history, pairs;
      }
      var layers := new seq<Centroid>[iterationCount](_ => []);
      centroids := layers;
      history, pairs := RunIterations(layers);
      return Ok([]), history, pairs;
    }

    /** Prepare, then the iterations, each storing its layer. */
    method RunIterations(layers: array<seq<Centroid>>) returns (ghost history: seq<SlotState>, ghost pairs: seq<(nat, nat)>)
      requires distances.Length0 == |descriptors| && distances.Length1 == |descriptors|
      requires isDropped.Length == |descriptors| && forall i :: 0 <= i < |descriptors| ==> !isDropped[i]
      requires forall i :: 0 <= i < |descriptors| ==> descriptors[i].values.Length == dim
      requires weighted.Length == |descriptors| && layers.Length < |descriptors|
      requires forall i :: 0 <= i < |descriptors| ==>
        weighted[i].weight == 1 && weighted[i].centroid.id == i &&
        weighted[i].centroid.mean == descriptors[i] && weighted[i].centroid.descriptors == [descriptors[i]]
      modifies this`lists, this`means, this`vectorOf, this`SlotCentroids, this`SlotVectors, weighted, distances, isDropped, layers
      ensures forall t :: 0 <= t < layers.Length ==> Layer(layers[t], |descriptors| - layers.Length + t)
      ensures Chain(history, pairs, dim, vectorOf) && |pairs| == layers.Length
      ensures Snapshot(descriptors, vectorOf) && Initial(history[0], descriptors, vectorOf)
      ensures LayersFrom(layers[..], 0, history, vectorOf)
    {
      hide *;
      Prepare();
      ghost var vec := vectorOf;
      history, pairs := [State()], [];
      ChainStart(State(), dim, vec);
      LayersFromNone(layers[..], history, vec);
      for i := 0 to layers.Length
        invariant Valid()
        invariant |Alive(isDropped[..])| == |descriptors| - i
        invariant forall t :: layers.Length - i <= t < layers.Length ==>
          Layer(layers[t], |descriptors| - layers.Length + t)
        invariant Recorded() && vectorOf == vec
        invariant |history| == i + 1 && |pairs| == i && history[i] == State() && Chain(history, pairs, dim, vec)
        invariant Initial(history[0], descriptors, vec)
        invariant LayersFrom(layers[..], layers.Length - i, history, vec)
      {
        ghost var before := layers[..];
        ghost var m, d := Iterate(layers, i, before, history);
        ChainGrows(history, pairs, State(), dim, vec, m, d);
        history, pairs := history + [State()], pairs + [(m, d)];
      }
      RecordedParts();
    }

    /**
     * The slots FromDescriptors built, one descriptor each, with every distance
     * precomputed: the state the iterations start from.
     */
    method Prepare()
      requires distances.Length0 == |descriptors| && distances.Length1 == |descriptors|
      requires isDropped.Length == |descriptors| && forall i :: 0 <= i < |descriptors| ==> !isDropped[i]
      requires forall i :: 0 <= i < |descriptors| ==> descriptors[i].values.Length == dim
      requires weighted.Length == |descriptors|
      requires forall i :: 0 <= i < |descriptors| ==>
        weighted[i].weight == 1 && weighted[i].centroid.id == i &&
        weighted[i].centroid.mean == descriptors[i] && weighted[i].centroid.descriptors == [descriptors[i]]
      modifies this`lists, this`means, this`vectorOf, this`SlotCentroids, this`SlotVectors, distances
      ensures Valid() && |Alive(isDropped[..])| == |descriptors|
      ensures Recorded() && Initial(State(), descriptors, vectorOf)
    {
      hide *;
      SeedSlots();
      PrecomputeAllDistances();
      AllCurrent();
      ValidOf();
      ValidOf();
    }

    /** Slot k holds descriptor k alone, with that descriptor's vector as its mean. */
    method SeedSlots()
      requires distances.Length0 == |descriptors| && distances.Length1 == |descriptors|
      requires isDropped.Length == |descriptors| && forall i :: 0 <= i < |descriptors| ==> !isDropped[i]
      requires forall i :: 0 <= i < |descriptors| ==> descriptors[i].values.Length == dim
      requires weighted.Length == |descriptors|
      requires forall i :: 0 <= i < |descriptors| ==>
        weighted[i].weight == 1 && weighted[i].centroid.id == i &&
        weighted[i].centroid.mean == descriptors[i] && weighted[i].centroid.descriptors == [descriptors[i]]
      modifies this`lists, this`means, this`vectorOf, this`SlotCentroids, this`SlotVectors
      ensures Sized() && Shaped() && Slots() && Partitioned() && |Alive(isDropped[..])| == |descriptors|
      ensures Recorded() && Initial(State(), descriptors, vectorOf)
    {
      hide *;
      DescriptorsAllocated();
      RecordVectors();
      SeedLists();
      SeededRecorded();
      SeedFootprint();
    }

    /** The ghost lists and means of the seeded slots. */
    method SeedLists()
      requires distances.Length0 == |descriptors| && distances.Length1 == |descriptors|
      requires isDropped.Length == |descriptors| && forall i :: 0 <= i < |descriptors| ==> !isDropped[i]
      requires forall i :: 0 <= i < |descriptors| ==> descriptors[i].values.Length == dim
      requires weighted.Length == |descriptors|
      modifies this`lists, this`means
      ensures Sized() && Shaped() && Partitioned() && |Alive(isDropped[..])| == |descriptors|
      ensures forall k :: 0 <= k < |descriptors| ==> lists[k] == [descriptors[k]] && means[k] == descriptors[k].values[..]
    {
      var n := |descriptors|;
      lists := seq(n, k requires 0 <= k < n => [descriptors[k]]);
      means := Vals(descriptors);
      PoolOfSingletons(descriptors, lists, isDropped[..]);
      AliveAll(isDropped[..]);
    }

    /** The seeded slots, with the snapshot taken, are the initial state of the history. */
    lemma SeededRecorded()
      requires Sized() && Snapshot(descriptors, vectorOf) && forall i :: 0 <= i < |descriptors| ==> !isDropped[i]
      requires forall k :: 0 <= k < |descriptors| ==> lists[k] == [descriptors[k]] && means[k] == descriptors[k].values[..]
      ensures Recorded() && Initial(State(), descriptors, vectorOf)
    {
      var n := |descriptors|;
      SnapshotVals(descriptors, vectorOf, descriptors);
      assert lists == seq(n, k requires 0 <= k < n => [descriptors[k]]);
      assert means == VecsOf(descriptors, vectorOf);
      assert isDropped[..] == seq(n, _ => false);
      forall k, x | 0 <= k < |lists| && x in lists[k] ensures x in descriptors {
        assert x == descriptors[k];
      }
    }

    /** vectorOf becomes the snapshot of every descriptor's vector. */
    method RecordVectors()
      modifies this`vectorOf
      ensures Snapshot(descriptors, vectorOf)
    {
      vectorOf := map x | x in descriptors :: x.values[..];
    }

    /** The footprint of the seeded slots: their centroids and the descriptors' vectors. */
    method SeedFootprint()
      requires Sized()
      requires forall i :: 0 <= i < |descriptors| ==>
        weighted[i].weight == 1 && weighted[i].centroid.id == i &&
        weighted[i].centroid.mean == descriptors[i] && weighted[i].centroid.descriptors == [descriptors[i]]
      requires forall k :: 0 <= k < |descriptors| ==> lists[k] == [descriptors[k]] && means[k] == descriptors[k].values[..]
      modifies this`SlotCentroids, this`SlotVectors
      ensures Slots()
    {
      var n := |descriptors|;
      SlotCentroids := set k | 0 <= k < n :: weighted[k].centroid;
      SlotVectors := set k | 0 <= k < n :: descriptors[k].values;
      assert forall k :: 0 <= k < n ==> weighted[k].centroid in SlotCentroids && descriptors[k].values in SlotVectors;
    }

    /** Iteration i of Clusterize: the layer MergeNearest leaves goes to index (layers.Length - 1) - i. */
    method Iterate(layers: array<seq<Centroid>>, i: nat, ghost before: seq<seq<Centroid>>, ghost history: seq<SlotState>)
        returns (ghost m: nat, ghost d: nat)
      requires Valid() && |Alive(isDropped[..])| == |descriptors| - i && i < layers.Length < |descriptors|
      requires forall t :: layers.Length - i <= t < layers.Length ==>
        Layer(layers[t], |descriptors| - layers.Length + t)
      requires Recorded() && before == layers[..] && |history| == i + 1 && history[i] == State()
      requires LayersFrom(before, layers.Length - i, history, vectorOf)
      modifies this`lists, this`means, this`SlotCentroids, this`SlotVectors, weighted, distances, isDropped, layers
      ensures Valid() && Recorded() && |Alive(isDropped[..])| == |descriptors| - i - 1
      ensures forall t :: layers.Length - i - 1 <= t < layers.Length ==>
        Layer(layers[t], |descriptors| - layers.Length + t)
      ensures forall t :: 0 <= t < layers.Length && t != (layers.Length - 1) - i ==> layers[t] == old(layers[t])
      ensures Merges(old(State()), State(), dim, vectorOf, m, d)
      ensures LayerFrom(layers[(layers.Length - 1) - i], State(), vectorOf)
      ensures LayersFrom(layers[..], layers.Length - i - 1, history + [State()], vectorOf)
    {
      hide *;
      var layer;
      layer, m, d := MergeNearest();
      LayersGrow(before, layer, layers.Length - i, history, State(), vectorOf);
      layers[(layers.Length - 1) - i] := layer;
      assert layers[..] == before[(layers.Length - 1) - i := layer];
    }

    /**
     * One iteration of Clusterize: the nearest live pair (m, d) is merged into
     * Item1, m, when its weight is at least Item2's (always, as every weight is 1),
     * the matrix refreshed, and the live centroids exported and given their
     * closest descriptors as means.
     */
    method MergeNearest() returns (layer: seq<Centroid>, ghost m: nat, ghost d: nat)
      requires Valid() && Recorded() && |Alive(isDropped[..])| >= 2
      modifies this`lists, this`means, this`SlotCentroids, this`SlotVectors, weighted, distances, isDropped
      ensures Valid() && Recorded()
      ensures |Alive(isDropped[..])| == |Alive(old(isDropped[..]))| - 1
      ensures Merges(old(State()), State(), dim, vectorOf, m, d)
      ensures Layer(layer, |Alive(isDropped[..])|) && LayerFrom(layer, State(), vectorOf)
      ensures forall k :: 0 <= k < |layer| ==> fresh(layer[k])
    {
      hide *;
      DescriptorsAllocated();
      m, d := JoinNearest();
      layer := ExportClosest();
    }

    /** The first half of an iteration: the nearest pair merged and the matrix refreshed. */
    method JoinNearest() returns (ghost m: nat, ghost d: nat)
      requires Valid() && Recorded() && |Alive(isDropped[..])| >= 2
      modifies this`lists, this`means, this`SlotCentroids, this`SlotVectors, weighted, distances, isDropped
      ensures Valid() && Recorded()
      ensures |Alive(isDropped[..])| == |Alive(old(isDropped[..]))| - 1
      ensures Merges(old(State()), State(), dim, vectorOf, m, d)
    {
      hide *;
      DescriptorsAllocated();
      var mergedId, droppedId := ChooseMerge();
      m, d := mergedId, droppedId;
      ghost var after := PlanMerge(m, d);
      ApplyMerge(mergedId, droppedId, after);
    }

    /** MergeClusters then ComputeNewDistances: the slots become the planned merge. */
    method ApplyMerge(m: int, d: int, ghost after: SlotState)
      requires Sized() && Shaped() && Slots() && CurrentExcept(-1) && Partitioned()
      requires 0 <= d < m < |descriptors| && !isDropped[m] && !isDropped[d]
      requires after == SlotState(lists[m := lists[m] + lists[d]],
        means[m := MeanOf(Vals(lists[m] + lists[d]), dim)], isDropped[..][d := true])
      requires Snapshot(descriptors, vectorOf) && Listed(after.lists, descriptors)
      modifies this`lists, this`means, this`SlotCentroids, this`SlotVectors, weighted, distances, isDropped
      ensures Valid() && Recorded() && State() == after
      ensures |Alive(isDropped[..])| == |Alive(old(isDropped[..]))| - 1
    {
      hide *;
      DescriptorsAllocated();
      MergeClusters(m, d);
      ComputeNewDistances(m, d);
      StateIs();
      RecordedBy();
    }

    /** Every descriptor's vector is an allocated array, which frames Snapshot across calls. */
    lemma DescriptorsAllocated()
      ensures forall i :: 0 <= i < |descriptors| ==> allocated(descriptors[i].values)
    {
    }

    /** What merging slots m and d will do to the slots, settled before anything changes. */
    lemma PlanMerge(m: nat, d: nat) returns (after: SlotState)
      requires Valid() && Recorded() && Fits(State(), dim) && NearestPair(State(), dim, m, d)
      ensures 0 <= d < m < |descriptors| && !isDropped[m] && !isDropped[d]
      ensures Sized() && Shaped() && Slots() && CurrentExcept(-1) && Partitioned()
      ensures after == SlotState(lists[m := lists[m] + lists[d]],
        means[m := MeanOf(Vals(lists[m] + lists[d]), dim)], isDropped[..][d := true])
      ensures Snapshot(descriptors, vectorOf) && Listed(after.lists, descriptors)
      ensures Merges(State(), after, dim, vectorOf, m, d)
    {
      MergedShape(m, d);
      SnapshotVals(descriptors, vectorOf, lists[m] + lists[d]);
      JoinKeepsMembers(lists, descriptors, m, d);
      after := SlotState(lists[m := lists[m] + lists[d]],
        means[m := MeanOf(Vals(lists[m] + lists[d]), dim)], isDropped[..][d := true]);
      MergesOf(State(), after, dim, vectorOf, m, d);
    }

    /** State() unfolded, for proofs that hide function bodies. */
    lemma StateIs()
      ensures State() == SlotState(lists, means, isDropped[..])
    {
    }

    /** Recorded()'s two halves, for proofs that hide function bodies. */
    lemma RecordedParts()
      requires Recorded()
      ensures Snapshot(descriptors, vectorOf) && Listed(lists, descriptors)
    {
    }

    /** Recorded() from its two halves, for proofs that hide function bodies. */
    lemma RecordedBy()
      requires Snapshot(descriptors, vectorOf) && Listed(lists, descriptors)
      ensures Recorded()
    {
    }

    /**
     * The pair FindMinimalDistanceIds finds, Item1 surviving when its weight is at
     * least Item2's, which it always is since every slot has weight 1.
     */
    method ChooseMerge() returns (mergedId: int, droppedId: int)
      requires Valid() && |Alive(isDropped[..])| >= 2
      ensures 0 <= droppedId < mergedId < |descriptors|
      ensures Fits(State(), dim) && NearestPair(State(), dim, mergedId, droppedId)
    {
      var found := FindMinimalDistanceIds();
      assert Fits(State(), dim);
      forall i, j | LivePair(State(), i, j)
        ensures Candidate(i, j) && distances[i, j] == SlotDistance(State(), dim, i, j)
      {
      }
      var idPair := found.value;
      if weighted[idPair.0].weight >= weighted[idPair.1].weight {
        mergedId, droppedId := idPair.0, idPair.1;
      } else {
        mergedId, droppedId := idPair.1, idPair.0;
      }
    }

    /** ExportLayer, then AssignClosestDescriptors on the clones it returns. */
    method ExportClosest() returns (layer: seq<Centroid>)
      requires Valid() && Recorded()
      ensures Layer(layer, |Alive(isDropped[..])|) && LayerFrom(layer, State(), vectorOf)
      ensures forall k :: 0 <= k < |layer| ==> fresh(layer[k])
    {
      hide *;
      ValidParts();
      DescriptorsAllocated();
      layer := ExportLayer();
      LiveLayer(layer);
      ExportedAssignable(layer);
      StateIs();
      AssignLayer(layer, State(), vectorOf);
      LayerOfLayerFrom(layer, State(), vectorOf);
    }

    /** The exported clones, with the current slots and snapshot, are what AssignLayer takes. */
    lemma ExportedAssignable(layer: seq<Centroid>)
      requires Sized() && Shaped() && Recorded() && Exported(layer)
      ensures forall k :: 0 <= k < |layer| ==>
        layer[k].descriptors != [] && Comparable(layer[k]) &&
        (forall x :: x in layer[k].descriptors ==> x in vectorOf) &&
        Vals(layer[k].descriptors) == VecsOf(layer[k].descriptors, vectorOf) &&
        Alive(isDropped[..])[k] < |lists| && Alive(isDropped[..])[k] < |means| &&
        layer[k].id == Alive(isDropped[..])[k] && layer[k].descriptors == lists[Alive(isDropped[..])[k]] &&
        layer[k].mean.values[..] == means[Alive(isDropped[..])[k]]
    {
      ExportedComparable(layer);
      forall k | 0 <= k < |layer|
        ensures (forall x :: x in layer[k].descriptors ==> x in vectorOf) &&
          Vals(layer[k].descriptors) == VecsOf(layer[k].descriptors, vectorOf)
      {
        SnapshotVals(descriptors, vectorOf, layer[k].descriptors);
      }
    }

    /** A covering layer exported from some slots is a layer: each mean is one of its own descriptors. */
    lemma LayerOfLayerFrom(cs: seq<Centroid>, s: SlotState, vec: map<Descriptor, Vec>)
      requires Covers(cs) && LayerFrom(cs, s, vec)
      ensures Layer(cs, |cs|)
    {
    }

    /**
     * AssignClosestDescriptors on clones of the live slots of s, each with the
     * slot's list and a copy of its mean, makes them the layer exported from s.
     */
    method AssignLayer(layer: seq<Centroid>, ghost s: SlotState, ghost vec: map<Descriptor, Vec>)
      requires Distinct(layer) && Covers(layer) && |layer| == |Alive(s.dropped)|
      requires forall k :: 0 <= k < |layer| ==>
        layer[k].descriptors != [] && Comparable(layer[k]) &&
        (forall x :: x in layer[k].descriptors ==> x in vec) &&
        Vals(layer[k].descriptors) == VecsOf(layer[k].descriptors, vec) &&
        Alive(s.dropped)[k] < |s.lists| && Alive(s.dropped)[k] < |s.means| &&
        layer[k].id == Alive(s.dropped)[k] && layer[k].descriptors == s.lists[Alive(s.dropped)[k]] &&
        layer[k].mean.values[..] == s.means[Alive(s.dropped)[k]]
      modifies layer`mean
      ensures LayerFrom(layer, s, vec)
    {
      forall k | 0 <= k < |layer|
        ensures ClosestTo(s.means[Alive(s.dropped)[k]], layer[k].descriptors, ClosestOf(layer[k]), vec)
      {
        ClosestOfRecorded(layer[k], vec);
      }
      AssignClosestDescriptors(layer);
    }

    /** With recorded vectors, ClosestOf picks the descriptor closest to the centroid's mean vector. */
    lemma ClosestOfRecorded(c: Centroid, vec: map<Descriptor, Vec>)
      requires c.descriptors != [] && Comparable(c)
      requires (forall x :: x in c.descriptors ==> x in vec) && Vals(c.descriptors) == VecsOf(c.descriptors, vec)
      ensures ClosestTo(c.mean.values[..], c.descriptors, ClosestOf(c), vec)
    {
    }

    /** A matrix holding every pair's distance is current. */
    lemma AllCurrent()
      requires Sized() && Shaped()
      requires forall i, j :: 0 <= i < |descriptors| && 0 <= j < |descriptors| ==>
        distances[i, j] == Ward(means[i], 1, means[j], 1)
      ensures CurrentExcept(-1)
    {
    }

    /** Valid's five parts, for proofs that hide function bodies. */
    lemma ValidParts()
      requires Valid()
      ensures Sized() && Shaped() && Slots() && CurrentExcept(-1) && Partitioned()
    {
    }

    /** ValidOf: the five parts make Valid. */
    lemma ValidOf()
      requires Sized() && Shaped() && Slots() && CurrentExcept(-1) && Partitioned()
      ensures Valid()
    {
    }

    /** The clones ExportLayer returns can each be compared with their own, non-empty, lists. */
    lemma ExportedComparable(layer: seq<Centroid>)
      requires Sized() && Shaped() && Exported(layer)
      ensures forall k :: 0 <= k < |layer| ==> layer[k].descriptors != [] && Comparable(layer[k])
    {
      forall k | 0 <= k < |layer| ensures layer[k].descriptors != [] && Comparable(layer[k]) {
        var a := Alive(isDropped[..])[k];
        assert forall i :: 0 <= i < |lists[a]| ==> lists[a][i] in lists[a];
      }
    }

    /** The live slots' lists, in slot order, hold every descriptor once; their ids increase. */
    lemma LiveLayer(layer: seq<Centroid>)
      requires Sized() && Partitioned() && Exported(layer)
      ensures Covers(layer)
    {
      LiveListsPool(lists, isDropped[..], Lists(layer));
    }

    /**
     * PrecomputeAllDistances: entries (i, j) and (j, i) for j <= i both become the
     * weighted distance between the means of slots i and j.
     */
    method PrecomputeAllDistances()
      requires Sized() && Shaped() && Slots()
      modifies distances
      ensures forall i, j :: 0 <= i < |descriptors| && 0 <= j < |descriptors| ==>
        distances[i, j] == Ward(means[i], 1, means[j], 1)
    {
      for i := 0 to |descriptors|
        invariant forall a, b :: 0 <= a < i && 0 <= b < i ==> distances[a, b] == Ward(means[a], 1, means[b], 1)
      {
        PrecomputeRow(i);
      }
    }

    /** One pass of PrecomputeAllDistances' outer loop: row i and column i up to the diagonal. */
    method PrecomputeRow(i: nat)
      requires Sized() && Shaped() && Slots() && i < |descriptors|
      modifies distances
      ensures forall b :: 0 <= b <= i ==>
        distances[i, b] == Ward(means[i], 1, means[b], 1) && distances[b, i] == Ward(means[b], 1, means[i], 1)
      ensures forall a, b :: 0 <= a < |descriptors| && 0 <= b < |descriptors| && a != i && b != i ==>
        distances[a, b] == old(distances[a, b])
    {
      for j := 0 to i + 1
        invariant forall b :: 0 <= b < j ==>
          distances[i, b] == Ward(means[i], 1, means[b], 1) && distances[b, i] == Ward(means[b], 1, means[i], 1)
        invariant forall a, b :: 0 <= a < |descriptors| && 0 <= b < |descriptors| && a != i && b != i ==>
          distances[a, b] == old(distances[a, b])
      {
        var distance := GetDistance(weighted[i], weighted[j]);
        WardSymmetric(means[i], 1, means[j], 1);
        distances[j, i] := distance.value;
        distances[i, j] := distance.value;
      }
    }

    /**
     * ComputeNewDistances: the row and column of the merged slot are recomputed for
     * every live slot, so the matrix is current again.
     */
    method ComputeNewDistances(mergedId: int, droppedId: int)
      requires Sized() && Shaped() && Slots() && Partitioned() && 0 <= mergedId < |descriptors|
      requires CurrentExcept(mergedId)
      modifies distances
      ensures Valid()
    {
      for i := 0 to |descriptors|
        invariant CurrentExcept(mergedId)
        invariant forall r :: 0 <= r < i && !isDropped[r] ==>
          distances[r, mergedId] == Ward(means[r], 1, means[mergedId], 1) &&
          distances[mergedId, r] == Ward(means[mergedId], 1, means[r], 1)
      {
        if !isDropped[i] {
          var distance := GetDistance(weighted[i], weighted[mergedId]);
          WardSymmetric(means[i], 1, means[mergedId], 1);
          distances[mergedId, i] := distance.value;
          distances[i, mergedId] := distance.value;
        }
      }
      ValidOf();
    }

    /**
     * MergeClusters: slot mergedId gets the merge of the two slots, whose list is its
     * own followed by the dropped slot's and whose mean is their mean; droppedId is
     * marked dropped. The live lists still hold every descriptor once, and one slot
     * fewer is live.
     */
    method MergeClusters(mergedId: int, droppedId: int)
      requires Sized() && Shaped() && Slots() && Partitioned()
      requires 0 <= mergedId < |descriptors| && 0 <= droppedId < |descriptors| && mergedId != droppedId
      requires !isDropped[mergedId] && !isDropped[droppedId] && CurrentExcept(-1)
      modifies this`lists, this`means, this`SlotCentroids, this`SlotVectors, weighted, isDropped
      ensures isDropped[..] == old(isDropped[..])[droppedId := true]
      ensures lists == old(lists)[mergedId := old(lists[mergedId] + lists[droppedId])]
      ensures means == old(means)[mergedId := old(MeanOf(Vals(lists[mergedId] + lists[droppedId]), dim))]
      ensures forall k :: 0 <= k < weighted.Length && k != mergedId ==> weighted[k] == old(weighted[k])
      ensures fresh(weighted[mergedId]) && fresh(weighted[mergedId].centroid)
      ensures Sized() && Shaped() && Slots() && Partitioned() && CurrentExcept(mergedId)
      ensures |Alive(isDropped[..])| == |Alive(old(isDropped[..]))| - 1
    {
      assert |lists| == |means| == isDropped.Length == weighted.Length == |descriptors|;
      ghost var oldLists, oldFlags := lists, isDropped[..];
      assert Pool(oldLists, oldFlags) == multiset(descriptors);
      hide *;
      ghost var ds := lists[mergedId] + lists[droppedId];
      MergedShape(mergedId, droppedId);
      ghost var mean := MeanOf(Vals(ds), dim);
      var merged := MergedSlot(mergedId, droppedId);
      MergeKeepsPool(lists, isDropped[..], mergedId, droppedId);
      AliveDrop(isDropped[..], droppedId);
      StoreMerge(mergedId, droppedId, merged, ds, mean);
      assert lists == oldLists[mergedId := oldLists[mergedId] + oldLists[droppedId]];
      PartitionedByPool();
    }

    /** The merged list of two slots is non-empty and of vectors of the common length. */
    lemma MergedShape(m: int, d: int)
      requires Sized() && Shaped() && 0 <= m < |descriptors| && 0 <= d < |descriptors|
      ensures var ds := lists[m] + lists[d];
        ds != [] && Uniform(Vals(ds)) && |Vals(ds)[0]| == dim && AllOfDimension(Vals(ds), dim) &&
        forall x :: x in ds ==> x.values.Length == dim
    {
      var ds := lists[m] + lists[d];
      assert forall x :: x in ds ==> x.values.Length == dim;
      forall i | 0 <= i < |ds| ensures ds[i].values.Length == dim {
        assert ds[i] in ds;
      }
    }

    /** WeightedCentroid.Merge on two slots, which cannot fail as their vectors have one length. */
    method MergedSlot(m: int, d: int) returns (w: WeightedCentroid)
      requires Sized() && Shaped() && Slots() && 0 <= m < |descriptors| && 0 <= d < |descriptors|
      ensures fresh(w) && fresh(w.centroid) && w.weight == 1 && w.centroid.id == m
      ensures w.centroid.descriptors == lists[m] + lists[d]
      ensures AllOfDimension(Vals(lists[m] + lists[d]), dim)
      ensures w.centroid.mean != null && w.centroid.mean.values[..] == MeanOf(Vals(lists[m] + lists[d]), dim)
    {
      MergedShape(m, d);
      var merged := Merge(weighted[m], weighted[d]);
      w := merged.value;
    }

    lemma PartitionedByPool()
      requires Sized() && Pool(lists, isDropped[..]) == multiset(descriptors)
      ensures Partitioned()
    {
    }

    /** Slot m takes a new weight-1 centroid with list ds and mean vector mean, and slot d is dropped. */
    method StoreMerge(m: int, d: int, w: WeightedCentroid, ghost ds: seq<Descriptor>, ghost mean: Vec)
      requires Sized() && Shaped() && Slots() && 0 <= m < |descriptors| && 0 <= d < |descriptors|
      requires w.weight == 1 && w.centroid.id == m && w.centroid.descriptors == ds
      requires w.centroid.mean != null && w.centroid.mean.values[..] == mean
      requires ds != [] && |mean| == dim && forall x :: x in ds ==> x.values.Length == dim
      requires CurrentExcept(-1)
      modifies this`lists, this`means, this`SlotCentroids, this`SlotVectors, weighted, isDropped
      ensures lists == old(lists)[m := ds] && means == old(means)[m := mean]
      ensures isDropped[..] == old(isDropped[..])[d := true]
      ensures weighted[m] == w && forall k :: 0 <= k < weighted.Length && k != m ==> weighted[k] == old(weighted[k])
      ensures Sized() && Shaped() && Slots() && CurrentExcept(m)
    {
      isDropped[d] := true;
      weighted[m] := w;
      lists := lists[m := ds];
      means := means[m := mean];
      SlotCentroids := SlotCentroids + {w.centroid};
      SlotVectors := SlotVectors + {w.centroid.mean.values};
    }

    /** Centroid.Clone on slot i's centroid. */
    method CloneSlot(i: nat) returns (c: Centroid)
      requires Sized() && Slots() && i < |descriptors|
      ensures fresh(c) && c.id == i && c.descriptors == lists[i]
      ensures c.mean != null && fresh(c.mean) && c.mean.values[..] == means[i]
    {
      c := weighted[i].centroid.Clone();
    }

    /**
     * ExportLayer: a clone of every live slot's centroid, in slot order; a clone
     * keeps the id and the list and copies the mean.
     */
    method ExportLayer() returns (layer: seq<Centroid>)
      requires Sized() && Shaped() && Slots()
      ensures |layer| == |Alive(isDropped[..])| && Distinct(layer) && Exported(layer)
      ensures forall k :: 0 <= k < |layer| ==> fresh(layer[k])
    {
      var notDropped: seq<Centroid> := [];
      ghost var alive: seq<nat> := [];
      for i := 0 to isDropped.Length
        invariant alive == Alive(isDropped[..i])
        invariant Clones(notDropped, alive)
        invariant forall k :: 0 <= k < |notDropped| ==> fresh(notDropped[k])
      {
        AliveUnfold(isDropped[..i + 1]);
        assert isDropped[..i + 1][..i] == isDropped[..i];
        notDropped, alive := ExportStep(i, notDropped, alive);
      }
      assert isDropped[..isDropped.Length] == isDropped[..];
      layer := notDropped;
      ClonesExported(layer);
    }

    /** `cs` holds, in order, one copy of each slot listed in `alive`. */
    ghost predicate Clones(cs: seq<Centroid>, alive: seq<nat>)
      requires Sized()
      reads this, set k | 0 <= k < |cs| :: cs[k]
      reads set k | 0 <= k < |cs| && cs[k].mean != null :: cs[k].mean.values
    {
      |cs| == |alive| && Distinct(cs) &&
      forall k :: 0 <= k < |cs| ==>
        alive[k] < |descriptors| && cs[k].id == alive[k] && cs[k].descriptors == lists[alive[k]] &&
        cs[k].mean != null && cs[k].mean.values[..] == means[alive[k]]
    }

    lemma ClonesExported(layer: seq<Centroid>)
      requires Sized() && Clones(layer, Alive(isDropped[..]))
      ensures |layer| == |Alive(isDropped[..])| && Distinct(layer) && Exported(layer)
    {
    }

    /** One step of the export loop: slot `i` is copied when it is live. */
    method ExportStep(i: nat, cs: seq<Centroid>, ghost alive: seq<nat>) returns (cs': seq<Centroid>, ghost alive': seq<nat>)
      requires Sized() && Slots() && i < isDropped.Length && Clones(cs, alive)
      ensures alive' == if isDropped[i] then alive else alive + [i]
      ensures Clones(cs', alive')
      ensures |cs| <= |cs'| && cs'[..|cs|] == cs
      ensures forall k :: |cs| <= k < |cs'| ==> fresh(cs'[k])
    {
      cs', alive' := cs, alive;
      if !isDropped[i] {
        var clone := CloneSlot(i);
        cs' := cs + [clone];
        alive' := alive + [i];
        assert cs'[..|cs|] == cs;
      }
    }

    /** A pair FindMinimalDistanceIds may return: two live slots, the second below the first. */
    ghost predicate Candidate(i: int, j: int)
      reads isDropped
    {
      0 <= j < i < isDropped.Length && !isDropped[i] && !isDropped[j]
    }

    /** A layer after `size` slots remain: clusters partitioning the descriptors, in slot order, each mean one of its own descriptors. */
    ghost predicate Layer(cs: seq<Centroid>, size: nat)
      reads set k | 0 <= k < |cs| :: cs[k]
    {
      |cs| == size && Distinct(cs) && Covers(cs) &&
      forall k :: 0 <= k < |cs| ==> cs[k].mean != null && cs[k].mean in cs[k].descriptors
    }

    /** The centroids' ids are slots in increasing order and their lists hold every descriptor once. */
    ghost predicate Covers(cs: seq<Centroid>)
      reads (set k | 0 <= k < |cs| :: cs[k])`id, (set k | 0 <= k < |cs| :: cs[k])`descriptors
    {
      (forall k :: 0 <= k < |cs| ==> 0 <= cs[k].id < |descriptors|) &&
      (forall k, k' :: 0 <= k < k' < |cs| ==> cs[k].id < cs[k'].id) &&
      multiset(Flatten(Lists(cs))) == multiset(descriptors)
    }

    /** What ExportLayer returns: a distinct clone of every live slot, in slot order. */
    ghost predicate Exported(layer: seq<Centroid>)
      requires Sized()
      reads this, isDropped, set k | 0 <= k < |layer| :: layer[k]
      reads set k | 0 <= k < |layer| && layer[k].mean != null :: layer[k].mean.values
    {
      |layer| == |Alive(isDropped[..])| && Distinct(layer) &&
      forall k :: 0 <= k < |layer| ==>
        layer[k].id == Alive(isDropped[..])[k] && layer[k].descriptors == lists[Alive(isDropped[..])[k]] &&
        layer[k].mean != null && layer[k].mean.values[..] == means[Alive(isDropped[..])[k]]
    }

    /**
     * Row i's scan in FindMinimalDistanceIds over the live slots below `upto`:
     * j is the first of them at the smallest distance v from slot i, or -1 (the
     * double.MaxValue start) when there is none.
     */
    ghost predicate RowBest(i: nat, upto: nat, j: int, v: real)
      requires i < distances.Length0 && upto <= distances.Length1 && upto <= isDropped.Length
      reads distances, isDropped
    {
      (j == -1 <==> forall c :: 0 <= c < upto ==> isDropped[c]) &&
      (j != -1 ==>
        0 <= j < upto && !isDropped[j] && v == distances[i, j] &&
        (forall c :: 0 <= c < upto && !isDropped[c] ==> v <= distances[i, c]) &&
        (forall c :: 0 <= c < j && !isDropped[c] ==> v < distances[i, c]))
    }

    /** The inner loop of the row scan for live row i. */
    method ScanRow(i: nat) returns (j: int, v: real)
      requires i < distances.Length0 && i <= distances.Length1 && i <= isDropped.Length
      ensures RowBest(i, i, j, v)
    {
      j, v := -1, 0.0;
      for c := 0 to i
        invariant RowBest(i, c, j, v)
      {
        if !isDropped[c] && (j == -1 || distances[i, c] < v) {
          v := distances[i, c];
          j := c;
        }
      }
    }

    /**
     * FindMinimalDistanceIds: the live pair (i, j), j < i, at the smallest distance,
     * the first such in order of i and then of j. With fewer than two live slots the
     * row index stays -1 and the final lookup is an index error.
     */
    method FindMinimalDistanceIds() returns (r: Result<(int, int)>)
      requires distances.Length0 == isDropped.Length && distances.Length1 == isDropped.Length
      ensures r.Err? <==> |Alive(isDropped[..])| < 2
      ensures r.Err? ==> r.error == IndexOutOfRange
      ensures r.Ok? ==> Candidate(r.value.0, r.value.1)
      ensures r.Ok? ==> forall i, j :: Candidate(i, j) ==> distances[r.value.0, r.value.1] <= distances[i, j]
      ensures r.Ok? ==>
        forall i, j :: Candidate(i, j) && (i < r.value.0 || (i == r.value.0 && j < r.value.1)) ==>
          distances[r.value.0, r.value.1] < distances[i, j]
    {
      hide *;
      var n := distances.Length0;
      var minimalDistances := new real[n](_ => 0.0);
      var minimalIndexesJ := new int[n](_ => -1);
      ScanRows(minimalIndexesJ, minimalDistances);
      var minimalIndexI := BestRow(minimalIndexesJ, minimalDistances);
      BestOfRows(minimalIndexesJ, minimalDistances, minimalIndexI);
      if minimalIndexI == -1 {
        return Err(IndexOutOfRange);
      }
      return Ok((minimalIndexI, minimalIndexesJ[minimalIndexI]));
    }

    /** The best of the rows' best entries is the smallest entry over all live pairs, the first in row order on ties. */
    lemma BestOfRows(minimalIndexesJ: array<int>, minimalDistances: array<real>, minimalIndexI: int)
      requires distances.Length0 == isDropped.Length && distances.Length1 == isDropped.Length
      requires minimalIndexesJ.Length == isDropped.Length && minimalDistances.Length == isDropped.Length
      requires forall r :: 0 <= r < isDropped.Length && !isDropped[r] ==>
        RowBest(r, r, minimalIndexesJ[r], minimalDistances[r])
      requires minimalIndexI == -1 <==>
        forall r :: 0 <= r < isDropped.Length ==> isDropped[r] || minimalIndexesJ[r] == -1
      requires minimalIndexI != -1 ==>
        0 <= minimalIndexI < isDropped.Length && !isDropped[minimalIndexI] && minimalIndexesJ[minimalIndexI] != -1
      requires minimalIndexI != -1 ==>
        forall r :: 0 <= r < isDropped.Length && !isDropped[r] && minimalIndexesJ[r] != -1 ==>
          minimalDistances[minimalIndexI] <= minimalDistances[r]
      requires minimalIndexI != -1 ==>
        forall r :: 0 <= r < minimalIndexI && !isDropped[r] && minimalIndexesJ[r] != -1 ==>
          minimalDistances[minimalIndexI] < minimalDistances[r]
      ensures minimalIndexI == -1 <==> |Alive(isDropped[..])| < 2
      ensures minimalIndexI != -1 ==>
        var j := minimalIndexesJ[minimalIndexI];
        Candidate(minimalIndexI, j) &&
        (forall i, j' :: Candidate(i, j') ==> distances[minimalIndexI, j] <= distances[i, j']) &&
        forall i, j' :: Candidate(i, j') && (i < minimalIndexI || (i == minimalIndexI && j' < j)) ==>
          distances[minimalIndexI, j] < distances[i, j']
    {
      TwoAlive(isDropped[..]);
      forall i, j | Candidate(i, j) ensures minimalIndexesJ[i] != -1 {
        assert RowBest(i, i, minimalIndexesJ[i], minimalDistances[i]);
      }
      if minimalIndexI != -1 {
        var pair := (minimalIndexI, minimalIndexesJ[minimalIndexI]);
        assert RowBest(minimalIndexI, minimalIndexI, pair.1, minimalDistances[minimalIndexI]);
        forall i, j | Candidate(i, j)
          ensures distances[pair.0, pair.1] <= distances[i, j]
          ensures i < pair.0 ==> distances[pair.0, pair.1] < distances[i, j]
        {
          assert RowBest(i, i, minimalIndexesJ[i], minimalDistances[i]);
        }
      }
    }

    /** The first loop of FindMinimalDistanceIds: every live row's smallest distance to a live slot below it. */
    method ScanRows(minimalIndexesJ: array<int>, minimalDistances: array<real>)
      requires distances.Length0 == isDropped.Length && distances.Length1 == isDropped.Length
      requires minimalIndexesJ.Length == isDropped.Length && minimalDistances.Length == isDropped.Length
      requires forall r :: 0 <= r < minimalIndexesJ.Length ==> minimalIndexesJ[r] == -1
      modifies minimalIndexesJ, minimalDistances
      ensures forall r :: 0 <= r < isDropped.Length && !isDropped[r] ==>
        RowBest(r, r, minimalIndexesJ[r], minimalDistances[r])
      ensures forall r :: 0 <= r < isDropped.Length && isDropped[r] ==> minimalIndexesJ[r] == -1
    {
      hide RowBest;
      for i := 0 to isDropped.Length
        invariant forall r :: 0 <= r < i && !isDropped[r] ==> RowBest(r, r, minimalIndexesJ[r], minimalDistances[r])
        invariant forall r :: 0 <= r < isDropped.Length && (i <= r || isDropped[r]) ==> minimalIndexesJ[r] == -1
      {
        if !isDropped[i] {
          var j, v := ScanRow(i);
          minimalDistances[i] := v;
          minimalIndexesJ[i] := j;
        }
      }
    }

    /**
     * The second loop of FindMinimalDistanceIds: the first live row whose smallest
     * distance is strictly below those of the rows before it, or -1 when no live
     * row has a live slot below it.
     */
    method BestRow(minimalIndexesJ: array<int>, minimalDistances: array<real>) returns (minimalIndexI: int)
      requires minimalIndexesJ.Length == isDropped.Length && minimalDistances.Length == isDropped.Length
      ensures minimalIndexI == -1 <==>
        forall r :: 0 <= r < isDropped.Length ==> isDropped[r] || minimalIndexesJ[r] == -1
      ensures minimalIndexI != -1 ==>
        0 <= minimalIndexI < isDropped.Length && !isDropped[minimalIndexI] && minimalIndexesJ[minimalIndexI] != -1
      ensures minimalIndexI != -1 ==>
        forall r :: 0 <= r < isDropped.Length && !isDropped[r] && minimalIndexesJ[r] != -1 ==>
          minimalDistances[minimalIndexI] <= minimalDistances[r]
      ensures minimalIndexI != -1 ==>
        forall r :: 0 <= r < minimalIndexI && !isDropped[r] && minimalIndexesJ[r] != -1 ==>
          minimalDistances[minimalIndexI] < minimalDistances[r]
    {
      minimalIndexI := -1;
      var minimalDistance := 0.0;
      for i := 0 to isDropped.Length
        invariant minimalIndexI == -1 <==> forall r :: 0 <= r < i ==> isDropped[r] || minimalIndexesJ[r] == -1
        invariant minimalIndexI != -1 ==>
          0 <= minimalIndexI < i && !isDropped[minimalIndexI] && minimalIndexesJ[minimalIndexI] != -1 &&
          minimalDistance == minimalDistances[minimalIndexI]
        invariant minimalIndexI != -1 ==>
          forall r :: 0 <= r < i && !isDropped[r] && minimalIndexesJ[r] != -1 ==> minimalDistance <= minimalDistances[r]
        invariant minimalIndexI != -1 ==>
          forall r :: 0 <= r < minimalIndexI && !isDropped[r] && minimalIndexesJ[r] != -1 ==> minimalDistance < minimalDistances[r]
      {
        if !isDropped[i] && minimalIndexesJ[i] != -1 && (minimalIndexI == -1 || minimalDistances[i] < minimalDistance) {
          minimalDistance := minimalDistances[i];
          minimalIndexI := i;
        }
      }
    }
  }
}
