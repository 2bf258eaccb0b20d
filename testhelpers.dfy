/**
 * The helpers the clustering tests share (TestClustering/HelperTestClass.cs).
 * GenerateHierarchicalDescriptors draws descriptors in groups of five whose
 * components lie in [0, 1), [0, 4/5), [0, 3/5), [0, 2/5) and [0, 1/5), so that
 * every group is a small hierarchy. TestDescriptorAssignment checks that a layer
 * of centroids assigns every descriptor exactly once and repeats no centroid id.
 * The drawing helpers (VisualizeClustering, SaveClustering, ShowInPictureBox)
 * only paint bitmaps and are not modelled.
 */
module TestClustering {
  import opened Wrappers
  import opened Text
  import opened DotNetRandom
  import opened Structures
  import opened Clustering
  import opened KMeans

  // ---------------------------------------------------------------------------
  // GenerateHierarchicalDescriptors

  /** The scale of the descriptor at position i: 1, 4/5, 3/5, 2/5, 1/5 within each group of five. */
  function GroupScale(i: nat): (s: real)
    ensures 0.0 < s <= 1.0
  {
    (5 - i % 5) as real / 5.0
  }

  /** A fraction in [0, 1) times a positive scale lies in [0, scale). */
  lemma ScaledBelow(f: real, scale: real)
    requires 0.0 <= f < 1.0 && scale > 0.0
    ensures 0.0 <= f * scale < scale
  {
    assert scale - f * scale == (1.0 - f) * scale;
  }

  /** The vector GetRandomVector fills from sample pos on: NextDouble() * scale in each component. */
  function RandomVector(stream: nat -> int, pos: nat, dimension: nat, scale: real): (v: seq<real>)
    requires IsSampleStream(stream) && scale > 0.0
    ensures |v| == dimension
    ensures forall j :: 0 <= j < dimension ==> 0.0 <= v[j] < scale
  {
    var v := seq(dimension, j requires 0 <= j < dimension => Fraction(stream(pos + j)) * scale);
    forall j | 0 <= j < dimension ensures 0.0 <= v[j] < scale {
      ScaledBelow(Fraction(stream(pos + j)), scale);
    }
    v
  }

  /**
   * GetRandomVector: a new vector of the given dimension (a negative one fails to
   * allocate), each component a NextDouble() times the scale, in order.
   */
  method GetRandomVector(random: Rng, dimension: int, scale: real) returns (r: Result<array<real>>)
    requires random.Valid() && scale > 0.0
    modifies random`drawn
    ensures dimension < 0 <==> r.Err?
    ensures r.Err? ==> r.error == Overflow && random.drawn == old(random.drawn)
    ensures r.Ok? ==> fresh(r.value) && random.drawn == old(random.drawn) + dimension
    ensures r.Ok? ==> r.value[..] == RandomVector(random.stream, old(random.drawn), dimension, scale)
  {
    if dimension < 0 {
      return Err(Overflow);
    }
    var vector := new real[dimension];
    for i := 0 to vector.Length
      invariant random.drawn == old(random.drawn) + i
      invariant forall j :: 0 <= j < i ==> vector[j] == Fraction(random.stream(old(random.drawn) + j)) * scale
    {
      var f := random.NextDouble();
      vector[i] := f * scale;
    }
    ghost var expected := RandomVector(random.stream, old(random.drawn), dimension, scale);
    assert forall j :: 0 <= j < dimension ==> vector[..][j] == expected[j];
    assert vector[..] == expected;
    return Ok(vector);
  }

  /**
   * One statement of the generating loop, descriptors[id] = new Descriptor(id,
   * GetRandomVector(random, dimension, scale)) on an array of length n: the vector
   * is drawn first, then the store fails when id is past the end.
   */
  method NewRandomDescriptor(random: Rng, id: nat, n: int, dimension: int) returns (r: Result<Descriptor>)
    requires random.Valid()
    modifies random`drawn
    ensures dimension < 0 ==> r == Err(Overflow)
    ensures dimension >= 0 && id >= n ==> r == Err(IndexOutOfRange)
    ensures dimension >= 0 && id < n ==>
      r.Ok? && fresh(r.value) && r.value.id == id && random.drawn == old(random.drawn) + dimension &&
      r.value.values[..] == RandomVector(random.stream, old(random.drawn), dimension, GroupScale(id))
  {
    var vector := GetRandomVector(random, dimension, GroupScale(id));
    if vector.Err? {
      return Err(vector.error);
    }
    if id >= n {
      return Err(IndexOutOfRange);
    }
    var d := new Descriptor(id, vector.value);
    return Ok(d);
  }

  /** What a successful GenerateHierarchicalDescriptors holds at position i. */
  ghost predicate Generated(ds: seq<Descriptor>, stream: nat -> int, dimension: nat)
    requires IsSampleStream(stream)
    reads set i | 0 <= i < |ds| :: ds[i].values
  {
    forall i :: 0 <= i < |ds| ==>
      ds[i].id == i && ds[i].values[..] == RandomVector(stream, i * dimension, dimension, GroupScale(i))
  }

  /**
   * GenerateHierarchicalDescriptors(seed, nDescriptorsMultiplier, dimension), with
   * `stream` the samples of new Random(seed): 5 * nDescriptorsMultiplier
   * descriptors (an unchecked Int32 product), drawn five at a time with the scales
   * 1, 4/5, 3/5, 2/5 and 1/5. A negative count fails to allocate, and so does a
   * negative dimension once a vector is drawn; a wrapped count that is not a
   * multiple of five ends with a store past the end of the array.
   */
  method GenerateHierarchicalDescriptors(stream: nat -> int, nDescriptorsMultiplier: int, dimension: int)
    returns (r: Result<seq<Descriptor>>)
    requires IsSampleStream(stream)
    ensures var n := Wrap32(nDescriptorsMultiplier * 5);
      (r.Ok? <==> n == 0 || (n > 0 && dimension >= 0 && n % 5 == 0)) &&
      (n < 0 || (n > 0 && dimension < 0) ==> r == Err(Overflow)) &&
      (n > 0 && dimension >= 0 && n % 5 != 0 ==> r == Err(IndexOutOfRange))
    ensures r.Ok? ==> |r.value| == Wrap32(nDescriptorsMultiplier * 5)
    ensures r.Ok? ==> forall i :: 0 <= i < |r.value| ==> fresh(r.value[i])
    ensures r.Ok? && dimension >= 0 ==> Generated(r.value, stream, dimension)
  {
    var n := Wrap32(nDescriptorsMultiplier * 5);
    if n < 0 {
      return Err(Overflow);
    }
    var descriptors: seq<Descriptor> := [];
    var random := new Rng(stream);
    var i := 0;
    ghost var groups := 0;
    while i < n
      invariant 0 <= i <= n && i == 5 * groups && |descriptors| == i
      invariant random.stream == stream && random.Valid()
      invariant i > 0 ==> dimension >= 0
      invariant dimension >= 0 ==> random.drawn == |descriptors| * dimension
      invariant forall k :: 0 <= k < i ==> fresh(descriptors[k])
      invariant dimension >= 0 ==> Generated(descriptors, stream, dimension)
      decreases n - i
    {
      hide Generated;
      var group := AddGroup(random, descriptors, n, dimension);
      if group.Err? {
        assert dimension >= 0 ==> n % 5 != 0 by {
          if dimension >= 0 {
            assert 5 * groups < n < 5 * groups + 5;
          }
        }
        return Err(group.error);
      }
      descriptors := group.value;
      i, groups := i + 5, groups + 1;
    }
    return Ok(descriptors);
  }

  /**
   * One pass of the generating loop: the five statements that store the
   * descriptors |ds|, ..., |ds| + 4 with the scales 1, 4/5, 3/5, 2/5 and 1/5.
   */
  method AddGroup(random: Rng, ds: seq<Descriptor>, n: int, dimension: int) returns (r: Result<seq<Descriptor>>)
    requires random.Valid() && |ds| < n
    requires dimension >= 0 ==> random.drawn == |ds| * dimension && Generated(ds, random.stream, dimension)
    modifies random`drawn
    ensures dimension < 0 ==> r == Err(Overflow)
    ensures dimension >= 0 && |ds| + 5 > n ==> r == Err(IndexOutOfRange)
    ensures dimension >= 0 && |ds| + 5 <= n ==>
      r.Ok? && |r.value| == |ds| + 5 && r.value[..|ds|] == ds &&
      (forall k :: |ds| <= k < |r.value| ==> fresh(r.value[k])) &&
      random.drawn == |r.value| * dimension && Generated(r.value, random.stream, dimension)
  {
    var descriptors := ds;
    for k := 0 to 5
      invariant |descriptors| == |ds| + k && descriptors[..|ds|] == ds
      invariant k > 0 ==> dimension >= 0 && |ds| + k <= n
      invariant forall j :: |ds| <= j < |descriptors| ==> fresh(descriptors[j])
      invariant dimension >= 0 ==> random.drawn == |descriptors| * dimension
      invariant dimension >= 0 ==> Generated(descriptors, random.stream, dimension)
    {
      hide Generated;
      var d := NewRandomDescriptor(random, |ds| + k, n, dimension);
      if d.Err? {
        return Err(d.error);
      }
      GeneratedSnoc(descriptors, d.value, random.stream, dimension);
      NextMultiple(|descriptors|, dimension);
      descriptors := descriptors + [d.value];
    }
    return Ok(descriptors);
  }

  /** Storing the next descriptor drawn keeps the generated prefix. */
  lemma GeneratedSnoc(ds: seq<Descriptor>, d: Descriptor, stream: nat -> int, dimension: nat)
    requires IsSampleStream(stream) && Generated(ds, stream, dimension)
    requires d.id == |ds| && d.values[..] == RandomVector(stream, |ds| * dimension, dimension, GroupScale(|ds|))
    ensures Generated(ds + [d], stream, dimension)
  {
  }

  /** The draws of one more vector end at the next multiple of its dimension. */
  lemma NextMultiple(m: nat, dimension: nat)
    ensures (m + 1) * dimension == m * dimension + dimension
  {
  }

  /** The descriptors of one group of five lie in cubes that shrink from [0, 1) to [0, 1/5). */
  lemma GroupsShrink(ds: seq<Descriptor>, stream: nat -> int, dimension: nat, i: nat, j: nat)
    requires IsSampleStream(stream) && Generated(ds, stream, dimension) && i < |ds| && j < dimension
    ensures 0.0 <= ds[i].values[j] < (5 - i % 5) as real / 5.0
  {
    assert ds[i].values[..][j] == ds[i].values[j];
  }

  // ---------------------------------------------------------------------------
  // TestDescriptorAssignment

  /** Every value lies in [0, n). */
  predicate InRange(ids: seq<int>, n: int)
  {
    forall j :: 0 <= j < |ids| ==> 0 <= ids[j] < n
  }

  /** The ids assign each of 0, ..., n - 1 exactly once and nothing else. */
  predicate AssignsEachOnce(ids: seq<int>, n: int)
  {
    InRange(ids, n) && DistinctInts(ids) && forall v :: 0 <= v < n ==> v in ids
  }

  /** The centroids' ids, in order. */
  function CentroidIds(cs: seq<Centroid>): (ids: seq<int>)
    reads (set k | 0 <= k < |cs| :: cs[k])`id
    ensures |ids| == |cs| && forall k :: 0 <= k < |cs| ==> ids[k] == cs[k].id
  {
    if |cs| == 0 then [] else CentroidIds(cs[..|cs| - 1]) + [cs[|cs| - 1].id]
  }

  /**
   * TestDescriptorAssignment(nDescriptors, centroids): a flag per descriptor
   * (a negative count is out of range), set by every listed descriptor in order;
   * an id outside the flags is an index error, a flag set twice fails the
   * assertion, then so does a flag never set, then a repeated centroid id.
   */
  method TestDescriptorAssignment(nDescriptors: int, cs: seq<Centroid>) returns (r: Outcome)
    ensures r.Pass? <==>
      nDescriptors >= 0 && AssignsEachOnce(IdsOf(Flatten(Lists(cs))), nDescriptors) && DistinctInts(CentroidIds(cs))
    ensures nDescriptors < 0 ==> r == Fail(ArgumentOutOfRange)
    ensures nDescriptors >= 0 && r.Fail? ==> r.error == IndexOutOfRange || r.error == AssertFailed
    ensures nDescriptors >= 0 && InRange(IdsOf(Flatten(Lists(cs))), nDescriptors) && r.Fail? ==> r.error == AssertFailed
  {
    if nDescriptors < 0 {
      return Fail(ArgumentOutOfRange);
    }
    ghost var idLists := IdLists(cs);
    r := CheckAssignment(nDescriptors, cs, idLists, CentroidIds(cs));
  }

  /** The three passes of TestDescriptorAssignment over a non-negative count. */
  method CheckAssignment(n: nat, cs: seq<Centroid>, ghost idLists: seq<seq<int>>, centroidIds: seq<int>)
    returns (r: Outcome)
    requires |idLists| == |cs| && forall k :: 0 <= k < |cs| ==> idLists[k] == IdsOf(cs[k].descriptors)
    ensures r.Pass? <==> AssignsEachOnce(Flatten(idLists), n) && DistinctInts(centroidIds)
    ensures r.Fail? ==> r.error == IndexOutOfRange || r.error == AssertFailed
    ensures InRange(Flatten(idLists), n) && r.Fail? ==> r.error == AssertFailed
  {
    var isAssigned := new bool[n](_ => false);
    r := MarkLists(isAssigned, cs, idLists);
    if r.Fail? {
      return;
    }
    r := CheckAllMarked(isAssigned, Flatten(idLists));
    if r.Fail? {
      return;
    }
    var ok, _ := ScanIds(centroidIds, {}, []);
    assert [] + centroidIds == centroidIds;
    r := if ok then Pass else Fail(AssertFailed);
  }

  /** The outer loop of the first pass: the lists in order, each through MarkIds. */
  method MarkLists(isAssigned: array<bool>, cs: seq<Centroid>, ghost idLists: seq<seq<int>>) returns (r: Outcome)
    requires |idLists| == |cs| && forall k :: 0 <= k < |cs| ==> idLists[k] == IdsOf(cs[k].descriptors)
    requires forall v :: 0 <= v < isAssigned.Length ==> !isAssigned[v]
    modifies isAssigned
    ensures r.Pass? <==> InRange(Flatten(idLists), isAssigned.Length) && DistinctInts(Flatten(idLists))
    ensures r.Fail? ==> r.error == IndexOutOfRange || r.error == AssertFailed
    ensures r == Fail(IndexOutOfRange) ==> !InRange(Flatten(idLists), isAssigned.Length)
    ensures r.Pass? ==> forall v :: 0 <= v < isAssigned.Length ==> (isAssigned[v] <==> v in Flatten(idLists))
  {
    assert idLists[..0] == [] && idLists[..|cs|] == idLists;
    assert Flatten(idLists[..0]) == [];
    hide *;
    ghost var seen: seq<int> := [];
    for k := 0 to |cs|
      invariant seen == Flatten(idLists[..k]) && InRange(seen, isAssigned.Length) && DistinctInts(seen)
      invariant forall v :: 0 <= v < isAssigned.Length ==> (isAssigned[v] <==> v in seen)
    {
      FlattenUpTo(idLists, k);
      r := MarkIds(isAssigned, IdsOf(cs[k].descriptors), seen);
      seen := seen + idLists[k];
      if r.Fail? {
        FlattenSplit(idLists, k + 1);
        if r.error == IndexOutOfRange {
          OutOfRangeStays(seen, Flatten(idLists[k + 1..]), isAssigned.Length);
        } else {
          BadPrefixStays(seen, Flatten(idLists[k + 1..]), isAssigned.Length);
        }
        return;
      }
    }
    return Pass;
  }

  /**
   * The inner loop of the first pass: for each id, the flag read (an index error
   * outside the flags), asserted clear, then set.
   */
  method MarkIds(isAssigned: array<bool>, ids: seq<int>, ghost seen: seq<int>) returns (r: Outcome)
    requires InRange(seen, isAssigned.Length) && DistinctInts(seen)
    requires forall v :: 0 <= v < isAssigned.Length ==> (isAssigned[v] <==> v in seen)
    modifies isAssigned
    ensures r.Pass? <==> InRange(seen + ids, isAssigned.Length) && DistinctInts(seen + ids)
    ensures r.Fail? ==> r.error == IndexOutOfRange || r.error == AssertFailed
    ensures r == Fail(IndexOutOfRange) ==> !InRange(seen + ids, isAssigned.Length)
    ensures r.Pass? ==> forall v :: 0 <= v < isAssigned.Length ==> (isAssigned[v] <==> v in seen + ids)
  {
    for i := 0 to |ids|
      invariant InRange(seen + ids[..i], isAssigned.Length) && DistinctInts(seen + ids[..i])
      invariant forall v :: 0 <= v < isAssigned.Length ==> (isAssigned[v] <==> v in seen + ids[..i])
    {
      ghost var before := seen + ids[..i];
      assert seen + ids[..i + 1] == before + [ids[i]];
      assert seen + ids == seen + ids[..i + 1] + ids[i + 1..];
      if !(0 <= ids[i] < isAssigned.Length) {
        assert (seen + ids[..i + 1])[|seen| + i] == ids[i];
        OutOfRangeStays(seen + ids[..i + 1], ids[i + 1..], isAssigned.Length);
        return Fail(IndexOutOfRange);
      }
      if isAssigned[ids[i]] {
        ghost var j :| 0 <= j < |before| && before[j] == ids[i];
        assert (before + [ids[i]])[j] == (before + [ids[i]])[|before|];
        BadPrefixStays(seen + ids[..i + 1], ids[i + 1..], isAssigned.Length);
        return Fail(AssertFailed);
      }
      isAssigned[ids[i]] := true;
    }
    assert ids[..|ids|] == ids;
    return Pass;
  }

  /** The second pass: every flag must be set. */
  method CheckAllMarked(isAssigned: array<bool>, ghost ids: seq<int>) returns (r: Outcome)
    requires forall v :: 0 <= v < isAssigned.Length ==> (isAssigned[v] <==> v in ids)
    ensures r.Pass? <==> forall v :: 0 <= v < isAssigned.Length ==> v in ids
    ensures r.Fail? ==> r.error == AssertFailed
  {
    for v := 0 to isAssigned.Length
      invariant forall u :: 0 <= u < v ==> u in ids
    {
      if !isAssigned[v] {
        return Fail(AssertFailed);
      }
    }
    return Pass;
  }

  /** A value out of range stays out of range whatever follows it. */
  lemma OutOfRangeStays(xs: seq<int>, ys: seq<int>, n: int)
    requires !InRange(xs, n)
    ensures !InRange(xs + ys, n)
  {
    var j :| 0 <= j < |xs| && !(0 <= xs[j] < n);
    assert (xs + ys)[j] == xs[j];
  }

  /** A prefix that is out of range or repeats a value spoils every extension. */
  lemma BadPrefixStays(xs: seq<int>, ys: seq<int>, n: int)
    requires !(InRange(xs, n) && DistinctInts(xs))
    ensures !(InRange(xs + ys, n) && DistinctInts(xs + ys))
  {
    if !InRange(xs, n) {
      OutOfRangeStays(xs, ys, n);
    } else {
      RepeatedStays(xs, ys);
    }
  }

  /**
   * The ids assign each of 0, ..., n - 1 exactly once exactly when they are n
   * distinct values of [0, n): the flag pass and the coverage pass of
   * TestDescriptorAssignment together amount to a count.
   */
  lemma AssignsEachOnceIff(ids: seq<int>, n: nat)
    ensures AssignsEachOnce(ids, n) <==> InRange(ids, n) && DistinctInts(ids) && |ids| == n
  {
    var values := set x | x in ids;
    var range := RangeSet(n);
    if InRange(ids, n) && DistinctInts(ids) {
      DistinctSize(ids);
      assert values <= range;
      if |ids| == n {
        assert |range - values| == 0;
        forall v | 0 <= v < n ensures v in ids {
          assert v in range;
        }
      }
      if forall v :: 0 <= v < n ==> v in ids {
        assert values == range;
      }
    }
  }

  /**
   * Clusters whose lists rearrange descriptors numbered 0, ..., n - 1 in order,
   * under distinct centroid ids, pass TestDescriptorAssignment: the layers the
   * clustering algorithms export over GenerateHierarchicalDescriptors' output.
   */
  lemma RearrangedLayerPasses(cs: seq<Centroid>, ds: seq<Descriptor>)
    requires multiset(Flatten(Lists(cs))) == multiset(ds)
    requires forall i :: 0 <= i < |ds| ==> ds[i].id == i
    requires DistinctInts(CentroidIds(cs))
    ensures AssignsEachOnce(IdsOf(Flatten(Lists(cs))), |ds|) && DistinctInts(CentroidIds(cs))
  {
    var xs := Flatten(Lists(cs));
    IdsOfMultiset(xs, ds);
    var numbered := IdsOf(ds);
    assert DistinctInts(numbered);
    DistinctPermutation(numbered, IdsOf(xs));
    forall j | 0 <= j < |xs| ensures 0 <= IdsOf(xs)[j] < |ds| {
      assert IdsOf(xs)[j] in multiset(numbered);
    }
    forall v | 0 <= v < |ds| ensures v in IdsOf(xs) {
      assert numbered[v] == v;
      assert v in multiset(IdsOf(xs));
    }
  }

  /** Rearranging descriptors rearranges their ids. */
  lemma {:induction false} IdsOfMultiset(xs: seq<Descriptor>, ys: seq<Descriptor>)
    requires multiset(xs) == multiset(ys)
    ensures multiset(IdsOf(xs)) == multiset(IdsOf(ys))
    decreases |xs|
  {
    hide IdsOf, WithoutAt;
    if |xs| > 0 {
      var n := |xs| - 1;
      var x := xs[n];
      assert xs == xs[..n] + [x];
      assert multiset(xs[..n]) == multiset(xs) - multiset{x};
      assert x in multiset(ys);
      var p :| 0 <= p < |ys| && ys[p] == x;
      var rest := WithoutAt(ys, p);
      IdsOfMultiset(xs[..n], rest);
      IdsOfConcat(xs[..n], [x]);
      assert IdsOf(xs) == IdsOf(xs[..n]) + [x.id];
      assert multiset(IdsOf(xs)) == multiset(IdsOf(xs[..n])) + multiset{x.id};
      IdsOfWithoutAt(ys, p);
    } else {
      assert ys == [];
    }
  }

  /** The list without its entry at p. */
  function WithoutAt<T>(ys: seq<T>, p: nat): (rest: seq<T>)
    requires p < |ys|
    ensures multiset(rest) == multiset(ys) - multiset{ys[p]}
  {
    assert ys == ys[..p] + [ys[p]] + ys[p + 1..];
    ys[..p] + ys[p + 1..]
  }

  lemma IdsOfConcat(a: seq<Descriptor>, b: seq<Descriptor>)
    ensures IdsOf(a + b) == IdsOf(a) + IdsOf(b)
  {
  }

  lemma IdsOfWithoutAt(ys: seq<Descriptor>, p: nat)
    requires p < |ys|
    ensures multiset(IdsOf(ys)) == multiset(IdsOf(WithoutAt(ys, p))) + multiset{ys[p].id}
  {
    assert ys == ys[..p] + [ys[p]] + ys[p + 1..];
    IdsOfConcat(ys[..p] + [ys[p]], ys[p + 1..]);
    IdsOfConcat(ys[..p], [ys[p]]);
    IdsOfConcat(ys[..p], ys[p + 1..]);
  }

  /** GenerateHierarchicalDescriptors numbers its descriptors 0, ..., n - 1, each once. */
  lemma GeneratedIdsAssignEachOnce(ds: seq<Descriptor>, stream: nat -> int, dimension: nat)
    requires IsSampleStream(stream) && Generated(ds, stream, dimension)
    ensures AssignsEachOnce(IdsOf(ds), |ds|)
  {
    forall v | 0 <= v < |ds| ensures v in IdsOf(ds) {
      assert IdsOf(ds)[v] == v;
    }
  }

  /** A list without repeats has as many values as entries. */
  lemma {:induction false} DistinctSize(ids: seq<int>)
    requires DistinctInts(ids)
    ensures |set x | x in ids| == |ids|
    decreases |ids|
  {
    if |ids| > 0 {
      var front := ids[..|ids| - 1];
      DistinctSize(front);
      assert (set x | x in ids) == (set x | x in front) + {ids[|ids| - 1]};
      assert ids[|ids| - 1] !in front;
    }
  }

  /** The values 0, ..., n - 1. */
  function RangeSet(n: nat): (s: set<int>)
    ensures |s| == n && forall v :: v in s <==> 0 <= v < n
  {
    if n == 0 then {} else RangeSet(n - 1) + {n - 1}
  }
}
