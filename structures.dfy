/**
 * The DescriptorClustering data (Structures/Descriptor.cs, Structures/Centroid.cs).
 * A Descriptor is an id and a vector, plus the centroid it was last assigned to; a
 * Centroid is an id, a mean descriptor (or none) and the list of descriptors
 * assigned to it. Both are classes: the clustering algorithms update them in place.
 */
module Structures {
  import opened Wrappers
  import opened Vectors

  class Descriptor {
    /** Id has a private setter written only by the constructors. */
    const id: int
    /** Values likewise: the reference never changes, Multiply changes its entries. */
    const values: array<real>
    /** The centroid Assign put this descriptor in, none before. */
    var centroid: Centroid?

    /** Descriptor(id, values): both stored as given. */
    constructor (id: int, values: array<real>)
      ensures this.id == id && this.values == values && centroid == null
    {
      this.id := id;
      this.values := values;
      centroid := null;
    }

    /** Descriptor(values): the id is -1. */
    constructor FromValues(values: array<real>)
      ensures id == -1 && this.values == values && centroid == null
    {
      id := -1;
      this.values := values;
      centroid := null;
    }

    /** Dimension: the length of the vector. */
    function Dimension(): (d: nat)
    {
      values.Length
    }

    /** Multiply(value): every component scaled in place. */
    method Multiply(value: real)
      modifies values
      ensures values[..] == Times(old(values[..]), value)
    {
      for i := 0 to values.Length
        invariant forall j :: 0 <= j < i ==> values[j] == old(values[j]) * value
        invariant forall j :: i <= j < values.Length ==> values[j] == old(values[j])
      {
        values[i] := values[i] * value;
      }
      assert forall j :: 0 <= j < values.Length ==> values[..][j] == Times(old(values[..]), value)[j];
    }

    /** Clone(): the same id, the values copied into a new array. */
    method Clone() returns (c: Descriptor)
      ensures fresh(c) && fresh(c.values) && c.id == id && c.values[..] == values[..] && c.centroid == null
    {
      var copy := new real[values.Length](i requires 0 <= i < values.Length reads values => values[i]);
      c := new Descriptor(id, copy);
    }
  }

  /** Descriptor(id, dimension): a zero vector; a negative dimension overflows the allocation. */
  method Zeroed(id: int, dimension: int) returns (r: Result<Descriptor>)
    ensures dimension < 0 <==> r.Err?
    ensures r.Err? ==> r.error == Overflow
    ensures r.Ok? ==> fresh(r.value) && fresh(r.value.values)
    ensures r.Ok? ==> r.value.id == id && r.value.values[..] == Zero(dimension)
  {
    if dimension < 0 {
      return Err(Overflow);
    }
    var values := new real[dimension](_ => 0.0);
    var d := new Descriptor(id, values);
    return Ok(d);
  }

  /** operator +: a new descriptor with id -1 holding the component-wise sum; the operands are left alone. */
  method Add(a: Descriptor, b: Descriptor) returns (r: Result<Descriptor>)
    ensures r.Err? <==> a.values.Length != b.values.Length
    ensures r.Err? ==> r.error == Argument
    ensures r.Ok? ==> fresh(r.value) && fresh(r.value.values)
    ensures r.Ok? ==> r.value.id == -1 && r.value.values[..] == Plus(a.values[..], b.values[..])
  {
    if a.values.Length != b.values.Length {
      return Err(Argument);
    }
    var sum := new real[a.values.Length](_ => 0.0);
    for i := 0 to a.values.Length
      invariant forall j :: 0 <= j < i ==> sum[j] == a.values[j] + b.values[j]
    {
      sum[i] := a.values[i] + b.values[i];
    }
    var d := new Descriptor.FromValues(sum);
    return Ok(d);
  }

  /**
   * Descriptor.GetDistanceSQR(a, b): the squared differences summed over the
   * indices of `a`; a shorter `b` is an index error, further entries of `b` are
   * not read.
   */
  method GetDistanceSqr(a: array<real>, b: array<real>) returns (r: Result<real>)
    ensures r.Err? <==> b.Length < a.Length
    ensures r.Err? ==> r.error == IndexOutOfRange
    ensures r.Ok? ==> r.value == DistanceSqr(a[..], b[..]) && r.value >= 0.0
  {
    if b.Length < a.Length {
      return Err(IndexOutOfRange);
    }
    var accumulator := 0.0;
    for i := 0 to a.Length
      invariant accumulator == DistanceSqr(a[..i], b[..])
    {
      var value := b[i] - a[i];
      accumulator := accumulator + value * value;
      assert a[..i + 1][..i] == a[..i];
    }
    assert a[..a.Length] == a[..];
    DistanceNonNegative(a[..], b[..]);
    return Ok(accumulator);
  }

  /** The vectors of a list of descriptors, in list order. */
  function Vals(ds: seq<Descriptor>): (vs: seq<Vec>)
    reads set i | 0 <= i < |ds| :: ds[i].values
    ensures |vs| == |ds| && forall i :: 0 <= i < |ds| ==> vs[i] == ds[i].values[..]
  {
    seq(|ds|, i reads if 0 <= i < |ds| then {ds[i].values} else {} => if 0 <= i < |ds| then ds[i].values[..] else [])
  }

  /** The ids of a list of descriptors, in list order. */
  function IdsOf(ds: seq<Descriptor>): (ids: seq<int>)
    ensures |ids| == |ds| && forall i :: 0 <= i < |ds| ==> ids[i] == ds[i].id
  {
    seq(|ds|, i requires 0 <= i < |ds| => ds[i].id)
  }

  /** All vectors have the length of the first. */
  predicate Uniform(vs: seq<Vec>)
  {
    forall i :: 0 <= i < |vs| ==> |vs[i]| == |vs[0]|
  }

  /**
   * The summing loop of ComputeMean: a zero vector of the first descriptor's
   * length plus every descriptor in list order, a new descriptor with id -1; a
   * length mismatch throws ArgumentException.
   */
  method Total(ds: seq<Descriptor>) returns (r: Result<Descriptor>)
    requires ds != []
    ensures r.Ok? <==> Uniform(Vals(ds))
    ensures r.Err? ==> r.error == Argument
    ensures r.Ok? ==> fresh(r.value) && fresh(r.value.values) && r.value.id == -1
    ensures r.Ok? ==> AllOfDimension(Vals(ds), ds[0].values.Length)
    ensures r.Ok? ==> r.value.values[..] == SumOf(Vals(ds), ds[0].values.Length)
  {
    ghost var vs := Vals(ds);
    var dim := ds[0].values.Length;
    var zero := new real[dim](_ => 0.0);
    var sum := new Descriptor.FromValues(zero);
    assert vs[..0] == [];
    for i := 0 to |ds|
      invariant fresh(sum) && fresh(sum.values) && sum.id == -1 && sum.values.Length == dim
      invariant forall k :: 0 <= k < i ==> |vs[k]| == dim
      invariant AllOfDimension(vs[..i], dim) && sum.values[..] == SumOf(vs[..i], dim)
    {
      var next := Add(sum, ds[i]);
      if next.Err? {
        assert |vs[i]| != |vs[0]|;
        return Err(next.error);
      }
      assert vs[..i + 1][..i] == vs[..i];
      sum := next.value;
    }
    assert vs[..|ds|] == vs;
    return Ok(sum);
  }

  class Centroid {
    /** Id: written by the constructors and by the divisive renumbering. */
    var id: int
    var mean: Descriptor?
    var descriptors: seq<Descriptor>

    /** Centroid(): id -1, no mean, no descriptors. */
    constructor ()
      ensures id == -1 && mean == null && descriptors == []
    {
      id := -1;
      mean := null;
      descriptors := [];
    }

    /** Centroid(id, seed): the seed is the mean, the list is empty. */
    constructor Seeded(id: int, seed: Descriptor)
      ensures this.id == id && mean == seed && descriptors == []
    {
      this.id := id;
      mean := seed;
      descriptors := [];
    }

    /**
     * Centroid(id), which the agglomerative merge calls but Centroid.cs does not
     * declare: the id, no mean, no descriptors.
     */
    constructor WithId(id: int)
      ensures this.id == id && mean == null && descriptors == []
    {
      this.id := id;
      mean := null;
      descriptors := [];
    }

    /** AddDescriptorConcurrent: one descriptor appended at the end of the list. */
    method AddDescriptorConcurrent(d: Descriptor)
      modifies this`descriptors
      ensures descriptors == old(descriptors) + [d]
    {
      descriptors := descriptors + [d];
    }

    /** ClearDescriptors: the list emptied. */
    method ClearDescriptors()
      modifies this`descriptors
      ensures descriptors == []
    {
      descriptors := [];
    }

    /** AssignClosestDescriptor: the mean becomes exactly the given descriptor (or none). */
    method AssignClosestDescriptor(d: Descriptor?)
      modifies this`mean
      ensures mean == d
    {
      mean := d;
    }

    /**
     * ComputeMean: no descriptors gives no mean. Otherwise a zero vector of the
     * first descriptor's length, plus every descriptor in list order (a length
     * mismatch throws ArgumentException), times 1 / Count, becomes the mean, a new
     * descriptor with id -1. The mean is returned.
     */
    method ComputeMean() returns (r: Result<Descriptor?>)
      modifies this`mean
      ensures descriptors == [] ==> r == Ok(null) && mean == null
      ensures descriptors != [] ==> (r.Ok? <==> Uniform(Vals(descriptors)))
      ensures r.Err? ==> r.error == Argument && mean == old(mean)
      ensures r.Ok? ==> r.value == mean
      ensures r.Ok? && descriptors != [] ==>
        mean != null && fresh(mean) && fresh(mean.values) && mean.id == -1 &&
        mean.values[..] == MeanOf(Vals(descriptors), |Vals(descriptors)[0]|)
    {
      var n := |descriptors|;
      if n == 0 {
        mean := null;
        return Ok(null);
      }
      var total := Total(descriptors);
      if total.Err? {
        return Err(total.error);
      }
      var sum := total.value;
      sum.Multiply(1.0 / n as real);
      mean := sum;
      return Ok(sum);
    }

    /**
     * Clone, which the agglomerative export calls but Centroid.cs does not declare:
     * a new centroid with the same id, a Descriptor.Clone() of the mean and a copy
     * of the list.
     */
    method Clone() returns (c: Centroid)
      requires mean != null
      ensures fresh(c) && c.id == id && c.descriptors == descriptors
      ensures c.mean != null && fresh(c.mean) && fresh(c.mean.values) &&
        c.mean.id == mean.id && c.mean.values[..] == mean.values[..]
    {
      var m := mean.Clone();
      c := new Centroid.Seeded(id, m);
      c.descriptors := descriptors;
    }
  }
}
