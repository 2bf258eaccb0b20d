/**
 * Descriptor vectors and the arithmetic both programs do on them. The C# code
 * works in single-precision floats; the model computes exactly over the reals.
 */
module Vectors {

  type Vec = seq<real>

  function Sq(x: real): (r: real)
    ensures r >= 0.0
  {
    x * x
  }

  /**
   * The squared Euclidean distance accumulated over the indices of `a`, in index
   * order, as GetDistanceSQR does; `b` must be at least as long (a shorter `b` is an
   * index error in the source) and any further entries of `b` are not read.
   */
  function DistanceSqr(a: Vec, b: Vec): real
    requires |a| <= |b|
    decreases |a|
  {
    if |a| == 0 then 0.0
    else DistanceSqr(a[..|a| - 1], b) + Sq(b[|a| - 1] - a[|a| - 1])
  }

  /** The vector of `dim` zeros that a Descriptor(id, dimension) holds. */
  function Zero(dim: nat): (z: Vec)
    ensures |z| == dim && forall i :: 0 <= i < dim ==> z[i] == 0.0
  {
    seq(dim, _ => 0.0)
  }

  /** Component-wise sum of two vectors of one length. */
  function Plus(a: Vec, b: Vec): (c: Vec)
    requires |a| == |b|
    ensures |c| == |a| && forall i :: 0 <= i < |a| ==> c[i] == a[i] + b[i]
  {
    seq(|a|, i requires 0 <= i < |a| => a[i] + b[i])
  }

  /** Every component multiplied by f. */
  function Times(a: Vec, f: real): (c: Vec)
    ensures |c| == |a| && forall i :: 0 <= i < |a| ==> c[i] == a[i] * f
  {
    seq(|a|, i requires 0 <= i < |a| => a[i] * f)
  }

  predicate AllOfDimension(vs: seq<Vec>, dim: nat)
  {
    forall i :: 0 <= i < |vs| ==> |vs[i]| == dim
  }

  /** The running sum Centroid.ComputeMean builds: the zero vector plus each vector in turn. */
  function SumOf(vs: seq<Vec>, dim: nat): (s: Vec)
    requires AllOfDimension(vs, dim)
    ensures |s| == dim
    decreases |vs|
  {
    if |vs| == 0 then Zero(dim) else Plus(SumOf(vs[..|vs| - 1], dim), vs[|vs| - 1])
  }

  /** The arithmetic mean of a non-empty list of vectors of one dimension. */
  function MeanOf(vs: seq<Vec>, dim: nat): (m: Vec)
    requires |vs| > 0 && AllOfDimension(vs, dim)
    ensures |m| == dim
  {
    Times(SumOf(vs, dim), 1.0 / |vs| as real)
  }

  // ---------------------------------------------------------------------------
  // Properties

  lemma {:induction false} DistanceNonNegative(a: Vec, b: Vec)
    requires |a| <= |b|
    ensures DistanceSqr(a, b) >= 0.0
    decreases |a|
  {
    if |a| > 0 {
      DistanceNonNegative(a[..|a| - 1], b);
    }
  }

  /** Only the first |a| entries of `b` take part. */
  lemma {:induction false} DistanceIgnoresTail(a: Vec, b: Vec)
    requires |a| <= |b|
    ensures DistanceSqr(a, b) == DistanceSqr(a, b[..|a|])
    decreases |a|
  {
    if |a| > 0 {
      var n := |a| - 1;
      DistanceIgnoresTail(a[..n], b);
      DistanceIgnoresTail(a[..n], b[..|a|]);
      assert b[..|a|][..n] == b[..n];
    }
  }

  lemma {:induction false} DistanceSymmetric(a: Vec, b: Vec)
    requires |a| == |b|
    ensures DistanceSqr(a, b) == DistanceSqr(b, a)
    decreases |a|
  {
    if |a| > 0 {
      var n := |a| - 1;
      DistanceIgnoresTail(a[..n], b);
      DistanceIgnoresTail(b[..n], a);
      DistanceSymmetric(a[..n], b[..n]);
      assert Sq(b[n] - a[n]) == Sq(a[n] - b[n]);
    }
  }

  /** A vector is at distance zero from itself, and from any extension of itself. */
  lemma {:induction false} DistanceToSelfIsZero(a: Vec, b: Vec)
    requires |a| <= |b| && a == b[..|a|]
    ensures DistanceSqr(a, b) == 0.0
    decreases |a|
  {
    if |a| > 0 {
      var n := |a| - 1;
      assert a[..n] == b[..n];
      assert b[n] - a[n] == 0.0;
      DistanceToSelfIsZero(a[..n], b);
    }
  }

  /** The mean of k copies of one vector is that vector. */
  lemma {:induction false} SumOfCopies(v: Vec, k: nat)
    ensures AllOfDimension(seq(k, _ => v), |v|)
    ensures SumOf(seq(k, _ => v), |v|) == Times(v, k as real)
    decreases k
  {
    var vs := seq(k, _ => v);
    if k > 0 {
      SumOfCopies(v, k - 1);
      assert vs[..k - 1] == seq(k - 1, _ => v);
      var s := SumOf(vs, |v|);
      forall i | 0 <= i < |v| ensures s[i] == v[i] * k as real {
        assert s[i] == v[i] * (k - 1) as real + v[i];
      }
    }
  }

  lemma MeanOfCopies(v: Vec, k: nat)
    requires k > 0
    ensures AllOfDimension(seq(k, _ => v), |v|)
    ensures MeanOf(seq(k, _ => v), |v|) == v
  {
    SumOfCopies(v, k);
    var m := MeanOf(seq(k, _ => v), |v|);
    forall i | 0 <= i < |v| ensures m[i] == v[i] {
      calc {
        m[i];
        (v[i] * k as real) * (1.0 / k as real);
        v[i] * (k as real * (1.0 / k as real));
        v[i];
      }
    }
  }
}
