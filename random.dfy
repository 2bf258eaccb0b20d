/**
 * System.Random as the programs use it, seeded and therefore reproducible. The
 * generator's subtractive algorithm is not modelled: a seeded generator is the
 * stream of internal samples it will produce, each in [0, MBIG), and every public
 * draw consumes exactly one of them.
 */
module DotNetRandom {
  import opened Wrappers

  /** Int32.MaxValue: internal samples lie in [0, MBIG) and Sample() is sample / MBIG. */
  const MBIG: int := 0x7FFF_FFFF

  ghost predicate IsSampleStream(stream: nat -> int)
  {
    forall i: nat :: 0 <= stream(i) < MBIG
  }

  /** The seeding of System.Random: every seed yields a stream of internal samples. */
  ghost predicate SeedsStreams(seeded: int -> (nat -> int))
  {
    forall seed :: IsSampleStream(seeded(seed))
  }

  /** Sample(): the internal sample as a fraction in [0, 1). */
  function Fraction(x: int): (f: real)
    requires 0 <= x < MBIG
    ensures 0.0 <= f < 1.0
  {
    x as real / MBIG as real
  }

  lemma DivBelow(a: nat, b: nat, m: nat)
    requires 0 < b && a < b * m
    ensures a / b < m
  {
    assert a == (a / b) * b + a % b;
  }

  /**
   * Next(maxValue) for a non-negative bound: (int)(Sample() * maxValue), computed
   * exactly. The result is always below the bound, so Next(n - 1) never yields n - 1.
   */
  function Scale(x: int, maxValue: nat): (r: nat)
    requires 0 <= x < MBIG
    ensures maxValue == 0 ==> r == 0
    ensures maxValue > 0 ==> r < maxValue
  {
    assert x * maxValue <= MBIG * maxValue;
    if maxValue > 0 then
      assert x * maxValue < MBIG * maxValue;
      DivBelow(x * maxValue, MBIG, maxValue);
      x * maxValue / MBIG
    else 0
  }

  class Rng {
    /** The internal samples this generator will produce, in order. */
    const stream: nat -> int
    /** How many samples have been consumed so far. */
    var drawn: nat

    ghost predicate Valid()
    {
      IsSampleStream(stream)
    }

    /** new Random(seed): `stream` is what that seed produces. */
    constructor (stream: nat -> int)
      requires IsSampleStream(stream)
      ensures this.stream == stream && drawn == 0 && Valid()
    {
      this.stream := stream;
      drawn := 0;
    }

    /** Next(): a non-negative Int32 below MBIG. */
    method Next() returns (x: int)
      requires Valid()
      modifies this`drawn
      ensures drawn == old(drawn) + 1
      ensures x == stream(old(drawn)) && 0 <= x < MBIG
    {
      x := stream(drawn);
      drawn := drawn + 1;
    }

    /** Next(maxValue): throws before drawing when the bound is negative. */
    method NextBelow(maxValue: int) returns (r: Result<int>)
      requires Valid()
      modifies this`drawn
      ensures maxValue < 0 ==> r == Err(ArgumentOutOfRange) && drawn == old(drawn)
      ensures maxValue >= 0 ==> drawn == old(drawn) + 1 && r == Ok(Scale(stream(old(drawn)), maxValue))
    {
      if maxValue < 0 {
        return Err(ArgumentOutOfRange);
      }
      r := Ok(Scale(stream(drawn), maxValue));
      drawn := drawn + 1;
    }

    /** NextDouble(): a fraction in [0, 1). */
    method NextDouble() returns (f: real)
      requires Valid()
      modifies this`drawn
      ensures drawn == old(drawn) + 1
      ensures f == Fraction(stream(old(drawn)))
    {
      f := Fraction(stream(drawn));
      drawn := drawn + 1;
    }
  }
}
