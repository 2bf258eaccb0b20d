/**
 * The predicate a search consults for each ranked item (the Func<int, bool>
 * argument of MLES.SearchKNN). A browsing session passes its HasItemDroppedOut,
 * which drops an item already shown h times with probability 1 - 1/(h * DropFactor);
 * the session's own item choice passes `item => false`. The predicate is given as
 * data so that a search can be specified as a function of the sample stream.
 */
module Dropout {
  import opened DotNetRandom

  datatype DropFilter =
    | NoDropout                                                 // item => false
    | ByExposure(counter: map<int, int>, dropFactor: real)      // a session's DisplayedCounter and DropFactor

  /**
   * Whether an item with `hitCount` exposures drops out for a drawn fraction. A zero
   * exposure product divides by zero, giving 1 - infinity, which no fraction is below.
   */
  predicate Drops(hitCount: int, dropFactor: real, fraction: real)
  {
    var exposure := hitCount as real * dropFactor;
    exposure != 0.0 && fraction < 1.0 - 1.0 / exposure
  }

  /** Whether a decision about `id` draws a sample: only ids shown before do. */
  predicate Draws(filter: DropFilter, id: int)
  {
    filter.ByExposure? && id in filter.counter
  }

  /**
   * The decision about `id` when the next unread sample is at `pos`, with the
   * position after the decision.
   */
  function DropDecision(filter: DropFilter, stream: nat -> int, pos: nat, id: int): (r: (bool, nat))
    requires IsSampleStream(stream)
    ensures r.1 == if Draws(filter, id) then pos + 1 else pos
    ensures r.0 ==> Draws(filter, id)
  {
    if Draws(filter, id) then
      (Drops(filter.counter[id], filter.dropFactor, Fraction(stream(pos))), pos + 1)
    else (false, pos)
  }

  /** The predicate applied to `id`, drawing from `random` exactly when the decision needs a sample. */
  method HasDroppedOut(filter: DropFilter, random: Rng, id: int) returns (dropped: bool)
    requires random.Valid()
    modifies random`drawn
    ensures (dropped, random.drawn) == DropDecision(filter, random.stream, old(random.drawn), id)
  {
    if filter.NoDropout? || id !in filter.counter {
      return false;
    }
    var hitCount := filter.counter[id];
    var fraction := random.NextDouble();
    dropped := Drops(hitCount, filter.dropFactor, fraction);
  }

  /** An item shown once with DropFactor 1 never drops out. */
  lemma UnitExposureNeverDrops(fraction: real)
    requires 0.0 <= fraction
    ensures !Drops(1, 1.0, fraction)
  {
  }

  /** More generally, no item drops while its exposure product is at most 1. */
  lemma LowExposureNeverDrops(hitCount: int, dropFactor: real, fraction: real)
    requires 0.0 <= fraction && 0.0 < hitCount as real * dropFactor <= 1.0
    ensures !Drops(hitCount, dropFactor, fraction)
  {
    var exposure := hitCount as real * dropFactor;
    var inverse := 1.0 / exposure;
    assert inverse * exposure == 1.0;
  }

  /** A negative DropFactor makes every item shown before drop out. */
  lemma NegativeExposureAlwaysDrops(hitCount: int, dropFactor: real, fraction: real)
    requires fraction < 1.0 && hitCount as real * dropFactor < 0.0
    ensures Drops(hitCount, dropFactor, fraction)
  {
    var exposure := hitCount as real * dropFactor;
    var inverse := 1.0 / exposure;
    assert inverse * exposure == 1.0;
  }

  /** An id never shown is kept, and no sample is consumed for it. */
  lemma FirstShowNeverDrops(filter: DropFilter, stream: nat -> int, pos: nat, id: int)
    requires IsSampleStream(stream)
    requires filter.ByExposure? ==> id !in filter.counter
    ensures DropDecision(filter, stream, pos, id) == (false, pos)
  {
  }
}
