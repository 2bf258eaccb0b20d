/**
 * Sampling without replacement by walking a linked list: draw Next(Count - 1),
 * take the element at that position, remove it from the list. Both
 * ClusteringBase.GenerateRandomSeeds and the RandomSubsequenceGenerator tool
 * sample this way; this module gives the picks as a function of the sample
 * stream and proves what they are.
 */
module Sampling {
  import opened DotNetRandom

  predicate NoDuplicates<T(==)>(s: seq<T>)
  {
    forall i, j :: 0 <= i < j < |s| ==> s[i] != s[j]
  }

  /** The list after LinkedList.Remove of the node at position i. */
  function RemoveAt<T>(s: seq<T>, i: nat): (r: seq<T>)
    requires i < |s|
    ensures |r| == |s| - 1
    ensures forall j :: 0 <= j < i ==> r[j] == s[j]
    ensures forall j :: i <= j < |r| ==> r[j] == s[j + 1]
  {
    s[..i] + s[i + 1..]
  }

  /** The position the walk stops at: Next(Count - 1) on the next sample. */
  function PickIndex(stream: nat -> int, pos: nat, count: nat): (i: nat)
    requires IsSampleStream(stream) && count >= 1
    ensures i < count
    ensures count >= 2 ==> i < count - 1
  {
    Scale(stream(pos), count - 1)
  }

  /**
   * The first k picks from `remaining`, drawing from sample `pos` on; fewer when the
   * list runs out first (the sampler then throws on Next(-1)).
   */
  function Picks<T>(remaining: seq<T>, k: nat, stream: nat -> int, pos: nat): seq<T>
    requires IsSampleStream(stream)
    decreases k
  {
    if k == 0 || |remaining| == 0 then []
    else
      var i := PickIndex(stream, pos, |remaining|);
      [remaining[i]] + Picks(RemoveAt(remaining, i), k - 1, stream, pos + 1)
  }

  function Min(a: int, b: int): int { if a <= b then a else b }

  /** The sampler takes min(k, |remaining|) elements, all from the list, and never one twice. */
  lemma {:induction false} PicksAreASample<T>(remaining: seq<T>, k: nat, stream: nat -> int, pos: nat)
    requires IsSampleStream(stream)
    ensures |Picks(remaining, k, stream, pos)| == Min(k, |remaining|)
    ensures forall x :: x in Picks(remaining, k, stream, pos) ==> x in remaining
    ensures NoDuplicates(remaining) ==> NoDuplicates(Picks(remaining, k, stream, pos))
    decreases k
  {
    if k > 0 && |remaining| > 0 {
      var i := PickIndex(stream, pos, |remaining|);
      var rest := RemoveAt(remaining, i);
      PicksAreASample(rest, k - 1, stream, pos + 1);
      var tail := Picks(rest, k - 1, stream, pos + 1);
      assert Picks(remaining, k, stream, pos) == [remaining[i]] + tail;
      forall x | x in rest ensures x in remaining {
        var j :| 0 <= j < |rest| && rest[j] == x;
        assert x == remaining[if j < i then j else j + 1];
      }
      if NoDuplicates(remaining) {
        assert NoDuplicates(rest) by {
          forall a, b | 0 <= a < b < |rest| ensures rest[a] != rest[b] {
            assert rest[a] == remaining[if a < i then a else a + 1];
            assert rest[b] == remaining[if b < i then b else b + 1];
          }
        }
        assert remaining[i] !in rest by {
          forall j | 0 <= j < |rest| ensures rest[j] != remaining[i] {
            assert rest[j] == remaining[if j < i then j else j + 1];
          }
        }
      }
    }
  }

  /**
   * Because Next(Count - 1) never returns Count - 1, the element that ends the list
   * is never picked unless every element is.
   */
  lemma {:induction false} LastPickedOnlyWhenAllAre<T>(remaining: seq<T>, k: nat, stream: nat -> int, pos: nat)
    requires IsSampleStream(stream)
    requires NoDuplicates(remaining) && k < |remaining|
    ensures remaining[|remaining| - 1] !in Picks(remaining, k, stream, pos)
    decreases k
  {
    if k > 0 {
      var n := |remaining|;
      var i := PickIndex(stream, pos, n);
      var rest := RemoveAt(remaining, i);
      assert rest[|rest| - 1] == remaining[n - 1];
      assert NoDuplicates(rest) by {
        forall a, b | 0 <= a < b < |rest| ensures rest[a] != rest[b] {
          assert rest[a] == remaining[if a < i then a else a + 1];
          assert rest[b] == remaining[if b < i then b else b + 1];
        }
      }
      LastPickedOnlyWhenAllAre(rest, k - 1, stream, pos + 1);
      assert remaining[i] != remaining[n - 1];
    }
  }
}
