/**
 * The two halves of MLES.SearchKNN as functions: ranking the candidates by
 * squared distance to the query (Array.Sort(distances, sortedLayer)), and the
 * filtering walk over that ranking (MLES.cs:226-245).
 */
module Ranking {
  import opened Vectors
  import opened Items
  import opened Dropout
  import opened DotNetRandom
  import opened Sampling

  /** Every candidate has at least the query's dimension, so every distance is defined. */
  predicate Comparable(q: Vec, items: seq<Item>)
  {
    forall i :: 0 <= i < |items| ==> |q| <= |items[i].descriptor|
  }

  function Key(q: Vec, x: Item): real
    requires |q| <= |x.descriptor|
  {
    DistanceSqr(q, x.descriptor)
  }

  predicate SortedBy(q: Vec, s: seq<Item>)
    requires Comparable(q, s)
  {
    forall i, j :: 0 <= i < j < |s| ==> Key(q, s[i]) <= Key(q, s[j])
  }

  /** Insertion after every item not farther than x. */
  function Insert(q: Vec, x: Item, s: seq<Item>): (r: seq<Item>)
    requires Comparable(q, s) && |q| <= |x.descriptor|
    ensures Comparable(q, r)
    ensures multiset(r) == multiset(s) + multiset{x}
  {
    if |s| == 0 then [x]
    else if Key(q, x) < Key(q, s[0]) then [x] + s
    else
      assert s == [s[0]] + s[1..];
      [s[0]] + Insert(q, x, s[1..])
  }

  /**
   * The candidates ordered by distance to q. Array.Sort leaves the order of equal
   * distances unspecified; this ranking keeps them in candidate order.
   */
  function Rank(q: Vec, items: seq<Item>): (r: seq<Item>)
    requires Comparable(q, items)
    ensures Comparable(q, r)
    ensures multiset(r) == multiset(items)
  {
    if |items| == 0 then []
    else
      assert items == items[..|items| - 1] + [items[|items| - 1]];
      Insert(q, items[|items| - 1], Rank(q, items[..|items| - 1]))
  }

  lemma {:induction false} InsertSorted(q: Vec, x: Item, s: seq<Item>)
    requires Comparable(q, s) && |q| <= |x.descriptor| && SortedBy(q, s)
    ensures SortedBy(q, Insert(q, x, s))
    decreases |s|
  {
    if |s| > 0 && Key(q, x) >= Key(q, s[0]) {
      InsertSorted(q, x, s[1..]);
      InsertAbove(q, x, s[1..], Key(q, s[0]));
      var tail := Insert(q, x, s[1..]);
      assert forall k :: 0 <= k < |tail| ==> Key(q, tail[k]) >= Key(q, s[0]);
      ConsSorted(q, s[0], tail);
      assert Insert(q, x, s) == [s[0]] + tail;
    } else {
      forall k | 0 <= k < |s|
        ensures Key(q, s[k]) >= Key(q, x)
      {
        assert Key(q, s[0]) <= Key(q, s[k]);
      }
      ConsSorted(q, x, s);
      assert Insert(q, x, s) == [x] + s;
    }
  }

  /** An item no farther than any of a sorted sequence, put in front of it, keeps it sorted. */
  lemma ConsSorted(q: Vec, h: Item, t: seq<Item>)
    requires Comparable(q, t) && |q| <= |h.descriptor| && SortedBy(q, t)
    requires forall k :: 0 <= k < |t| ==> Key(q, t[k]) >= Key(q, h)
    ensures Comparable(q, [h] + t) && SortedBy(q, [h] + t)
  {
    var r := [h] + t;
    forall i, j | 0 <= i < j < |r|
      ensures Key(q, r[i]) <= Key(q, r[j])
    {
      assert r[j] == t[j - 1];
      if i > 0 {
        assert r[i] == t[i - 1];
      }
    }
  }

  /** Inserting an item no closer than b among items no closer than b gives items no closer than b. */
  lemma {:induction false} InsertAbove(q: Vec, x: Item, s: seq<Item>, b: real)
    requires Comparable(q, s) && |q| <= |x.descriptor|
    requires Key(q, x) >= b && forall i :: 0 <= i < |s| ==> Key(q, s[i]) >= b
    ensures forall k :: 0 <= k < |Insert(q, x, s)| ==> Key(q, Insert(q, x, s)[k]) >= b
    decreases |s|
  {
    hide Key;
    if |s| > 0 && Key(q, x) >= Key(q, s[0]) {
      InsertAbove(q, x, s[1..], b);
      var tail := Insert(q, x, s[1..]);
      var r := [s[0]] + tail;
      assert Insert(q, x, s) == r;
      forall k | 0 < k < |r|
        ensures Key(q, r[k]) >= b
      {
        assert r[k] == tail[k - 1];
      }
    } else {
      assert Insert(q, x, s) == [x] + s;
    }
  }

  /** The ranking is ordered by distance, closest first. */
  lemma {:induction false} RankSorted(q: Vec, items: seq<Item>)
    requires Comparable(q, items)
    ensures SortedBy(q, Rank(q, items))
    decreases |items|
  {
    if |items| > 0 {
      RankSorted(q, items[..|items| - 1]);
      InsertSorted(q, items[|items| - 1], Rank(q, items[..|items| - 1]));
    }
  }

  /**
   * The walk over the ranking from position 0, with `acc` collected so far and the
   * next unread sample at `pos`: each item is first put to the drop predicate, then
   * kept when not dropped and not already used, and the walk stops as soon as the
   * collected count equals nResults. Returns the collected items and the next sample
   * position.
   */
  function Walk(ranked: seq<Item>, nResults: int, filter: DropFilter, stream: nat -> int, pos: nat,
                excluded: seq<Item>, acc: seq<Item>): (r: (seq<Item>, nat))
    requires IsSampleStream(stream)
    ensures acc <= r.0 && pos <= r.1
    decreases |ranked|
  {
    if |ranked| == 0 then (acc, pos)
    else
      var decision := DropDecision(filter, stream, pos, ranked[0].id);
      var acc' := if !decision.0 && ranked[0] !in excluded then acc + [ranked[0]] else acc;
      if |acc'| == nResults then (acc', decision.1)
      else Walk(ranked[1..], nResults, filter, stream, decision.1, excluded, acc')
  }

  /** How many samples deciding about every item of `ranked` consumes. */
  function DrawCount(filter: DropFilter, ranked: seq<Item>): nat
  {
    if |ranked| == 0 then 0
    else (if Draws(filter, ranked[0].id) then 1 else 0) + DrawCount(filter, ranked[1..])
  }

  /** The items of `ranked` that are not in `excluded`, in ranked order. */
  function Without(ranked: seq<Item>, excluded: seq<Item>): seq<Item>
  {
    if |ranked| == 0 then []
    else (if ranked[0] !in excluded then [ranked[0]] else []) + Without(ranked[1..], excluded)
  }

  /** The first n items of s, or all of them when there are fewer. */
  function Take<T>(s: seq<T>, n: int): (r: seq<T>)
    ensures |s| <= n ==> r == s
    ensures 0 <= n < |s| ==> r == s[..n]
  {
    if n < 0 || |s| <= n then s else s[..n]
  }

  /**
   * The walk only appends to what was collected, and what it appends are items of
   * the ranking that are not excluded.
   */
  lemma {:induction false} WalkExtends(ranked: seq<Item>, nResults: int, filter: DropFilter, stream: nat -> int,
                                        pos: nat, excluded: seq<Item>, acc: seq<Item>)
    requires IsSampleStream(stream)
    ensures var r := Walk(ranked, nResults, filter, stream, pos, excluded, acc).0;
      |acc| <= |r| && r[..|acc|] == acc &&
      forall k :: |acc| <= k < |r| ==> r[k] in ranked && r[k] !in excluded
    decreases |ranked|
  {
    if |ranked| > 0 {
      var decision := DropDecision(filter, stream, pos, ranked[0].id);
      var acc' := if !decision.0 && ranked[0] !in excluded then acc + [ranked[0]] else acc;
      if |acc'| != nResults {
        WalkExtends(ranked[1..], nResults, filter, stream, decision.1, excluded, acc');
        var r := Walk(ranked, nResults, filter, stream, pos, excluded, acc).0;
        assert r[..|acc'|] == acc';
        assert r[..|acc|] == acc'[..|acc|];
        forall k | |acc| <= k < |r|
          ensures r[k] in ranked && r[k] !in excluded
        {
          if k >= |acc'| {
            assert r[k] in ranked[1..];
          } else {
            assert r[k] == acc'[k];
          }
        }
      }
    }
  }

  /** With nResults >= 1 and fewer items collected so far, the walk never collects more than nResults. */
  lemma {:induction false} WalkBounded(ranked: seq<Item>, nResults: int, filter: DropFilter, stream: nat -> int,
                                        pos: nat, excluded: seq<Item>, acc: seq<Item>)
    requires IsSampleStream(stream) && |acc| < nResults
    ensures |Walk(ranked, nResults, filter, stream, pos, excluded, acc).0| <= nResults
    decreases |ranked|
  {
    if |ranked| > 0 {
      var decision := DropDecision(filter, stream, pos, ranked[0].id);
      var acc' := if !decision.0 && ranked[0] !in excluded then acc + [ranked[0]] else acc;
      if |acc'| != nResults {
        WalkBounded(ranked[1..], nResults, filter, stream, decision.1, excluded, acc');
      }
    }
  }

  /**
   * Stopping at nResults only cuts the exhaustive walk short: the result is the
   * first nResults items the walk would collect with no limit (nResults = -1), and
   * every item the early stop skips is never put to the drop predicate.
   */
  lemma {:induction false} WalkStopsEarly(ranked: seq<Item>, nResults: int, filter: DropFilter, stream: nat -> int,
                                           pos: nat, excluded: seq<Item>, acc: seq<Item>)
    requires IsSampleStream(stream) && |acc| < nResults
    ensures Walk(ranked, nResults, filter, stream, pos, excluded, acc).0
         == Take(Walk(ranked, -1, filter, stream, pos, excluded, acc).0, nResults)
    decreases |ranked|
  {
    if |ranked| > 0 {
      var decision := DropDecision(filter, stream, pos, ranked[0].id);
      var acc' := if !decision.0 && ranked[0] !in excluded then acc + [ranked[0]] else acc;
      var all := Walk(ranked[1..], -1, filter, stream, decision.1, excluded, acc').0;
      assert Walk(ranked, -1, filter, stream, pos, excluded, acc).0 == all;
      if |acc'| == nResults {
        WalkExtends(ranked[1..], -1, filter, stream, decision.1, excluded, acc');
        assert all[..nResults] == acc';
      } else {
        WalkStopsEarly(ranked[1..], nResults, filter, stream, decision.1, excluded, acc');
      }
    }
  }

  /**
   * With no limit the walk puts every ranked item to the drop predicate, already
   * used ones included, so it consumes one sample per ranked item shown before.
   */
  lemma {:induction false} WalkDraws(ranked: seq<Item>, filter: DropFilter, stream: nat -> int, pos: nat,
                                      excluded: seq<Item>, acc: seq<Item>)
    requires IsSampleStream(stream)
    ensures Walk(ranked, -1, filter, stream, pos, excluded, acc).1 == pos + DrawCount(filter, ranked)
    decreases |ranked|
  {
    if |ranked| > 0 {
      var decision := DropDecision(filter, stream, pos, ranked[0].id);
      var acc' := if !decision.0 && ranked[0] !in excluded then acc + [ranked[0]] else acc;
      WalkDraws(ranked[1..], filter, stream, decision.1, excluded, acc');
    }
  }

  /** Unfolding Without once: the first item is kept unless excluded. */
  lemma WithoutStep(ranked: seq<Item>, excluded: seq<Item>)
    requires |ranked| > 0
    ensures Without(ranked, excluded) == (if ranked[0] !in excluded then [ranked[0]] else []) + Without(ranked[1..], excluded)
  {
  }

  /** An empty ranking ends the walk with nothing added, and nothing is left to keep. */
  lemma WalkEnd(ranked: seq<Item>, stream: nat -> int, pos: nat, excluded: seq<Item>, acc: seq<Item>)
    requires IsSampleStream(stream) && |ranked| == 0
    ensures Walk(ranked, -1, NoDropout, stream, pos, excluded, acc) == (acc + Without(ranked, excluded), pos)
  {
    assert acc + [] == acc;
  }

  /** Without dropout one walk step keeps the first ranked item unless it is excluded, and draws nothing. */
  lemma WalkStepWithoutDropout(ranked: seq<Item>, stream: nat -> int, pos: nat, excluded: seq<Item>, acc: seq<Item>)
    requires IsSampleStream(stream) && |ranked| > 0
    ensures Walk(ranked, -1, NoDropout, stream, pos, excluded, acc)
         == Walk(ranked[1..], -1, NoDropout, stream, pos, excluded, acc + (if ranked[0] !in excluded then [ranked[0]] else []))
  {
    hide Drops, Fraction;
    var decision := DropDecision(NoDropout, stream, pos, ranked[0].id);
    assert !decision.0 && decision.1 == pos;
    var acc' := if ranked[0] !in excluded then acc + [ranked[0]] else acc;
    assert acc' == acc + (if ranked[0] !in excluded then [ranked[0]] else []);
    assert |acc'| != -1;
  }

  /** Without dropout the walk keeps exactly the ranked items not excluded, and draws nothing. */
  lemma {:induction false} WalkWithoutDropout(ranked: seq<Item>, stream: nat -> int, pos: nat,
                                               excluded: seq<Item>, acc: seq<Item>)
    requires IsSampleStream(stream)
    ensures Walk(ranked, -1, NoDropout, stream, pos, excluded, acc) == (acc + Without(ranked, excluded), pos)
    decreases |ranked|
  {
    hide *;
    if |ranked| > 0 {
      var head := if ranked[0] !in excluded then [ranked[0]] else [];
      WalkStepWithoutDropout(ranked, stream, pos, excluded, acc);
      WalkWithoutDropout(ranked[1..], stream, pos, excluded, acc + head);
      WithoutStep(ranked, excluded);
      assert (acc + head) + Without(ranked[1..], excluded) == acc + (head + Without(ranked[1..], excluded));
    } else {
      WalkEnd(ranked, stream, pos, excluded, acc);
    }
  }

  /** The walk keeps the ranking's order: a sorted ranking gives a sorted result. */
  lemma {:induction false} WalkSorted(q: Vec, ranked: seq<Item>, nResults: int, filter: DropFilter,
                                       stream: nat -> int, pos: nat, excluded: seq<Item>, acc: seq<Item>)
    requires IsSampleStream(stream)
    requires Comparable(q, acc + ranked) && SortedBy(q, acc + ranked)
    ensures var r := Walk(ranked, nResults, filter, stream, pos, excluded, acc).0;
      Comparable(q, r) && SortedBy(q, r)
    decreases |ranked|
  {
    if |ranked| == 0 {
      assert acc + ranked == acc;
    } else {
      var decision := DropDecision(filter, stream, pos, ranked[0].id);
      var acc' := if !decision.0 && ranked[0] !in excluded then acc + [ranked[0]] else acc;
      var rest := acc' + ranked[1..];
      if acc' == acc {
        assert rest == (acc + ranked)[..|acc|] + (acc + ranked)[|acc| + 1..];
        SortedDropOne(q, acc + ranked, |acc|);
      } else {
        assert rest == acc + ranked;
      }
      if |acc'| == nResults {
        assert acc' == rest[..|acc'|];
        SortedPrefix(q, rest, |acc'|);
      } else {
        WalkSorted(q, ranked[1..], nResults, filter, stream, decision.1, excluded, acc');
      }
    }
  }

  /** Leaving one item out of a sorted sequence keeps it sorted. */
  lemma SortedDropOne(q: Vec, s: seq<Item>, i: nat)
    requires Comparable(q, s) && SortedBy(q, s) && i < |s|
    ensures Comparable(q, s[..i] + s[i + 1..]) && SortedBy(q, s[..i] + s[i + 1..])
  {
    var t := s[..i] + s[i + 1..];
    forall k | 0 <= k < |t|
      ensures t[k] == s[if k < i then k else k + 1]
    {
    }
  }

  /** A prefix of a sorted sequence is sorted. */
  lemma SortedPrefix(q: Vec, s: seq<Item>, n: nat)
    requires Comparable(q, s) && SortedBy(q, s) && n <= |s|
    ensures Comparable(q, s[..n]) && SortedBy(q, s[..n])
  {
  }

  /** A ranking without duplicates gives a result without duplicates. */
  lemma {:induction false} WalkDistinct(ranked: seq<Item>, nResults: int, filter: DropFilter, stream: nat -> int,
                                         pos: nat, excluded: seq<Item>, acc: seq<Item>)
    requires IsSampleStream(stream)
    requires NoDuplicates(acc + ranked)
    ensures NoDuplicates(Walk(ranked, nResults, filter, stream, pos, excluded, acc).0)
    decreases |ranked|
  {
    if |ranked| == 0 {
      assert acc + ranked == acc;
    } else {
      var decision := DropDecision(filter, stream, pos, ranked[0].id);
      var acc' := if !decision.0 && ranked[0] !in excluded then acc + [ranked[0]] else acc;
      assert (acc + ranked)[|acc|] == ranked[0];
      forall k | 0 <= k < |acc' + ranked[1..]|
        ensures (acc' + ranked[1..])[k] == (acc + ranked)[if k < |acc| then k else k + |acc| + 1 - |acc'|]
      {
      }
      if |acc'| == nResults {
        assert acc' == (acc + ranked)[..|acc'|];
      } else {
        WalkDistinct(ranked[1..], nResults, filter, stream, decision.1, excluded, acc');
      }
    }
  }
}
