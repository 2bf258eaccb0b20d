/**
 * The result buffer of FeatureReader.FindSimilar: a list of matches kept in
 * ascending distance, into which each scanned feature is offered in turn.
 */
module TopK {

  /** A scanned feature: its floats, its id and its distance to the query (the Features struct). */
  datatype Match = Match(features: seq<real>, id: int, distance: real)

  /**
   * The order the buffer keeps: ascending distance and, since a new match goes in
   * front of every match at its own distance and ids are offered in increasing
   * order, descending id among equal distances.
   */
  predicate Precedes(a: Match, b: Match)
  {
    a.distance < b.distance || (a.distance == b.distance && a.id > b.id)
  }

  predicate Ranked(b: seq<Match>)
  {
    forall x, y :: 0 <= x < y < |b| ==> Precedes(b[x], b[y])
  }

  /** The capacity the buffer settles at: kResults, but never below one (the first match always goes in). */
  function Capacity(k: int): (c: nat)
    ensures c >= 1 && c >= k
  {
    if k < 1 then 1 else k
  }

  /** The first position at or after i whose distance is not below d (the walk over the nodes). */
  function Position(b: seq<Match>, d: real, i: nat): (p: nat)
    requires i <= |b|
    ensures i <= p <= |b|
    ensures forall x :: i <= x < p ==> b[x].distance < d
    ensures p < |b| ==> b[p].distance >= d
    decreases |b| - i
  {
    if i == |b| || b[i].distance >= d then i else Position(b, d, i + 1)
  }

  /** b with m inserted before position p. */
  function InsertAt(b: seq<Match>, p: nat, m: Match): (c: seq<Match>)
    requires p <= |b|
    ensures |c| == |b| + 1 && c[p] == m
    ensures forall x :: 0 <= x < p ==> c[x] == b[x]
    ensures forall x :: p < x < |c| ==> c[x] == b[x - 1]
  {
    b[..p] + [m] + b[p..]
  }

  /**
   * The buffer after offering m: an empty buffer takes it; otherwise, when the
   * buffer holds fewer than k matches or m is closer than the last one, m goes
   * before the first match not closer than it and a match beyond k drops off the
   * end; otherwise the buffer is unchanged.
   */
  function Offered(b: seq<Match>, m: Match, k: int): seq<Match>
  {
    if |b| == 0 then [m]
    else if |b| < k || m.distance < b[|b| - 1].distance then
      var p := Position(b, m.distance, 0);
      var c := InsertAt(b, p, m);
      if |c| > k then c[..|c| - 1] else c
    else b
  }

  /** No match in b carries the id j. */
  predicate Missing(b: seq<Match>, j: int)
  {
    forall x :: 0 <= x < |b| ==> b[x].id != j
  }

  /** Candidate j carries the id j, for each of the first n candidates. */
  predicate Numbered(cs: seq<Match>, n: nat)
  {
    n <= |cs| && forall j :: 0 <= j < n ==> cs[j].id == j
  }

  /**
   * b holds the best matches among the first n candidates: it is ranked, holds
   * min(n, capacity) of the candidates, and every candidate left out is no closer
   * than the last match of a full buffer.
   */
  predicate Best(b: seq<Match>, cs: seq<Match>, n: nat, k: int)
  {
    Numbered(cs, n) &&
    Ranked(b) &&
    |b| == (if n < Capacity(k) then n else Capacity(k)) &&
    (forall x :: 0 <= x < |b| ==> 0 <= b[x].id < n && b[x] == cs[b[x].id]) &&
    (forall j :: 0 <= j < n && Missing(b, j) ==> |b| == Capacity(k) && cs[j].distance >= b[|b| - 1].distance)
  }

  /** The walk to the insertion point and the insertion, on the list held as a sequence. */
  method Offer(b: seq<Match>, m: Match, k: int) returns (next: seq<Match>)
    ensures next == Offered(b, m, k)
  {
    if |b| == 0 {
      return [m];
    }
    if |b| < k || m.distance < b[|b| - 1].distance {
      var p := 0;
      while p < |b| && b[p].distance < m.distance
        invariant 0 <= p <= |b|
        invariant Position(b, m.distance, p) == Position(b, m.distance, 0)
        decreases |b| - p
      {
        p := p + 1;
      }
      next := InsertAt(b, p, m);
      if |next| > k {
        next := next[..|next| - 1];
      }
    } else {
      next := b;
    }
  }

  /** Offering never grows the buffer past its capacity, nor shrinks it. */
  lemma OfferedLength(b: seq<Match>, m: Match, k: int)
    requires |b| <= Capacity(k)
    ensures var c := Offered(b, m, k);
      |c| == (if |b| < Capacity(k) then |b| + 1 else |b|) && |c| <= Capacity(k)
  {
  }

  /** Inserting the newest candidate at its position keeps the buffer ranked. */
  lemma InsertRanked(b: seq<Match>, m: Match, n: nat)
    requires Ranked(b) && forall x :: 0 <= x < |b| ==> b[x].id < n
    requires m.id == n
    ensures Ranked(InsertAt(b, Position(b, m.distance, 0), m))
  {
    var p := Position(b, m.distance, 0);
    var c := InsertAt(b, p, m);
    forall x, y | 0 <= x < y < |c|
      ensures Precedes(c[x], c[y])
    {
      if y < p {
      } else if y == p {
      } else if x < p {
        assert Precedes(b[x], b[y - 1]);
      } else if x == p {
        assert b[y - 1].distance >= m.distance;
      } else {
        assert Precedes(b[x - 1], b[y - 1]);
      }
    }
  }

  /** Dropping the last match keeps a buffer ranked. */
  lemma DropLastRanked(c: seq<Match>)
    requires Ranked(c) && |c| > 0
    ensures Ranked(c[..|c| - 1])
  {
  }

  /** A ranked buffer's last match is no closer than any other. */
  lemma LastFarthest(c: seq<Match>, x: int)
    requires Ranked(c) && 0 <= x < |c|
    ensures c[x].distance <= c[|c| - 1].distance
  {
    if x < |c| - 1 {
      assert Precedes(c[x], c[|c| - 1]);
    }
  }

  /** Offering candidate n to an empty buffer. */
  lemma OfferFirst(b: seq<Match>, cs: seq<Match>, n: nat, k: int)
    requires Best(b, cs, n, k) && Numbered(cs, n + 1) && |b| == 0
    ensures Best(Offered(b, cs[n], k), cs, n + 1, k)
  {
    assert n == 0;
    var c := Offered(b, cs[n], k);
    assert c == [cs[0]] && c[0].id == 0;
    assert !Missing(c, 0);
  }

  /** A candidate that is not offered room leaves a full buffer that stays the best. */
  lemma OfferSkipped(b: seq<Match>, cs: seq<Match>, n: nat, k: int)
    requires Best(b, cs, n, k) && Numbered(cs, n + 1) && |b| > 0
    requires !(|b| < k || cs[n].distance < b[|b| - 1].distance)
    ensures Best(Offered(b, cs[n], k), cs, n + 1, k)
  {
    assert Offered(b, cs[n], k) == b;
    assert |b| == Capacity(k) && n >= |b|;
    forall j | 0 <= j < n + 1 && Missing(b, j)
      ensures cs[j].distance >= b[|b| - 1].distance
    {
      if j == n {
        assert cs[j] == cs[n];
      }
    }
  }

  /** The inserted buffer holds candidates only, and every candidate seen is in it or was in b. */
  lemma InsertedCandidates(b: seq<Match>, cs: seq<Match>, n: nat, k: int)
    requires Best(b, cs, n, k) && Numbered(cs, n + 1)
    ensures var c := InsertAt(b, Position(b, cs[n].distance, 0), cs[n]);
      forall x :: 0 <= x < |c| ==> 0 <= c[x].id < n + 1 && c[x] == cs[c[x].id]
  {
  }

  /** A candidate offered to a buffer below k matches is inserted, and the buffer grows. */
  lemma OfferGrows(b: seq<Match>, cs: seq<Match>, n: nat, k: int)
    requires Best(b, cs, n, k) && Numbered(cs, n + 1) && 0 < |b| < k
    ensures Best(Offered(b, cs[n], k), cs, n + 1, k)
  {
    var p := Position(b, cs[n].distance, 0);
    var c := InsertAt(b, p, cs[n]);
    assert Offered(b, cs[n], k) == c;
    InsertRanked(b, cs[n], n);
    InsertedCandidates(b, cs, n, k);
    assert n == |b|;
    forall j | 0 <= j < n + 1
      ensures !Missing(c, j)
    {
      if j < n {
        assert !Missing(b, j);
        var x :| 0 <= x < |b| && b[x].id == j;
        KeptAfterInsert(b, p, cs[n], x);
      } else {
        assert c[p].id == j;
      }
    }
  }

  /** Every match of a buffer stays in it when another is inserted. */
  lemma KeptAfterInsert(b: seq<Match>, p: nat, m: Match, x: nat)
    requires p <= |b| && x < |b|
    ensures !Missing(InsertAt(b, p, m), b[x].id)
  {
    var c := InsertAt(b, p, m);
    if x < p {
      assert c[x] == b[x];
    } else {
      assert c[x + 1] == b[x];
    }
  }

  /** A closer candidate offered to a full buffer replaces its last match. */
  lemma OfferReplaces(b: seq<Match>, cs: seq<Match>, n: nat, k: int)
    requires Best(b, cs, n, k) && Numbered(cs, n + 1) && 0 < |b| && k <= |b|
    requires cs[n].distance < b[|b| - 1].distance
    ensures Best(Offered(b, cs[n], k), cs, n + 1, k)
  {
    var p := Position(b, cs[n].distance, 0);
    var c := InsertAt(b, p, cs[n]);
    var e := c[..|c| - 1];
    assert Offered(b, cs[n], k) == e;
    assert |b| == Capacity(k);
    InsertRanked(b, cs[n], n);
    InsertedCandidates(b, cs, n, k);
    DropLastRanked(c);
    ReplacedCovers(b, cs, n, k);
    forall x | 0 <= x < |e|
      ensures 0 <= e[x].id < n + 1 && e[x] == cs[e[x].id]
    {
      assert e[x] == c[x];
    }
  }

  /** After a replacement, every candidate left out is no closer than the new last match. */
  lemma ReplacedCovers(b: seq<Match>, cs: seq<Match>, n: nat, k: int)
    requires Best(b, cs, n, k) && Numbered(cs, n + 1) && 0 < |b| && k <= |b|
    requires cs[n].distance < b[|b| - 1].distance
    ensures var e := InsertAt(b, Position(b, cs[n].distance, 0), cs[n])[..|b|];
      forall j :: 0 <= j < n + 1 && Missing(e, j) ==> cs[j].distance >= e[|e| - 1].distance
  {
    var p := Position(b, cs[n].distance, 0);
    var c := InsertAt(b, p, cs[n]);
    var e := c[..|b|];
    InsertRanked(b, cs[n], n);
    LastFarthest(c, |c| - 2);
    assert c[|c| - 1] == b[|b| - 1];
    forall j | 0 <= j < n + 1
      ensures !Missing(e, j) || cs[j].distance >= e[|e| - 1].distance
    {
      if j == n {
        assert e[p].id == j;
      } else if !Missing(b, j) {
        var x :| 0 <= x < |b| && b[x].id == j;
        if x < |b| - 1 {
          KeptAfterReplace(b, p, cs[n], x);
        }
      }
    }
  }

  /** A match before the last of b survives an insertion that drops the last match. */
  lemma KeptAfterReplace(b: seq<Match>, p: nat, m: Match, x: nat)
    requires p <= |b| && x < |b| - 1
    ensures !Missing(InsertAt(b, p, m)[..|b|], b[x].id)
  {
    var e := InsertAt(b, p, m)[..|b|];
    if x < p {
      assert e[x] == b[x];
    } else {
      assert e[x + 1] == b[x];
    }
  }

  /** Each offer keeps the buffer the best of the candidates seen so far. */
  lemma OfferKeepsBest(b: seq<Match>, cs: seq<Match>, n: nat, k: int)
    requires Best(b, cs, n, k) && Numbered(cs, n + 1)
    ensures Best(Offered(b, cs[n], k), cs, n + 1, k)
  {
    if |b| == 0 {
      OfferFirst(b, cs, n, k);
    } else if |b| < k {
      OfferGrows(b, cs, n, k);
    } else if cs[n].distance < b[|b| - 1].distance {
      OfferReplaces(b, cs, n, k);
    } else {
      OfferSkipped(b, cs, n, k);
    }
  }

  /**
   * The buffer after the first n candidates have been offered in scan order, one
   * at a time, to an initially empty buffer. This fixes the result outright,
   * including which of several matches at the cut-off distance are kept.
   */
  function OfferAll(cs: seq<Match>, n: nat, k: int): seq<Match>
    requires n <= |cs|
  {
    if n == 0 then [] else Offered(OfferAll(cs, n - 1, k), cs[n - 1], k)
  }

  /** Offering the numbered candidates in scan order leaves the best of them in the buffer. */
  lemma {:induction false} OfferAllBest(cs: seq<Match>, n: nat, k: int)
    requires Numbered(cs, n)
    ensures Best(OfferAll(cs, n, k), cs, n, k)
  {
    if n > 0 {
      hide Best, Offered;
      assert Numbered(cs, n - 1);
      OfferAllBest(cs, n - 1, k);
      OfferKeepsBest(OfferAll(cs, n - 1, k), cs, n - 1, k);
    }
  }

  /**
   * At the cut-off the earlier candidate wins: once the buffer is full, a
   * candidate at the same distance as the last match is not taken.
   */
  lemma TieKeepsEarlier(b: seq<Match>, m: Match, k: int)
    requires |b| >= Capacity(k) && m.distance == b[|b| - 1].distance
    ensures Offered(b, m, k) == b
  {
  }

  /**
   * What Best promises in the end: every candidate left out is no closer than
   * every match kept.
   */
  lemma BestDominates(b: seq<Match>, cs: seq<Match>, n: nat, k: int, j: int, x: int)
    requires Best(b, cs, n, k) && 0 <= j < n && Missing(b, j) && 0 <= x < |b|
    ensures b[x].distance <= cs[j].distance
  {
    LastFarthest(b, x);
  }
}
