/**
 * The file layout of the MLES ranking cache (MLES.SaveCache / MLES.LoadCache),
 * as a sequence of Int32 words: the number of entries, the entry length, then
 * for each entry its key (a query id) followed by that many dataset ids. The
 * cache itself maps a query id to the dataset ids of its first ranked items.
 */
module CacheFormat {
  import opened Wrappers

  type Cache = map<int, seq<int>>

  /** Every entry has `length` ids, each a dataset index. */
  ghost predicate EntriesFit(cache: Cache, length: int, n: nat)
  {
    forall key :: key in cache ==> |cache[key]| == length && forall i :: 0 <= i < length ==> 0 <= cache[key][i] < n
  }

  /** An enumeration of the keys: each key once. */
  ghost predicate Enumerates(order: seq<int>, cache: Cache)
  {
    (forall i, j :: 0 <= i < j < |order| ==> order[i] != order[j]) &&
    (forall i :: 0 <= i < |order| ==> order[i] in cache) &&
    (forall key :: key in cache ==> key in order)
  }

  /** A non-empty set of keys has a member. */
  lemma SomeKey(keys: set<int>)
    requires keys != {}
    ensures exists key :: key in keys
  {
    if forall key :: key !in keys {
      assert false;
    }
  }

  /** The entries in the given key order, each as its key followed by its ids. */
  function EncodeEntries(order: seq<int>, cache: Cache): seq<int>
    requires forall i :: 0 <= i < |order| ==> order[i] in cache
  {
    if |order| == 0 then []
    else [order[0]] + cache[order[0]] + EncodeEntries(order[1..], cache)
  }

  /** The whole file for the given key order. */
  function Encode(order: seq<int>, cache: Cache, length: int): seq<int>
    requires forall i :: 0 <= i < |order| ==> order[i] in cache
  {
    [|cache|, length] + EncodeEntries(order, cache)
  }

  /**
   * `length` ids read one at a time, each looked up in the dataset: a read past the
   * end of the file fails with EndOfStream, an id outside the dataset with
   * IndexOutOfRange, whichever comes first.
   */
  function ReadIds(words: seq<int>, length: nat, n: nat): (r: Result<seq<int>>)
    ensures r.Ok? ==> |r.value| == length && length <= |words| && r.value == words[..length]
    ensures r.Ok? ==> forall i :: 0 <= i < length ==> 0 <= r.value[i] < n
    ensures r.Err? ==> r.error == EndOfStream || r.error == IndexOutOfRange
    decreases length
  {
    if length == 0 then Ok([])
    else if |words| == 0 then Err(EndOfStream)
    else if !(0 <= words[0] < n) then Err(IndexOutOfRange)
    else
      var rest := ReadIds(words[1..], length - 1, n);
      if rest.Err? then rest else Ok([words[0]] + rest.value)
  }

  /**
   * `count` entries of `length` ids read into `acc`. A negative length fails when the
   * entry's array is allocated; an entry whose key is already present is read and
   * dropped (TryAdd). Words after the last entry are never read.
   */
  function DecodeEntries(words: seq<int>, count: int, length: int, n: nat, acc: Cache): (r: Result<Cache>)
    decreases count
  {
    if count <= 0 then Ok(acc)
    else if |words| == 0 then Err(EndOfStream)
    else if length < 0 then Err(Overflow)
    else
      var ids := ReadIds(words[1..], length, n);
      if ids.Err? then Err(ids.error)
      else
        var key := words[0];
        DecodeEntries(words[1 + length..], count - 1, length, n, if key in acc then acc else acc[key := ids.value])
  }

  /** LoadCache on a file of `words`, into the cache `acc`: the entry length read and the resulting cache. */
  function Decode(words: seq<int>, n: nat, acc: Cache): Result<(int, Cache)>
  {
    if |words| < 2 then Err(EndOfStream)
    else
      var entries := DecodeEntries(words[2..], words[0], words[1], n, acc);
      if entries.Err? then Err(entries.error) else Ok((words[1], entries.value))
  }

  lemma {:induction false} ReadIdsOfFitting(ids: seq<int>, rest: seq<int>, n: nat)
    requires forall i :: 0 <= i < |ids| ==> 0 <= ids[i] < n
    ensures ReadIds(ids + rest, |ids|, n) == Ok(ids)
    decreases |ids|
  {
    if |ids| > 0 {
      assert (ids + rest)[1..] == ids[1..] + rest;
      ReadIdsOfFitting(ids[1..], rest, n);
      assert [ids[0]] + ids[1..] == ids;
    }
  }

  /** Reading past ids that all fit continues with what follows them. */
  lemma {:induction false} ReadIdsAfterFitting(ids: seq<int>, rest: seq<int>, more: nat, n: nat)
    requires forall i :: 0 <= i < |ids| ==> 0 <= ids[i] < n
    ensures var tail := ReadIds(rest, more, n);
      ReadIds(ids + rest, |ids| + more, n) == if tail.Err? then tail else Ok(ids + tail.value)
    decreases |ids|
  {
    if |ids| == 0 {
      assert ids + rest == rest;
      var tail := ReadIds(rest, more, n);
      if tail.Ok? {
        assert ids + tail.value == tail.value;
      }
    } else {
      assert (ids + rest)[1..] == ids[1..] + rest;
      ReadIdsAfterFitting(ids[1..], rest, more, n);
      assert [ids[0]] + ids[1..] == ids;
      var tail := ReadIds(rest, more, n);
      if tail.Ok? {
        assert [ids[0]] + (ids[1..] + tail.value) == ids + tail.value;
      }
    }
  }

  /** The entries of `cache` whose keys are listed in `order`. */
  function Restrict(cache: Cache, order: seq<int>): Cache
  {
    map key | key in cache && key in order :: cache[key]
  }

  lemma RestrictCons(cache: Cache, order: seq<int>, acc: Cache)
    requires |order| > 0 && order[0] in cache
    ensures acc[order[0] := cache[order[0]]] + Restrict(cache, order[1..]) == acc + Restrict(cache, order)
  {
    var left := acc[order[0] := cache[order[0]]] + Restrict(cache, order[1..]);
    var right := acc + Restrict(cache, order);
    forall key
      ensures key in left <==> key in right
      ensures key in left ==> left[key] == right[key]
    {
      assert key in order <==> key == order[0] || key in order[1..];
    }
  }

  lemma {:induction false} DecodeEncodedEntries(order: seq<int>, cache: Cache, length: nat, n: nat, acc: Cache)
    requires forall i :: 0 <= i < |order| ==> order[i] in cache && order[i] !in acc
    requires forall i, j :: 0 <= i < j < |order| ==> order[i] != order[j]
    requires EntriesFit(cache, length, n)
    ensures DecodeEntries(EncodeEntries(order, cache), |order|, length, n, acc) == Ok(acc + Restrict(cache, order))
    decreases |order|
  {
    if |order| == 0 {
      assert Restrict(cache, order) == map[];
      assert acc + map[] == acc;
    } else {
      var key := order[0];
      var ids := cache[key];
      var words := EncodeEntries(order, cache);
      var rest := EncodeEntries(order[1..], cache);
      assert words == [key] + (ids + rest);
      assert words[1..] == ids + rest;
      ReadIdsOfFitting(ids, rest, n);
      assert words[1 + length..] == rest;
      var acc' := acc[key := ids];
      assert DecodeEntries(words, |order|, length, n, acc) == DecodeEntries(rest, |order| - 1, length, n, acc');
      forall i | 0 <= i < |order[1..]|
        ensures order[1..][i] in cache && order[1..][i] !in acc'
      {
        assert order[1..][i] == order[i + 1];
      }
      DecodeEncodedEntries(order[1..], cache, length, n, acc');
      RestrictCons(cache, order, acc);
    }
  }

  /**
   * Save followed by Load reproduces the cache and its entry length, whatever order
   * the keys were written in.
   */
  lemma DecodeEncoded(order: seq<int>, cache: Cache, length: nat, n: nat)
    requires Enumerates(order, cache)
    requires EntriesFit(cache, length, n)
    ensures Decode(Encode(order, cache, length), n, map[]) == Ok((length, cache))
  {
    var words := Encode(order, cache, length);
    assert words[2..] == EncodeEntries(order, cache);
    assert |cache| == |order| by {
      var keys := set i | 0 <= i < |order| :: order[i];
      forall key | key in cache
        ensures key in keys
      {
        var i :| 0 <= i < |order| && order[i] == key;
      }
      assert keys == cache.Keys;
      DistinctCardinality(order);
    }
    DecodeEncodedEntries(order, cache, length, n, map[]);
    assert map[] + Restrict(cache, order) == cache by {
      forall key | key in cache
        ensures key in order
      {
      }
    }
  }

  lemma {:induction false} DistinctCardinality(order: seq<int>)
    requires forall i, j :: 0 <= i < j < |order| ==> order[i] != order[j]
    ensures |set i | 0 <= i < |order| :: order[i]| == |order|
    decreases |order|
  {
    if |order| > 0 {
      var init := order[..|order| - 1];
      DistinctCardinality(init);
      var s := set i | 0 <= i < |init| :: init[i];
      assert (set i | 0 <= i < |order| :: order[i]) == s + {order[|order| - 1]};
      assert order[|order| - 1] !in s;
    }
  }

  /** Writing one more entry appends its key and ids. */
  lemma {:induction false} EncodeEntriesSnoc(order: seq<int>, key: int, cache: Cache)
    requires forall i :: 0 <= i < |order| ==> order[i] in cache
    requires key in cache
    ensures EncodeEntries(order + [key], cache) == EncodeEntries(order, cache) + [key] + cache[key]
    decreases |order|
  {
    if |order| == 0 {
      assert order + [key] == [key];
    } else {
      assert (order + [key])[1..] == order[1..] + [key];
      EncodeEntriesSnoc(order[1..], key, cache);
    }
  }

  /** A cache loaded into entries of the same length holds only entries of that length with dataset ids. */
  lemma {:induction false} DecodeEntriesFit(words: seq<int>, count: int, length: int, n: nat, acc: Cache)
    requires EntriesFit(acc, length, n)
    ensures var r := DecodeEntries(words, count, length, n, acc); r.Ok? ==> EntriesFit(r.value, length, n)
    decreases count
  {
    if count > 0 && |words| > 0 && length >= 0 {
      var ids := ReadIds(words[1..], length, n);
      if ids.Ok? {
        var key := words[0];
        DecodeEntriesFit(words[1 + length..], count - 1, length, n, if key in acc then acc else acc[key := ids.value]);
      }
    }
  }
}
