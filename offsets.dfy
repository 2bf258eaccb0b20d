/**
 * What FeatureReader and BitmapReader share: the six int32 tables of the
 * metadata, the block-aligned start of the data after it, and the counts read
 * off the offset tables (a video's frames or features, a video's shots, a
 * shot's frames or features).
 */
module Offsets {
  import opened Wrappers

  /** The count int32 values from position pos on, in the order they are read. */
  function Ints(w: seq<int>, pos: nat, count: nat): (values: seq<int>)
    requires pos + count <= |w|
    ensures |values| == count
  {
    if count == 0 then [] else Ints(w, pos, count - 1) + [w[pos + count - 1]]
  }

  /** The values read are the file's values at those positions. */
  lemma {:induction false} IntsAt(w: seq<int>, pos: nat, count: nat)
    requires pos + count <= |w|
    ensures Ints(w, pos, count) == w[pos..pos + count]
  {
    if count > 0 {
      IntsAt(w, pos, count - 1);
      assert w[pos..pos + count] == w[pos..pos + count - 1] + [w[pos + count - 1]];
    }
  }

  /** The loop that fills a table: count int32 values from pos on, read one at a time. */
  method ReadInts(w: seq<int>, pos: nat, count: nat) returns (values: seq<int>)
    requires pos + count <= |w|
    ensures values == Ints(w, pos, count)
  {
    values := [];
    var i := 0;
    while i < count
      invariant 0 <= i <= count
      invariant values == Ints(w, pos, i)
    {
      values := values + [w[pos + i]];
      i := i + 1;
    }
  }

  /**
   * The six tables, in the order they are stored: video offsets, shot offsets and
   * video-shot offsets, then the video id, shot id and frame id of every feature
   * or frame.
   */
  datatype Tables = Tables(videoOffsets: seq<int>, shotOffsets: seq<int>, videoShotOffsets: seq<int>,
    toVideoId: seq<int>, toShotId: seq<int>, toFrameId: seq<int>)

  /** The tables for vc videos, sc shots and fc features or frames, read from position pos on. */
  function TablesAt(w: seq<int>, pos: nat, vc: nat, sc: nat, fc: nat): Tables
    requires pos + vc + sc + vc + 3 * fc <= |w|
  {
    var a := pos + vc;
    var b := a + sc;
    var c := b + vc;
    Tables(Ints(w, pos, vc), Ints(w, a, sc), Ints(w, b, vc), Ints(w, c, fc), Ints(w, c + fc, fc), Ints(w, c + fc + fc, fc))
  }

  /** Each table is the run of values right after the one before it, of its count's length. */
  lemma {:induction false} TablesLayout(w: seq<int>, pos: nat, vc: nat, sc: nat, fc: nat)
    requires pos + vc + sc + vc + 3 * fc <= |w|
    ensures var t := TablesAt(w, pos, vc, sc, fc);
      var a := pos + vc; var b := a + sc; var c := b + vc; var d := c + fc; var e := d + fc;
      e + fc <= |w| &&
      t.videoOffsets == w[pos..a] && t.shotOffsets == w[a..b] && t.videoShotOffsets == w[b..c] &&
      t.toVideoId == w[c..d] && t.toShotId == w[d..e] && t.toFrameId == w[e..e + fc]
  {
    hide Ints;
    var a := pos + vc;
    var b := a + sc;
    var c := b + vc;
    var t := TablesAt(w, pos, vc, sc, fc);
    assert t.videoOffsets == w[pos..a] by { IntsAt(w, pos, vc); }
    assert t.shotOffsets == w[a..b] by { IntsAt(w, a, sc); }
    assert t.videoShotOffsets == w[b..c] by { IntsAt(w, b, vc); }
    assert t.toVideoId == w[c..c + fc] by { IntsAt(w, c, fc); }
    assert t.toShotId == w[c + fc..c + fc + fc] by { IntsAt(w, c + fc, fc); }
    assert t.toFrameId == w[c + fc + fc..c + fc + fc + fc] by { IntsAt(w, c + fc + fc, fc); }
  }

  /** The header's table loops, one table after the other. */
  method ReadTables(w: seq<int>, pos: nat, vc: nat, sc: nat, fc: nat) returns (t: Tables)
    requires pos + vc + sc + vc + 3 * fc <= |w|
    ensures t == TablesAt(w, pos, vc, sc, fc)
  {
    var p := pos;
    var videoOffsets := ReadInts(w, p, vc);
    p := p + vc;
    var shotOffsets := ReadInts(w, p, sc);
    p := p + sc;
    var videoShotOffsets := ReadInts(w, p, vc);
    p := p + vc;
    var toVideoId := ReadInts(w, p, fc);
    p := p + fc;
    var toShotId := ReadInts(w, p, fc);
    p := p + fc;
    var toFrameId := ReadInts(w, p, fc);
    t := Tables(videoOffsets, shotOffsets, videoShotOffsets, toVideoId, toShotId, toFrameId);
  }

  /** The metadata is padded to a multiple of this block size. */
  const BLOCK_SIZE: int := 4096

  /** The data start: ((metadataSize / 4096) + 1) * 4096. */
  function AlignedStart(metadataSize: nat): int
  {
    ((metadataSize / BLOCK_SIZE) + 1) * BLOCK_SIZE
  }

  /** The data start is a block boundary strictly after the metadata, at most one block later. */
  lemma StartAligned(metadataSize: nat)
    ensures var start := AlignedStart(metadataSize);
      start % BLOCK_SIZE == 0 && metadataSize < start <= metadataSize + BLOCK_SIZE
  {
    var q := metadataSize / BLOCK_SIZE;
    assert metadataSize == q * BLOCK_SIZE + metadataSize % BLOCK_SIZE;
    assert AlignedStart(metadataSize) == q * BLOCK_SIZE + BLOCK_SIZE;
    assert (q + 1) * BLOCK_SIZE % BLOCK_SIZE == 0;
  }

  /** Even an already aligned metadata size moves the start a whole block on. */
  lemma AlignedSizeSkipsBlock(blocks: nat)
    ensures AlignedStart(blocks * BLOCK_SIZE) == blocks * BLOCK_SIZE + BLOCK_SIZE
  {
    assert blocks * BLOCK_SIZE / BLOCK_SIZE == blocks;
  }

  /** a[i], or the exception an out-of-range index raises. */
  function At(a: seq<int>, i: int): (r: Result<int>)
    ensures r.Ok? <==> 0 <= i < |a|
    ensures r.Ok? ==> r.value == a[i]
    ensures r.Err? ==> r.error == IndexOutOfRange
  {
    if 0 <= i < |a| then Ok(a[i]) else Err(IndexOutOfRange)
  }

  /**
   * The size of entry v of an offset table: total minus the offset for the last
   * entry, otherwise the next offset minus this one (GetFeatureCount(video),
   * GetFrameCount(video), GetShotCount).
   */
  function Span(offsets: seq<int>, total: int, v: int): (r: Result<int>)
    ensures r.Ok? <==> 0 <= v < |offsets|
    ensures r.Err? ==> r.error == IndexOutOfRange
  {
    if v == |offsets| - 1 then
      if v < 0 then Err(IndexOutOfRange) else Ok(total - offsets[v])
    else if !(0 <= v + 1 < |offsets|) || v < 0 then Err(IndexOutOfRange)
    else Ok(offsets[v + 1] - offsets[v])
  }

  /** The sizes of entries 0 .. n - 1 added up. */
  function SpanTotal(offsets: seq<int>, total: int, n: nat): int
    requires n <= |offsets|
  {
    if n == 0 then 0 else SpanTotal(offsets, total, n - 1) + Span(offsets, total, n - 1).value
  }

  /**
   * The sizes telescope: the first n entries cover from offsets[0] to the next
   * offset, and all of them together cover from offsets[0] to total.
   */
  lemma {:induction false} SpansCover(offsets: seq<int>, total: int, n: nat)
    requires 1 <= n <= |offsets|
    ensures SpanTotal(offsets, total, n) == (if n == |offsets| then total else offsets[n]) - offsets[0]
    decreases n
  {
    if n > 1 {
      SpansCover(offsets, total, n - 1);
    }
  }

  /**
   * GetFeatureCount(video, shot)'s search for the next shot that has an offset, as
   * written: the entry is read before the position is compared with the length, so
   * running off the end is an index error instead of stopping.
   */
  function SkipAsWritten(offsets: seq<int>, n: int): (r: Result<int>)
    ensures r.Ok? ==> 0 <= n <= r.value < |offsets| && offsets[r.value] != -1
    decreases |offsets| - n
  {
    if !(0 <= n < |offsets|) then Err(IndexOutOfRange)
    else if offsets[n] == -1 && n != |offsets| then SkipAsWritten(offsets, n + 1)
    else Ok(n)
  }

  /**
   * The size of shot s of video v, as written (FeatureReader.GetFeatureCount(video,
   * shot), BitmapReader.GetFrameCount(video, shot)): 0 for a shot without an offset,
   * else up to the next shot with one.
   */
  function ShotSpanAsWritten(shotOffsets: seq<int>, videoShotOffsets: seq<int>, total: int, v: int, s: int): (r: Result<int>)
    ensures r.Ok? ==> 0 <= v < |videoShotOffsets| && 0 <= videoShotOffsets[v] + s < |shotOffsets|
  {
    var first := At(videoShotOffsets, v);
    if first.Err? then Err(first.error)
    else
      var shot := first.value + s;
      var offset := At(shotOffsets, shot);
      if offset.Err? then Err(offset.error)
      else if offset.value == -1 then Ok(0)
      else
        var next := SkipAsWritten(shotOffsets, shot + 1);
        if next.Err? then Err(next.error)
        else if shot == |shotOffsets| - 1 || next.value == |shotOffsets| then Ok(total - offset.value)
        else Ok(shotOffsets[next.value] - offset.value)
  }

  /**
   * The walk of GetFeatureCount(video, shot) and GetFrameCount(video, shot): look
   * up the shot's offset, then step over the -1 entries after it, reading each
   * entry before comparing the position with the table's length.
   */
  method CountShot(shotOffsets: seq<int>, videoShotOffsets: seq<int>, total: int, v: int, s: int) returns (r: Result<int>)
    ensures r == ShotSpanAsWritten(shotOffsets, videoShotOffsets, total, v, s)
  {
    if !(0 <= v < |videoShotOffsets|) {
      return Err(IndexOutOfRange);
    }
    var shotOffset := videoShotOffsets[v] + s;
    if !(0 <= shotOffset < |shotOffsets|) {
      return Err(IndexOutOfRange);
    }
    var offset := shotOffsets[shotOffset];
    if offset == -1 {
      return Ok(0);
    }
    var nextShotOffset := shotOffset + 1;
    while true
      invariant shotOffset < nextShotOffset <= |shotOffsets|
      invariant SkipAsWritten(shotOffsets, nextShotOffset) == SkipAsWritten(shotOffsets, shotOffset + 1)
      decreases |shotOffsets| - nextShotOffset
    {
      if nextShotOffset == |shotOffsets| {
        return Err(IndexOutOfRange);
      }
      if !(shotOffsets[nextShotOffset] == -1 && nextShotOffset != |shotOffsets|) {
        break;
      }
      nextShotOffset := nextShotOffset + 1;
    }
    if shotOffset == |shotOffsets| - 1 || nextShotOffset == |shotOffsets| {
      return Ok(total - offset);
    }
    return Ok(shotOffsets[nextShotOffset] - offset);
  }

  /** The search for the next shot with an offset, stopping at the end of the table. */
  function Skip(offsets: seq<int>, n: nat): (r: nat)
    requires n <= |offsets|
    ensures n <= r <= |offsets| && (r < |offsets| ==> offsets[r] != -1)
    ensures forall k :: n <= k < r ==> offsets[k] == -1
    decreases |offsets| - n
  {
    if n == |offsets| then n
    else if offsets[n] == -1 then Skip(offsets, n + 1)
    else n
  }

  /** The size of a shot as evidently intended: the last shot with an offset runs to the total. */
  function ShotSpan(shotOffsets: seq<int>, videoShotOffsets: seq<int>, total: int, v: int, s: int): Result<int>
  {
    var first := At(videoShotOffsets, v);
    if first.Err? then Err(first.error)
    else
      var shot := first.value + s;
      var offset := At(shotOffsets, shot);
      if offset.Err? then Err(offset.error)
      else if offset.value == -1 then Ok(0)
      else
        var next := Skip(shotOffsets, shot + 1);
        if next == |shotOffsets| then Ok(total - offset.value)
        else Ok(shotOffsets[next] - offset.value)
  }

  /**
   * The intended count never fails on a shot inside the table: it is 0 for a shot
   * without an offset, and otherwise reaches the next shot with an offset or, when
   * there is none, the total.
   */
  lemma ShotSpanDefined(shotOffsets: seq<int>, videoShotOffsets: seq<int>, total: int, v: int, s: int)
    requires 0 <= v < |videoShotOffsets| && 0 <= videoShotOffsets[v] + s < |shotOffsets|
    ensures var shot := videoShotOffsets[v] + s; var r := ShotSpan(shotOffsets, videoShotOffsets, total, v, s);
      r.Ok? && (shotOffsets[shot] == -1 ==> r.value == 0) &&
      (shotOffsets[shot] != -1 ==>
        (forall k :: shot < k < |shotOffsets| ==> shotOffsets[k] == -1) ==> r.value == total - shotOffsets[shot]) &&
      (shotOffsets[shot] != -1 ==> forall k :: (shot < k < |shotOffsets| && shotOffsets[k] != -1 &&
        (forall m :: shot < m < k ==> shotOffsets[m] == -1)) ==> r.value == shotOffsets[k] - shotOffsets[shot])
  {
    var shot := videoShotOffsets[v] + s;
    var next := Skip(shotOffsets, shot + 1);
    forall k | shot < k < |shotOffsets| && shotOffsets[k] != -1 && (forall m :: shot < m < k ==> shotOffsets[m] == -1)
      ensures next == k
    {
      assert next <= k;
      assert next >= k;
    }
  }

  /** Where a later shot has an offset, the code as written agrees with the intended count. */
  lemma {:induction false} SkipAgrees(offsets: seq<int>, n: nat)
    requires n <= |offsets| && Skip(offsets, n) < |offsets|
    ensures SkipAsWritten(offsets, n) == Ok(Skip(offsets, n))
    decreases |offsets| - n
  {
    if n < |offsets| && offsets[n] == -1 {
      SkipAgrees(offsets, n + 1);
    }
  }

  /** With no later shot holding an offset, the search as written runs off the table. */
  lemma {:induction false} SkipOverruns(offsets: seq<int>, n: nat)
    requires n <= |offsets| && Skip(offsets, n) == |offsets|
    ensures SkipAsWritten(offsets, n) == Err(IndexOutOfRange)
    decreases |offsets| - n
  {
    if n < |offsets| {
      SkipOverruns(offsets, n + 1);
    }
  }

  /** The two counts agree on every shot except one with an offset and only empty shots after it. */
  lemma ShotSpanAgrees(shotOffsets: seq<int>, videoShotOffsets: seq<int>, total: int, v: int, s: int)
    requires 0 <= v < |videoShotOffsets| && 0 <= videoShotOffsets[v] + s < |shotOffsets|
    requires var shot := videoShotOffsets[v] + s;
      shotOffsets[shot] == -1 || exists k :: shot < k < |shotOffsets| && shotOffsets[k] != -1
    ensures ShotSpanAsWritten(shotOffsets, videoShotOffsets, total, v, s) == ShotSpan(shotOffsets, videoShotOffsets, total, v, s)
  {
    var shot := videoShotOffsets[v] + s;
    if shotOffsets[shot] != -1 {
      var k :| shot < k < |shotOffsets| && shotOffsets[k] != -1;
      var next := Skip(shotOffsets, shot + 1);
      assert next < |shotOffsets|;
      SkipAgrees(shotOffsets, shot + 1);
    }
  }

  /**
   * The discrepancy: the last shot of the table, when it has an offset, should count
   * up to the total, but the code as written raises an index error for it.
   */
  lemma LastShotOverruns(shotOffsets: seq<int>, videoShotOffsets: seq<int>, total: int, v: int, s: int)
    requires 0 <= v < |videoShotOffsets| && 0 < |shotOffsets| && videoShotOffsets[v] + s == |shotOffsets| - 1
    requires shotOffsets[|shotOffsets| - 1] != -1
    ensures ShotSpanAsWritten(shotOffsets, videoShotOffsets, total, v, s) == Err(IndexOutOfRange)
    ensures ShotSpan(shotOffsets, videoShotOffsets, total, v, s) == Ok(total - shotOffsets[|shotOffsets| - 1])
  {
    SkipOverruns(shotOffsets, |shotOffsets|);
    assert Skip(shotOffsets, |shotOffsets|) == |shotOffsets|;
  }
}
