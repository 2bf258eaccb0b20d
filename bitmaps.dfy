/**
 * BitmapReader (SessionLogViewerApp/BitmapReader.cs): the reader of a thumbnail
 * file. The file is a 32-char header text, six int32 counts, the same six
 * offset and id tables as a feature file, and, from a block-aligned start, the
 * raw 24-bit RGB bitmaps of all frames one after the other. The reader keeps the
 * metadata in its fields, answers id and count queries from them and seeks to a
 * frame's, a video's or a shot's bitmaps to read them.
 */
module Bitmaps {
  import opened Wrappers
  import opened Offsets

  /** The length of the header text read before the counts. */
  const HEADER_LENGTH: nat := 32

  /** Bytes per pixel (BitmapStride): 24-bit RGB. */
  const STRIDE: int := 3

  newtype byte = x: int | 0 <= x < 256

  /**
   * A thumbnail file as the reader sees it: the header text, the int32 values of
   * the metadata in the order they are read, and the bytes from the data start on.
   */
  datatype ThumbnailFile = ThumbnailFile(header: string, words: seq<int>, pixels: seq<byte>)

  /** What ReadHeader leaves in the reader's fields. */
  datatype Layout = Layout(
    width: int, height: int, format: int,
    videoCount: int, shotCount: int, frameCount: int,
    tables: Tables, dataStart: int, bitmapSize: int)

  /** The size of the metadata: the header text, six counts and the six int32 tables. */
  function MetadataSize(videoCount: nat, shotCount: nat, frameCount: nat): nat
  {
    HEADER_LENGTH + 6 * 4 + videoCount * 4 + shotCount * 4 + videoCount * 4 + 3 * frameCount * 4
  }

  /**
   * ReadHeader: width, height, format and the three counts, then the six tables,
   * each allocated (a negative count overflows) before any is read (a short file
   * ends the stream); the data starts at the block after the metadata and each
   * bitmap takes width · height · 3 bytes.
   */
  function LayoutOf(file: ThumbnailFile): Result<Layout>
  {
    var w := file.words;
    if |w| < 6 then Err(EndOfStream)
    else
      var vc, sc, fc := w[3], w[4], w[5];
      if vc < 0 || sc < 0 || fc < 0 then Err(Overflow)
      else if |w| < 6 + vc + sc + vc + 3 * fc then Err(EndOfStream)
      else
        Ok(Layout(w[0], w[1], w[2], vc, sc, fc, TablesAt(w, 6, vc, sc, fc),
          AlignedStart(MetadataSize(vc, sc, fc)), w[0] * w[1] * STRIDE))
  }

  /**
   * The header is read exactly when the file holds enough int32 values and no
   * negative count; each table then has its count's length, the data start is a
   * block boundary past every byte of the metadata, and a bitmap is three bytes
   * per pixel.
   */
  lemma LayoutRead(file: ThumbnailFile)
    ensures var w := file.words; var r := LayoutOf(file);
      (r.Ok? <==> |w| >= 6 && w[3] >= 0 && w[4] >= 0 && w[5] >= 0 && |w| >= 6 + 2 * w[3] + w[4] + 3 * w[5]) &&
      (r.Err? ==> r.error == (if |w| >= 6 && (w[3] < 0 || w[4] < 0 || w[5] < 0) then Overflow else EndOfStream))
    ensures var r := LayoutOf(file);
      r.Ok? ==> var l := r.value; var t := l.tables;
        |t.videoOffsets| == |t.videoShotOffsets| == l.videoCount && |t.shotOffsets| == l.shotCount &&
        |t.toVideoId| == |t.toShotId| == |t.toFrameId| == l.frameCount &&
        var size := HEADER_LENGTH + 4 * (6 + 2 * l.videoCount + l.shotCount + 3 * l.frameCount);
        l.dataStart % BLOCK_SIZE == 0 && size < l.dataStart <= size + BLOCK_SIZE &&
        l.bitmapSize == l.width * l.height * 3
  {
    var w := file.words;
    if |w| >= 6 && w[3] >= 0 && w[4] >= 0 && w[5] >= 0 {
      StartAligned(MetadataSize(w[3], w[4], w[5]));
    }
  }

  /**
   * The tables hold the file's int32 values in order, right after the six counts:
   * video offsets, shot offsets, video-shot offsets, then the video id, shot id
   * and frame-in-video id of every frame.
   */
  lemma LayoutTables(file: ThumbnailFile, l: Layout)
    requires LayoutOf(file) == Ok(l)
    ensures var w := file.words; var t := l.tables;
      var a := 6 + l.videoCount; var b := a + l.shotCount; var c := b + l.videoCount;
      var d := c + l.frameCount; var e := d + l.frameCount;
      0 <= a <= b <= c <= d <= e && e + l.frameCount <= |w| &&
      t.videoOffsets == w[6..a] && t.shotOffsets == w[a..b] && t.videoShotOffsets == w[b..c] &&
      t.toVideoId == w[c..d] && t.toShotId == w[d..e] && t.toFrameId == w[e..e + l.frameCount]
  {
    hide TablesAt, Ints, AlignedStart, MetadataSize;
    var w := file.words;
    TablesLayout(w, 6, w[3], w[4], w[5]);
  }

  /** The header text is read but never compared with the expected one. */
  lemma HeaderTextIgnored(file: ThumbnailFile, header: string)
    ensures LayoutOf(file.(header := header)) == LayoutOf(file)
  {
    assert file.(header := header).words == file.words;
  }

  /**
   * ReadBytes(count) at file position pos (at or after the data start): up to
   * count bytes, fewer where the file ends; a negative count is a bad argument.
   */
  function ReadBytes(pixels: seq<byte>, dataStart: int, pos: int, count: int): (r: Result<seq<byte>>)
    ensures r.Ok? ==> 0 <= count && dataStart <= pos && |r.value| <= count
    ensures r.Ok? && pos - dataStart + count <= |pixels| ==> r.value == pixels[pos - dataStart..pos - dataStart + count]
    ensures r.Ok? && 0 < count && pos - dataStart + count > |pixels| ==> |r.value| < count
  {
    if count < 0 then Err(ArgumentOutOfRange)
    else if pos < dataStart then Err(IO)
    else
      var p := pos - dataStart;
      if p >= |pixels| then Ok([])
      else if p + count <= |pixels| then Ok(pixels[p..p + count])
      else Ok(pixels[p..])
  }

  /** The file holds size bytes from position pos on (nothing is needed for no bytes). */
  predicate Holds(pixels: seq<byte>, dataStart: int, pos: int, size: int)
  {
    0 <= size && dataStart <= pos && (size == 0 || pos - dataStart + size <= |pixels|)
  }

  /**
   * ReadBytes followed by Marshal.Copy of size bytes into the bitmap: the copy
   * rejects a read cut short by the end of the file.
   */
  function CopyBitmap(pixels: seq<byte>, dataStart: int, pos: int, size: int): (r: Result<seq<byte>>)
    ensures r.Ok? <==> Holds(pixels, dataStart, pos, size)
    ensures r.Ok? ==> |r.value| == size && (size > 0 ==> r.value == pixels[pos - dataStart..pos - dataStart + size])
  {
    var bytes :- ReadBytes(pixels, dataStart, pos, size);
    if |bytes| < size then Err(ArgumentOutOfRange) else Ok(bytes)
  }

  class BitmapReader {
    const file: ThumbnailFile

    const bitmapWidth: int
    const bitmapHeight: int
    const bitmapFormat: int
    const videoCount: int
    const shotCount: int
    const frameCount: int
    const videoOffsets: seq<int>
    const shotOffsets: seq<int>
    const videoShotOffsets: seq<int>
    const frameToVideoId: seq<int>
    const frameToShotId: seq<int>
    const frameToVideoFrameId: seq<int>
    const bitmapDataStartOffset: int
    const bitmapSize: int

    /** The layout the fields hold. */
    function Current(): Layout
    {
      Layout(bitmapWidth, bitmapHeight, bitmapFormat, videoCount, shotCount, frameCount,
        Tables(videoOffsets, shotOffsets, videoShotOffsets, frameToVideoId, frameToShotId, frameToVideoFrameId),
        bitmapDataStartOffset, bitmapSize)
    }

    /** A reader over the file whose fields hold the layout l; they are set only while it is constructed. */
    constructor (file: ThumbnailFile, l: Layout)
      ensures this.file == file && Current() == l
    {
      this.file := file;
      bitmapWidth, bitmapHeight, bitmapFormat := l.width, l.height, l.format;
      videoCount, shotCount, frameCount := l.videoCount, l.shotCount, l.frameCount;
      videoOffsets, shotOffsets, videoShotOffsets := l.tables.videoOffsets, l.tables.shotOffsets, l.tables.videoShotOffsets;
      frameToVideoId, frameToShotId, frameToVideoFrameId := l.tables.toVideoId, l.tables.toShotId, l.tables.toFrameId;
      bitmapDataStartOffset, bitmapSize := l.dataStart, l.bitmapSize;
    }

    /**
     * ReadHeader: the header text, the six counts, then the six tables. The values
     * are returned rather than stored: a read that throws ends the construction.
     */
    static method ReadHeader(file: ThumbnailFile) returns (r: Result<Layout>)
      ensures r == LayoutOf(file)
    {
      var w := file.words;
      if |w| < 6 {
        return Err(EndOfStream);
      }
      var width, height, format := w[0], w[1], w[2];
      var vc, sc, fc := w[3], w[4], w[5];
      if vc < 0 || sc < 0 || fc < 0 {
        return Err(Overflow);
      }
      if |w| < 6 + vc + sc + vc + 3 * fc {
        return Err(EndOfStream);
      }
      var tables := ReadTables(w, 6, vc, sc, fc);
      var start := AlignedStart(MetadataSize(vc, sc, fc));
      return Ok(Layout(width, height, format, vc, sc, fc, tables, start, width * height * STRIDE));
    }

    /** The BitmapReader constructor: a reader whose fields hold the file's layout, or the exception reading it throws. */
    static method Open(file: ThumbnailFile) returns (r: Result<BitmapReader>)
      ensures var l := LayoutOf(file);
        (r.Ok? <==> l.Ok?) && (r.Err? ==> r.error == l.error)
      ensures r.Ok? ==> (fresh(r.value) && r.value.file == file && r.value.Current() == LayoutOf(file).value)
    {
      var l := ReadHeader(file);
      if l.Err? {
        return Err(l.error);
      }
      var reader := new BitmapReader(file, l.value);
      return Ok(reader);
    }

    /**
     * ReadFrame: a new bitmap (a width or height that is not positive is rejected),
     * a seek to start + frameId · bitmapSize (before the file start an IO error),
     * and the copy of bitmapSize bytes from there.
     */
    function ReadFrame(frameId: int): (r: Result<seq<byte>>)
      ensures var pos := bitmapDataStartOffset + frameId * bitmapSize;
        r.Ok? <==> bitmapWidth > 0 && bitmapHeight > 0 && 0 <= pos && Holds(file.pixels, bitmapDataStartOffset, pos, bitmapSize)
      ensures var pos := bitmapDataStartOffset + frameId * bitmapSize;
        r.Ok? ==> (|r.value| == bitmapSize &&
          (bitmapSize > 0 ==> r.value == file.pixels[pos - bitmapDataStartOffset..pos - bitmapDataStartOffset + bitmapSize]))
      ensures var pos := bitmapDataStartOffset + frameId * bitmapSize;
        r.Err? ==> r.error == (if bitmapWidth <= 0 || bitmapHeight <= 0 then Argument
          else if pos < 0 then IO else if bitmapSize < 0 then ArgumentOutOfRange
          else if pos < bitmapDataStartOffset then IO else ArgumentOutOfRange)
    {
      if bitmapWidth <= 0 || bitmapHeight <= 0 then Err(Argument)
      else
        var pos := bitmapDataStartOffset + frameId * bitmapSize;
        if pos < 0 then Err(IO)
        else CopyBitmap(file.pixels, bitmapDataStartOffset, pos, bitmapSize)
    }

    /** The count frames from first on, read in order; the first frame that cannot be read ends it. */
    function Frames(first: int, count: nat): Result<seq<seq<byte>>>
    {
      if count == 0 then Ok([])
      else
        var before :- Frames(first, count - 1);
        var frame :- ReadFrame(first + count - 1);
        Ok(before + [frame])
    }

    /**
     * Frames read in a row are the frames read one by one: the run succeeds exactly
     * when each of its frames can be read, holds them in order, and otherwise fails
     * with the exception of the first frame that cannot be read.
     */
    lemma {:induction false} FramesAt(first: int, count: nat)
      ensures Frames(first, count).Ok? <==> forall f :: first <= f < first + count ==> ReadFrame(f).Ok?
      ensures Frames(first, count).Ok? ==> (|Frames(first, count).value| == count &&
        forall f :: first <= f < first + count ==> ReadFrame(f) == Ok(Frames(first, count).value[f - first]))
      ensures Frames(first, count).Err? ==> exists f :: (first <= f < first + count && ReadFrame(f) == Err(Frames(first, count).error) &&
        forall g :: first <= g < f ==> ReadFrame(g).Ok?)
    {
      if count > 0 {
        FramesAt(first, count - 1);
        var last := first + count - 1;
        var before := Frames(first, count - 1);
        if before.Ok? && ReadFrame(last).Ok? {
          var frames := before.value + [ReadFrame(last).value];
          assert Frames(first, count) == Ok(frames);
          forall f | first <= f < first + count
            ensures ReadFrame(f) == Ok(frames[f - first])
          {
            if f < last {
              assert frames[f - first] == before.value[f - first];
            }
          }
        }
      }
    }

    /** A run stops at its first frame that cannot be read, with that frame's exception. */
    lemma FramesStop(first: int, i: nat, count: nat)
      requires i < count && Frames(first, i).Ok? && ReadFrame(first + i).Err?
      ensures Frames(first, count) == Err(ReadFrame(first + i).error)
    {
      FramesAt(first, i);
      FramesAt(first, count);
      var f :| first <= f < first + count && ReadFrame(f) == Err(Frames(first, count).error) &&
        forall g :: first <= g < f ==> ReadFrame(g).Ok?;
      assert f == first + i;
    }

    /**
     * The loop of ReadVideo and ReadShot: seek to the first frame's bitmap, then
     * for each frame make a bitmap and copy the next bitmapSize bytes into it.
     */
    method ReadRun(first: int, count: nat) returns (r: Result<seq<seq<byte>>>)
      ensures r == if bitmapDataStartOffset + first * bitmapSize < 0 then Err(IO) else Frames(first, count)
    {
      var pos := bitmapDataStartOffset + first * bitmapSize;
      if pos < 0 {
        return Err(IO);
      }
      var frames: seq<seq<byte>> := [];
      var i := 0;
      while i < count
        invariant 0 <= i <= count
        invariant pos == bitmapDataStartOffset + (first + i) * bitmapSize
        invariant 0 <= pos && (i > 0 ==> 0 <= bitmapSize)
        invariant Frames(first, i) == Ok(frames)
      {
        if bitmapWidth <= 0 || bitmapHeight <= 0 {
          FramesStop(first, i, count);
          return Err(Argument);
        }
        var bitmap := CopyBitmap(file.pixels, bitmapDataStartOffset, pos, bitmapSize);
        assert bitmap == ReadFrame(first + i);
        if bitmap.Err? {
          FramesStop(first, i, count);
          return Err(bitmap.error);
        }
        frames := frames + [bitmap.value];
        assert (first + i + 1) * bitmapSize == (first + i) * bitmapSize + bitmapSize;
        pos := pos + bitmapSize;
        i := i + 1;
      }
      return Ok(frames);
    }

    /** GetFrameCount(video): the size of the video's span in the video offsets, the last one running to FrameCount. */
    function GetFrameCount(videoId: int): (r: Result<int>)
      ensures r.Ok? <==> 0 <= videoId < |videoOffsets|
      ensures r.Ok? ==> r.value == (if videoId == |videoOffsets| - 1 then frameCount else videoOffsets[videoId + 1]) - videoOffsets[videoId]
      ensures r.Err? ==> r.error == IndexOutOfRange
    {
      Span(videoOffsets, frameCount, videoId)
    }

    /** GetShotCount: the same pattern over the video-shot offsets, the last one running to ShotCount. */
    function GetShotCount(videoId: int): (r: Result<int>)
      ensures r.Ok? <==> 0 <= videoId < |videoShotOffsets|
      ensures r.Ok? ==> r.value == (if videoId == |videoShotOffsets| - 1 then shotCount else videoShotOffsets[videoId + 1]) - videoShotOffsets[videoId]
      ensures r.Err? ==> r.error == IndexOutOfRange
    {
      Span(videoShotOffsets, shotCount, videoId)
    }

    /** GetFrameCount(video, shot): 0 for a shot without frames (offset -1), else up to the next shot with frames (CountShot). */
    method GetShotFrameCount(videoId: int, shotId: int) returns (r: Result<int>)
      ensures r == ShotSpanAsWritten(shotOffsets, videoShotOffsets, frameCount, videoId, shotId)
    {
      r := CountShot(shotOffsets, videoShotOffsets, frameCount, videoId, shotId);
    }

    /** GetGlobalFrameId: the video's first frame plus the frame within the video. */
    function GetGlobalFrameId(videoId: int, videoFrameId: int): (r: Result<int>)
      ensures r.Ok? <==> 0 <= videoId < |videoOffsets|
      ensures r.Ok? ==> r.value == videoOffsets[videoId] + videoFrameId
      ensures r.Err? ==> r.error == IndexOutOfRange
    {
      var offset :- At(videoOffsets, videoId);
      Ok(offset + videoFrameId)
    }

    /** GetGlobalShotFrameId: the video's first entry in the shot table plus the shot within the video. */
    function GetGlobalShotFrameId(videoId: int, shotId: int): (r: Result<int>)
      ensures r.Ok? <==> 0 <= videoId < |videoShotOffsets|
      ensures r.Ok? ==> r.value == videoShotOffsets[videoId] + shotId
      ensures r.Err? ==> r.error == IndexOutOfRange
    {
      var offset :- At(videoShotOffsets, videoId);
      Ok(offset + shotId)
    }

    /** GetGlobalVideoFrameId: the video's first frame. */
    function GetGlobalVideoFrameId(videoId: int): (r: Result<int>)
      ensures r.Ok? <==> 0 <= videoId < |videoOffsets|
      ensures r.Ok? ==> r.value == videoOffsets[videoId]
    {
      At(videoOffsets, videoId)
    }

    /** GetVideoId, GetShotId and GetVideoFrameId of a global frame: lookups in the per-frame tables. */
    function GetVideoId(globalFrameId: int): (r: Result<int>)
      ensures r.Ok? <==> 0 <= globalFrameId < |frameToVideoId|
      ensures r.Ok? ==> r.value == frameToVideoId[globalFrameId]
    {
      At(frameToVideoId, globalFrameId)
    }

    function GetShotId(globalFrameId: int): (r: Result<int>)
      ensures r.Ok? <==> 0 <= globalFrameId < |frameToShotId|
      ensures r.Ok? ==> r.value == frameToShotId[globalFrameId]
    {
      At(frameToShotId, globalFrameId)
    }

    function GetVideoFrameId(globalFrameId: int): (r: Result<int>)
      ensures r.Ok? <==> 0 <= globalFrameId < |frameToVideoFrameId|
      ensures r.Ok? ==> r.value == frameToVideoFrameId[globalFrameId]
    {
      At(frameToVideoFrameId, globalFrameId)
    }

    /** GetShotId(video, frame): the shot of the video's frame, through its global frame id. */
    function GetVideoShotId(videoId: int, videoFrameId: int): (r: Result<int>)
      ensures r.Ok? <==> 0 <= videoId < |videoOffsets| && 0 <= videoOffsets[videoId] + videoFrameId < |frameToShotId|
      ensures r.Ok? ==> r.value == frameToShotId[videoOffsets[videoId] + videoFrameId]
    {
      var globalFrameId :- GetGlobalFrameId(videoId, videoFrameId);
      GetShotId(globalFrameId)
    }

    /**
     * What ReadVideo returns: the video's frame count (a negative one cannot size
     * the array), then its frames read in a row from the video's first frame.
     */
    function VideoFrames(videoId: int): Result<seq<seq<byte>>>
    {
      var count :- GetFrameCount(videoId);
      if count < 0 then Err(Overflow)
      else
        var first := videoOffsets[videoId];
        if bitmapDataStartOffset + first * bitmapSize < 0 then Err(IO) else Frames(first, count)
    }

    /** ReadVideo: allocate the array, seek to the video's first bitmap and read its frames in a row. */
    method ReadVideo(videoId: int) returns (r: Result<seq<seq<byte>>>)
      ensures r == VideoFrames(videoId)
    {
      var count := GetFrameCount(videoId);
      if count.Err? {
        return Err(count.error);
      }
      if count.value < 0 {
        return Err(Overflow);
      }
      r := ReadRun(videoOffsets[videoId], count.value);
    }

    /** The frames of a video are its frames read one by one, frame i at the video's global frame id i. */
    lemma VideoReadsFrames(videoId: int)
      requires VideoFrames(videoId).Ok?
      ensures GetFrameCount(videoId).Ok? && |VideoFrames(videoId).value| == GetFrameCount(videoId).value
      ensures forall i :: 0 <= i < GetFrameCount(videoId).value ==>
        GetGlobalFrameId(videoId, i).Ok? && ReadFrame(GetGlobalFrameId(videoId, i).value) == Ok(VideoFrames(videoId).value[i])
    {
      var count := GetFrameCount(videoId).value;
      var first := videoOffsets[videoId];
      var frames := Frames(first, count);
      assert VideoFrames(videoId) == frames;
      FramesAt(first, count);
      forall i | 0 <= i < count
        ensures GetGlobalFrameId(videoId, i).Ok? && ReadFrame(GetGlobalFrameId(videoId, i).value) == Ok(frames.value[i])
      {
        var f := first + i;
        assert GetGlobalFrameId(videoId, i) == Ok(f);
        assert ReadFrame(f) == Ok(frames.value[f - first]);
      }
    }

    /**
     * What ReadShot returns, as written: the shot's frame count, then a seek to the
     * bitmap its shot offset names and the frames from there. For a shot without
     * frames the offset is -1, and the seek still happens.
     */
    function ShotFrames(videoId: int, shotId: int): Result<seq<seq<byte>>>
    {
      var count :- ShotSpanAsWritten(shotOffsets, videoShotOffsets, frameCount, videoId, shotId);
      if count < 0 then Err(Overflow)
      else
        var first := shotOffsets[videoShotOffsets[videoId] + shotId];
        if bitmapDataStartOffset + first * bitmapSize < 0 then Err(IO) else Frames(first, count)
    }

    /** ReadShot: allocate the array, seek to the shot's first bitmap and read its frames in a row. */
    method ReadShot(videoId: int, shotId: int) returns (r: Result<seq<seq<byte>>>)
      ensures r == ShotFrames(videoId, shotId)
    {
      var count := GetShotFrameCount(videoId, shotId);
      if count.Err? {
        return Err(count.error);
      }
      if count.value < 0 {
        return Err(Overflow);
      }
      var shotOffset := videoShotOffsets[videoId] + shotId;
      r := ReadRun(shotOffsets[shotOffset], count.value);
    }

    /** The frames of a shot are the frames read one by one from the shot's offset on. */
    lemma ShotReadsFrames(videoId: int, shotId: int)
      requires ShotFrames(videoId, shotId).Ok?
      ensures var count := ShotSpanAsWritten(shotOffsets, videoShotOffsets, frameCount, videoId, shotId);
        var shot := GetGlobalShotFrameId(videoId, shotId);
        count.Ok? && shot.Ok? && 0 <= shot.value < |shotOffsets| && |ShotFrames(videoId, shotId).value| == count.value &&
        forall i :: 0 <= i < count.value ==> ReadFrame(shotOffsets[shot.value] + i) == Ok(ShotFrames(videoId, shotId).value[i])
    {
      var count := ShotSpanAsWritten(shotOffsets, videoShotOffsets, frameCount, videoId, shotId).value;
      var shot := videoShotOffsets[videoId] + shotId;
      var first := shotOffsets[shot];
      var frames := Frames(first, count);
      assert ShotFrames(videoId, shotId) == frames;
      assert GetGlobalShotFrameId(videoId, shotId) == Ok(shot);
      FramesAt(first, count);
      forall i | 0 <= i < count
        ensures ReadFrame(shotOffsets[GetGlobalShotFrameId(videoId, shotId).value] + i) == Ok(ShotFrames(videoId, shotId).value[i])
      {
        var f := first + i;
        assert shotOffsets[GetGlobalShotFrameId(videoId, shotId).value] + i == f;
        assert ReadFrame(f) == Ok(frames.value[f - first]);
      }
    }

    /**
     * The discrepancy: a shot without frames has offset -1, so ReadShot seeks one
     * bitmap before the data start, which lies before the file start whenever a
     * bitmap is larger than the metadata block, and the empty read throws.
     */
    lemma EmptyShotSeekFails(videoId: int, shotId: int)
      requires ShotSpanAsWritten(shotOffsets, videoShotOffsets, frameCount, videoId, shotId).Ok?
      requires shotOffsets[videoShotOffsets[videoId] + shotId] == -1
      requires bitmapDataStartOffset < bitmapSize
      ensures ShotFrames(videoId, shotId) == Err(IO)
      ensures ShotFramesIntended(videoId, shotId) == Ok([])
    {
    }

    /** ReadShot as evidently intended: a shot without frames reads nothing and seeks nowhere. */
    function ShotFramesIntended(videoId: int, shotId: int): Result<seq<seq<byte>>>
    {
      var count :- ShotSpanAsWritten(shotOffsets, videoShotOffsets, frameCount, videoId, shotId);
      if count < 0 then Err(Overflow)
      else if count == 0 then Ok([])
      else
        var first := shotOffsets[videoShotOffsets[videoId] + shotId];
        if bitmapDataStartOffset + first * bitmapSize < 0 then Err(IO) else Frames(first, count)
    }

    /**
     * The intended read returns no frames exactly for a shot with none, and agrees
     * with ReadShot as written on every shot that has frames.
     */
    lemma ShotFramesIntendedAgrees(videoId: int, shotId: int)
      ensures var count := ShotSpanAsWritten(shotOffsets, videoShotOffsets, frameCount, videoId, shotId);
        count == Ok(0) ==> ShotFramesIntended(videoId, shotId) == Ok([])
      ensures var count := ShotSpanAsWritten(shotOffsets, videoShotOffsets, frameCount, videoId, shotId);
        !(count.Ok? && count.value == 0) ==> ShotFramesIntended(videoId, shotId) == ShotFrames(videoId, shotId)
    {
    }

    /**
     * A frame within a video's count has a global id inside the video's span: from
     * the video's first frame up to the next video's first frame, or FrameCount.
     */
    lemma FrameWithinVideo(videoId: int, videoFrameId: int)
      requires GetFrameCount(videoId).Ok? && 0 <= videoFrameId < GetFrameCount(videoId).value
      ensures var id := GetGlobalFrameId(videoId, videoFrameId);
        id.Ok? && videoOffsets[videoId] <= id.value &&
        id.value < (if videoId == |videoOffsets| - 1 then frameCount else videoOffsets[videoId + 1])
    {
    }
  }
}
