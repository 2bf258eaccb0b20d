/**
 * FeatureReader (BrowsingSimulatorCLI/FeatureReader.cs): the reader of a feature
 * file. The file is a text header, a table of int32 counts and offsets, and,
 * from a block-aligned start, the float vectors of all features one after the
 * other. The reader keeps the header in its fields and answers id, count and
 * nearest-neighbour queries from them.
 */
module Features {
  import opened Wrappers
  import opened Text
  import opened Offsets
  import opened TopK

  /**
   * A feature file as the reader sees it: the three 16-char text fields, the
   * int32 values of the header in the order they are read, and the floats from
   * the data start on.
   */
  datatype FeatureFile = FeatureFile(magic: string, networkName: string, networkLayer: string, words: seq<int>, data: seq<real>)

  /** What ReadHeader leaves in the reader's fields. */
  datatype Header = Header(
    networkName: string, networkLayer: string,
    videoCount: int, shotCount: int, featureCount: int, featureDimension: int,
    tables: Tables, dataStart: int)

  /** The size of the metadata: three 16-byte texts, four counts and the six int32 tables. */
  function MetadataSize(videoCount: nat, shotCount: nat, featureCount: nat): nat
  {
    3 * 16 + 4 * 4 + videoCount * 4 + shotCount * 4 + videoCount * 4 + 3 * featureCount * 4
  }

  /**
   * ReadHeader: with metadata, the names, the two counts before the feature count
   * and dimension, then the tables, each allocated (a negative count overflows)
   * before any is read (a short file ends the stream); without metadata only the
   * feature count and dimension, and the data right after them.
   */
  function HeaderOf(file: FeatureFile, loadMetadata: bool): Result<Header>
  {
    var w := file.words;
    if !loadMetadata then
      if |w| < 2 then Err(EndOfStream)
      else Ok(Header("", "", 0, 0, w[0], w[1], Tables([], [], [], [], [], []), 2 * 4))
    else if |w| < 4 then Err(EndOfStream)
    else
      var vc, sc, fc := w[0], w[1], w[2];
      if vc < 0 || sc < 0 || fc < 0 then Err(Overflow)
      else if |w| < 4 + vc + sc + vc + 3 * fc then Err(EndOfStream)
      else
        Ok(Header(Trim(file.networkName), Trim(file.networkLayer), vc, sc, fc, w[3],
          TablesAt(w, 4, vc, sc, fc), AlignedStart(MetadataSize(vc, sc, fc))))
  }

  /**
   * The header is read exactly when the file holds enough int32 values and no
   * negative count; each table then has its count's length, and the data start
   * is a block boundary past every byte the header occupies (or 8 without metadata).
   */
  lemma HeaderRead(file: FeatureFile, loadMetadata: bool)
    ensures var w := file.words; var r := HeaderOf(file, loadMetadata);
      !loadMetadata ==> (r.Ok? <==> |w| >= 2) && (r.Ok? ==> r.value.dataStart == 8 && r.value.featureCount == w[0])
    ensures var w := file.words; var r := HeaderOf(file, loadMetadata);
      loadMetadata ==>
        (r.Ok? <==> |w| >= 4 && w[0] >= 0 && w[1] >= 0 && w[2] >= 0 && |w| >= 4 + 2 * w[0] + w[1] + 3 * w[2]) &&
        (r.Err? ==> r.error == (if |w| >= 4 && (w[0] < 0 || w[1] < 0 || w[2] < 0) then Overflow else EndOfStream))
    ensures var r := HeaderOf(file, loadMetadata);
      r.Ok? && loadMetadata ==> var h := r.value;
        var t := h.tables;
        |t.videoOffsets| == |t.videoShotOffsets| == h.videoCount && |t.shotOffsets| == h.shotCount &&
        |t.toVideoId| == |t.toShotId| == |t.toFrameId| == h.featureCount &&
        var size := 3 * 16 + 4 * (4 + 2 * h.videoCount + h.shotCount + 3 * h.featureCount);
        h.dataStart % BLOCK_SIZE == 0 && size < h.dataStart <= size + BLOCK_SIZE
  {
    var w := file.words;
    if loadMetadata && |w| >= 4 && w[0] >= 0 && w[1] >= 0 && w[2] >= 0 {
      StartAligned(MetadataSize(w[0], w[1], w[2]));
    }
  }

  /**
   * The tables hold the file's int32 values in order, right after the four counts:
   * video offsets, shot offsets, video-shot offsets, then the video id, shot id
   * and frame id of every feature.
   */
  lemma HeaderTables(file: FeatureFile, h: Header)
    requires HeaderOf(file, true) == Ok(h)
    ensures var w := file.words; var t := h.tables;
      var a := 4 + h.videoCount; var b := a + h.shotCount; var c := b + h.videoCount;
      var d := c + h.featureCount; var e := d + h.featureCount;
      0 <= a <= b <= c <= d <= e && e + h.featureCount <= |w| &&
      t.videoOffsets == w[4..a] && t.shotOffsets == w[a..b] && t.videoShotOffsets == w[b..c] &&
      t.toVideoId == w[c..d] && t.toShotId == w[d..e] && t.toFrameId == w[e..e + h.featureCount]
  {
    hide TablesAt, Ints;
    var w := file.words;
    TablesLayout(w, 4, w[0], w[1], w[2]);
  }

  /** The 16-char magic header is read but never compared with anything. */
  lemma MagicIgnored(file: FeatureFile, loadMetadata: bool, magic: string)
    ensures HeaderOf(file.(magic := magic), loadMetadata) == HeaderOf(file, loadMetadata)
  {
    var other := file.(magic := magic);
    assert other.words == file.words && other.networkName == file.networkName && other.networkLayer == file.networkLayer;
  }

  /** The floats of `len` consecutive features' worth at pos, zero-padded where the file ends (new float[dim] filled by BlockCopy). */
  function Window(data: seq<real>, pos: nat, len: nat): (w: seq<real>)
    ensures |w| == len
  {
    seq(len, j requires 0 <= j < len => if pos + j < |data| then data[pos + j] else 0.0)
  }

  /** The floats FindSimilar reads for feature i when it reads the data front to back: dim of them, fewer at the end. */
  function Chunk(data: seq<real>, dim: nat, i: nat): (c: seq<real>)
    ensures |c| <= dim
  {
    var lo := if i * dim < |data| then i * dim else |data|;
    var hi := if lo + dim < |data| then lo + dim else |data|;
    data[lo..hi]
  }

  /** The match FindSimilar computes for feature j: its floats, its id and its distance to the query. */
  function Candidate(query: seq<real>, data: seq<real>, dim: nat, j: nat, distance: (seq<real>, seq<real>) -> real): Match
  {
    Match(Chunk(data, dim, j), j, distance(query, Chunk(data, dim, j)))
  }

  /** The matches FindSimilar computes for the first n features, in scan order. */
  function Candidates(query: seq<real>, data: seq<real>, dim: nat, n: nat, distance: (seq<real>, seq<real>) -> real): (cs: seq<Match>)
    ensures |cs| == n
  {
    if n == 0 then [] else Candidates(query, data, dim, n - 1, distance) + [Candidate(query, data, dim, n - 1, distance)]
  }

  /** Candidate j sits at position j, so the candidates are numbered in scan order. */
  lemma {:induction false} CandidateAt(query: seq<real>, data: seq<real>, dim: nat, n: nat, distance: (seq<real>, seq<real>) -> real)
    ensures forall j :: 0 <= j < n ==> Candidates(query, data, dim, n, distance)[j] == Candidate(query, data, dim, j, distance)
    ensures Numbered(Candidates(query, data, dim, n, distance), n)
  {
    if n > 0 {
      CandidateAt(query, data, dim, n - 1, distance);
    }
  }

  /** Feature i has all its dim floats exactly when the data reaches past its end. */
  lemma ChunkFull(data: seq<real>, dim: nat, i: nat)
    ensures |Chunk(data, dim, i)| == dim <==> (i + 1) * dim <= |data|
  {
    assert (i + 1) * dim == i * dim + dim;
  }

  /** A later feature ends no earlier. */
  lemma EndsInOrder(dim: nat, i: nat, n: nat)
    requires i < n
    ensures (i + 1) * dim <= n * dim
  {
    assert n * dim == (i + 1) * dim + (n - i - 1) * dim;
  }

  /** The floats of feature featuresId, for data starting at dataStart with dim floats per feature. */
  function ReadFeatures(data: seq<real>, dataStart: int, dim: int, featuresId: int): (r: Result<seq<real>>)
    ensures r.Ok? ==> dim >= 0 && |r.value| == dim
  {
    if dataStart + featuresId * dim * 4 < 0 then Err(IO)
    else if dim < 0 then Err(ArgumentOutOfRange)
    else if featuresId * dim < 0 then Err(IO)
    else Ok(Window(data, featuresId * dim, dim))
  }

  class FeatureReader {
    const file: FeatureFile
    const loadMetadata: bool

    const networkName: string
    const networkLayer: string
    const videoCount: int
    const shotCount: int
    const featureCount: int
    const featureDimension: int
    const videoOffsets: seq<int>
    const shotOffsets: seq<int>
    const videoShotOffsets: seq<int>
    const featureToVideoId: seq<int>
    const featureToShotId: seq<int>
    const featureToFrameId: seq<int>
    const featureDataStartOffset: int

    /** The header the fields hold. */
    function Current(): Header
    {
      Header(networkName, networkLayer, videoCount, shotCount, featureCount, featureDimension,
        Tables(videoOffsets, shotOffsets, videoShotOffsets, featureToVideoId, featureToShotId, featureToFrameId),
        featureDataStartOffset)
    }

    /**
     * A reader over the file whose fields hold the header h. The fields are set
     * only while the reader is constructed, so they are constants here.
     */
    constructor (file: FeatureFile, loadMetadata: bool, h: Header)
      ensures this.file == file && this.loadMetadata == loadMetadata && Current() == h
    {
      this.file := file;
      this.loadMetadata := loadMetadata;
      networkName, networkLayer := h.networkName, h.networkLayer;
      videoCount, shotCount, featureCount, featureDimension := h.videoCount, h.shotCount, h.featureCount, h.featureDimension;
      videoOffsets, shotOffsets, videoShotOffsets := h.tables.videoOffsets, h.tables.shotOffsets, h.tables.videoShotOffsets;
      featureToVideoId, featureToShotId, featureToFrameId := h.tables.toVideoId, h.tables.toShotId, h.tables.toFrameId;
      featureDataStartOffset := h.dataStart;
    }

    /**
     * ReadHeader: without metadata the feature count and dimension; with metadata
     * the two names and four counts, then the six tables, all allocated before any
     * is read. The values are returned rather than stored: a read that throws ends
     * the construction, and the reader's fields are set from a header read whole.
     */
    static method ReadHeader(file: FeatureFile, loadMetadata: bool) returns (r: Result<Header>)
      ensures r == HeaderOf(file, loadMetadata)
    {
      var w := file.words;
      if !loadMetadata {
        if |w| < 2 {
          return Err(EndOfStream);
        }
        return Ok(Header("", "", 0, 0, w[0], w[1], Tables([], [], [], [], [], []), 2 * 4));
      }
      if |w| < 4 {
        return Err(EndOfStream);
      }
      var name := Trim(file.networkName);
      var layer := Trim(file.networkLayer);
      var vc, sc, fc, dim := w[0], w[1], w[2], w[3];
      if vc < 0 || sc < 0 || fc < 0 {
        return Err(Overflow);
      }
      if |w| < 4 + vc + sc + vc + 3 * fc {
        return Err(EndOfStream);
      }
      var tables := ReadTables(w, 4, vc, sc, fc);
      var start := AlignedStart(MetadataSize(vc, sc, fc));
      return Ok(Header(name, layer, vc, sc, fc, dim, tables, start));
    }

    /** The FeatureReader constructor: a reader whose fields hold the file's header, or the exception reading it throws. */
    static method Open(file: FeatureFile, loadMetadata: bool) returns (r: Result<FeatureReader>)
      ensures var h := HeaderOf(file, loadMetadata);
        (r.Ok? <==> h.Ok?) && (r.Err? ==> r.error == h.error)
      ensures r.Ok? ==> (fresh(r.value) && r.value.file == file && r.value.loadMetadata == loadMetadata &&
        r.value.Current() == HeaderOf(file, loadMetadata).value)
    {
      var h := ReadHeader(file, loadMetadata);
      if h.Err? {
        return Err(h.error);
      }
      var reader := new FeatureReader(file, loadMetadata, h.value);
      return Ok(reader);
    }

    /**
     * GetFeatures: seek to start + id·dim·4 and read dim floats. A seek before the
     * file start is an IO error and a negative dimension a bad read length; the
     * floats past the end of the file stay 0.
     */
    function GetFeatures(featuresId: int): (r: Result<seq<real>>)
      ensures r.Ok? ==> featureDimension >= 0 && |r.value| == featureDimension
    {
      ReadFeatures(file.data, featureDataStartOffset, featureDimension, featuresId)
    }

    /** A feature whose floats all lie in the data is read as exactly those dim floats. */
    lemma FeaturesAt(featuresId: int)
      requires featureDataStartOffset >= 0 && featureDimension >= 0 && featuresId >= 0
      requires featuresId * featureDimension + featureDimension <= |file.data|
      ensures GetFeatures(featuresId) == Ok(file.data[featuresId * featureDimension..featuresId * featureDimension + featureDimension])
    {
      var dim := featureDimension;
      var pos := featuresId * dim;
      assert featuresId * dim * 4 == pos * 4;
      assert pos >= 0;
      assert Window(file.data, pos, dim) == file.data[pos..pos + dim];
    }

    /** GetFeatureId: the offset of the shot in the shot table plus the frame within it. */
    function GetFeatureId(videoId: int, shotId: int, videoFrameId: int): (r: Result<int>)
      ensures r.Ok? <==> loadMetadata && 0 <= videoId < |videoShotOffsets| && 0 <= videoShotOffsets[videoId] + shotId < |shotOffsets|
      ensures r.Ok? ==> r.value == shotOffsets[videoShotOffsets[videoId] + shotId] + videoFrameId
      ensures r.Err? ==> r.error == (if loadMetadata then IndexOutOfRange else NullReference)
    {
      if !loadMetadata then Err(NullReference)
      else
        var shotOffset :- At(videoShotOffsets, videoId);
        var featureOffset :- At(shotOffsets, shotOffset + shotId);
        Ok(featureOffset + videoFrameId)
    }

    /** GetFeatureCount(video): the size of the video's span in the video offsets, the last one running to FeatureCount. */
    function GetFeatureCount(videoId: int): (r: Result<int>)
      ensures r.Ok? <==> loadMetadata && 0 <= videoId < |videoOffsets|
      ensures r.Ok? ==> r.value == (if videoId == |videoOffsets| - 1 then featureCount else videoOffsets[videoId + 1]) - videoOffsets[videoId]
    {
      if !loadMetadata then Err(NullReference) else Span(videoOffsets, featureCount, videoId)
    }

    /** GetShotCount: the same pattern over the video-shot offsets, the last one running to ShotCount. */
    function GetShotCount(videoId: int): (r: Result<int>)
      ensures r.Ok? <==> loadMetadata && 0 <= videoId < |videoShotOffsets|
      ensures r.Ok? ==> r.value == (if videoId == |videoShotOffsets| - 1 then shotCount else videoShotOffsets[videoId + 1]) - videoShotOffsets[videoId]
    {
      if !loadMetadata then Err(NullReference) else Span(videoShotOffsets, shotCount, videoId)
    }

    /**
     * GetFeatureCount(video, shot): 0 for a shot without features (offset -1), else
     * the distance to the next shot with features, found by walking over the -1
     * entries (CountShot).
     */
    method GetShotFeatureCount(videoId: int, shotId: int) returns (r: Result<int>)
      ensures !loadMetadata ==> r == Err(NullReference)
      ensures loadMetadata ==> r == ShotSpanAsWritten(shotOffsets, videoShotOffsets, featureCount, videoId, shotId)
    {
      if !loadMetadata {
        return Err(NullReference);
      }
      r := CountShot(shotOffsets, videoShotOffsets, featureCount, videoId, shotId);
    }

    /**
     * FindSimilar: read the query's features, then scan the data for the best
     * matches among all FeatureCount features.
     */
    method FindSimilar(featureId: int, kResults: int, distance: (seq<real>, seq<real>) -> real) returns (r: Result<seq<Match>>)
      ensures var q := GetFeatures(featureId); var n := if featureCount < 0 then 0 else featureCount;
        (r.Ok? <==> q.Ok? && n * featureDimension <= |file.data|) &&
        (r.Err? ==> r.error == (if q.Err? then q.error else IndexOutOfRange)) &&
        (r.Ok? ==> Best(r.value, Candidates(q.value, file.data, featureDimension, n, distance), n, kResults)) &&
        (r.Ok? ==> r.value == OfferAll(Candidates(q.value, file.data, featureDimension, n, distance), n, kResults))
    {
      var q := GetFeatures(featureId);
      if q.Err? {
        return Err(q.error);
      }
      r := Scan(q.value, file.data, featureDimension, featureCount, kResults, distance);
    }
  }

  /**
   * FindSimilar's scan: the data is read front to back, one feature's floats at a
   * time, and each feature is offered with its distance to the query to the result
   * buffer. A feature with fewer floats than the query makes the distance read
   * past its end. The result is the best of all the features, ranked.
   */
  method Scan(query: seq<real>, data: seq<real>, dim: nat, count: int, kResults: int, distance: (seq<real>, seq<real>) -> real)
    returns (r: Result<seq<Match>>)
    requires |query| == dim
    ensures var n := if count < 0 then 0 else count;
      (r.Ok? <==> n * dim <= |data|) && (r.Err? ==> r.error == IndexOutOfRange) &&
      (r.Ok? ==> Best(r.value, Candidates(query, data, dim, n, distance), n, kResults)) &&
      (r.Ok? ==> r.value == OfferAll(Candidates(query, data, dim, n, distance), n, kResults))
  {
    var n := if count < 0 then 0 else count;
    ghost var cs := Candidates(query, data, dim, n, distance);
    var results: seq<Match> := [];
    assert results == OfferAll(cs, 0, kResults);
    hide *;
    var i := 0;
    while i < count
      invariant 0 <= i <= n
      invariant results == OfferAll(cs, i, kResults)
      invariant i * dim <= |data|
    {
      var fits;
      fits, results := ScanFeature(query, data, dim, i, n, kResults, distance, results);
      if !fits {
        EndsInOrder(dim, i, n);
        assert n * dim > |data|;
        return Err(IndexOutOfRange);
      }
      i := i + 1;
    }
    assert i == n;
    CandidateAt(query, data, dim, n, distance);
    OfferAllBest(cs, n, kResults);
    return Ok(results);
  }

  /** One feature of the scan: read its floats and, when they are all there, offer it. */
  method ScanFeature(query: seq<real>, data: seq<real>, dim: nat, i: nat, n: nat, kResults: int,
                     distance: (seq<real>, seq<real>) -> real, results: seq<Match>) returns (fits: bool, next: seq<Match>)
    requires |query| == dim && i < n && results == OfferAll(Candidates(query, data, dim, n, distance), i, kResults)
    ensures fits <==> (i + 1) * dim <= |data|
    ensures fits ==> next == OfferAll(Candidates(query, data, dim, n, distance), i + 1, kResults)
  {
    var floats := Chunk(data, dim, i);
    ChunkFull(data, dim, i);
    if |floats| < |query| {
      return false, results;
    }
    var m := Match(floats, i, distance(query, floats));
    assert m == Candidate(query, data, dim, i, distance);
    CandidateAt(query, data, dim, n, distance);
    next := Offer(results, m, kResults);
    fits := true;
  }

  /**
   * A frame inside a shot's count has a feature id inside the shot's span: from
   * the shot's offset up to the offset where the next shot with features starts.
   */
  lemma FeatureIdWithinShot(reader: FeatureReader, videoId: int, shotId: int, videoFrameId: int)
    requires reader.loadMetadata
    requires ShotSpanAsWritten(reader.shotOffsets, reader.videoShotOffsets, reader.featureCount, videoId, shotId).Ok?
    requires 0 <= videoFrameId < ShotSpanAsWritten(reader.shotOffsets, reader.videoShotOffsets, reader.featureCount, videoId, shotId).value
    ensures var id := reader.GetFeatureId(videoId, shotId, videoFrameId);
      var shot := reader.videoShotOffsets[videoId] + shotId;
      id.Ok? && 0 <= shot < |reader.shotOffsets| && reader.shotOffsets[shot] <= id.value &&
      id.value < reader.shotOffsets[shot] + ShotSpanAsWritten(reader.shotOffsets, reader.videoShotOffsets, reader.featureCount, videoId, shotId).value
  {
  }
}
