/**
 * The heuristic clustering tool (DescriptorClusteringHeuristicCLI/Program.cs):
 * it reads the descriptors of a feature file, runs the divisive clustering with
 * one seed count per layer and a common iteration count, reports the computing
 * time, and writes the deepest layer as the text file the simulator's command
 * line loads: one line "centroidId:meanId:id;id;..." per centroid.
 * The output file is the sequence of its lines and the stopwatch reading is a
 * parameter; the console messages are not modelled.
 */
module HeuristicCli {
  import opened Wrappers
  import opened Text
  import opened Structures
  import opened Clustering
  import opened Hierarchy
  import Cli
  import opened Features
  import opened DotNetRandom
  import opened Divisive

  // ---------------------------------------------------------------------------
  // Arguments

  /** The command line: two file names, then a seed count and an iteration count per layer. */
  datatype Arguments = Arguments(descriptorFile: string, outputFile: string, seedCounts: seq<int>, iterationCounts: seq<int>)

  /**
   * Main's argument handling: args[0] and args[1] are the file names, args[2] the
   * iteration count of every layer and args[3..] the seed counts, each through
   * Int32.Parse in order; a missing argument is an index error and the first
   * number that does not parse ends the run with its exception.
   */
  method ParseArguments(args: seq<string>) returns (r: Result<Arguments>)
    ensures r.Ok? <==> |args| >= 3 && forall i :: 2 <= i < |args| ==> ParseInt32(args[i]).Ok?
    ensures r.Ok? ==>
      r.value.descriptorFile == args[0] && r.value.outputFile == args[1] &&
      |r.value.seedCounts| == |args| - 3 == |r.value.iterationCounts| &&
      (forall i :: 3 <= i < |args| ==> r.value.seedCounts[i - 3] == ParseInt32(args[i]).value) &&
      (forall i :: 0 <= i < |args| - 3 ==> r.value.iterationCounts[i] == ParseInt32(args[2]).value)
    ensures |args| < 3 ==> r == Err(IndexOutOfRange)
    ensures |args| >= 3 && r.Err? ==>
      exists i :: 2 <= i < |args| && ParseInt32(args[i]).Err? && r.error == ParseInt32(args[i]).error &&
        forall k :: 2 <= k < i ==> ParseInt32(args[k]).Ok?
  {
    hide *;
    if |args| < 3 {
      return Err(IndexOutOfRange);
    }
    var iterationCount := ParseInt32(args[2]);
    if iterationCount.Err? {
      return Err(iterationCount.error);
    }
    var seedCounts := Cli.ParseEach(args[3..], ParseInt32);
    Cli.ParseAllSpec(args[3..], |args| - 3, ParseInt32);
    if seedCounts.Err? {
      ghost var i :| 0 <= i < |args| - 3 && ParseInt32(args[3..][i]).Err? && seedCounts.error == ParseInt32(args[3..][i]).error &&
        forall k :: 0 <= k < i ==> ParseInt32(args[3..][k]).Ok?;
      assert forall k :: 2 <= k < i + 3 ==> ParseInt32(args[k]).Ok? by {
        forall k | 3 <= k < i + 3 ensures ParseInt32(args[k]).Ok? {
          assert args[3..][k - 3] == args[k];
        }
      }
      assert args[3..][i] == args[i + 3];
      return Err(seedCounts.error);
    }
    assert forall i :: 3 <= i < |args| ==> args[3..][i - 3] == args[i];
    var iterationCounts := seq(|args| - 3, _ => iterationCount.value);
    return Ok(Arguments(args[0], args[1], seedCounts.value, iterationCounts));
  }

  // ---------------------------------------------------------------------------
  // LoadArrayDescriptors

  /**
   * LoadArrayDescriptors: a reader without metadata over the file, then one
   * descriptor per feature, with the feature's index as its id and the floats
   * GetFeatures reads as its values; a negative feature count fails to allocate.
   */
  method LoadArrayDescriptors(file: FeatureFile) returns (r: Result<seq<Descriptor>>)
    ensures r.Ok? <==> Loads(file)
    ensures var h := HeaderOf(file, false);
      (h.Err? ==> r == Err(h.error)) &&
      (h.Ok? && h.value.featureCount < 0 ==> r == Err(Overflow))
    ensures r.Ok? ==> HeaderOf(file, false).Ok? && |r.value| == HeaderOf(file, false).value.featureCount
    ensures r.Ok? ==> forall i :: 0 <= i < |r.value| ==> fresh(r.value[i]) && fresh(r.value[i].values)
    ensures r.Ok? ==> forall i :: 0 <= i < |r.value| ==> r.value[i].id == i
    ensures r.Ok? ==> forall i :: 0 <= i < |r.value| ==> FeaturesOf(file, i) == Ok(r.value[i].values[..])
  {
    var reader := FeatureReader.Open(file, false);
    if reader.Err? {
      return Err(reader.error);
    }
    var featureReader := reader.value;
    if featureReader.featureCount < 0 {
      return Err(Overflow);
    }
    var descriptors: seq<Descriptor> := [];
    for i := 0 to featureReader.featureCount
      invariant |descriptors| == i
      invariant forall j :: 0 <= j < i ==> fresh(descriptors[j]) && fresh(descriptors[j].values)
      invariant forall j :: 0 <= j < i ==> descriptors[j].id == j
      invariant forall j :: 0 <= j < i ==> FeaturesOf(file, j) == Ok(descriptors[j].values[..])
    {
      var features := featureReader.GetFeatures(i);
      if features.Err? {
        assert FeaturesOf(file, i).Err?;
        return Err(features.error);
      }
      var values := new real[|features.value|](k requires 0 <= k < |features.value| => features.value[k]);
      assert values[..] == features.value;
      var descriptor := new Descriptor(i, values);
      descriptors := descriptors + [descriptor];
    }
    return Ok(descriptors);
  }

  /** The file opens without metadata, its feature count is not negative and every feature reads. */
  ghost predicate Loads(file: FeatureFile)
  {
    HeaderOf(file, false).Ok? && HeaderOf(file, false).value.featureCount >= 0 &&
    forall i :: 0 <= i < HeaderOf(file, false).value.featureCount ==> FeaturesOf(file, i).Ok?
  }

  /**
   * A file loads exactly when it holds both counts, the feature count is not
   * negative and, when there is a feature to read, so is the dimension.
   */
  lemma LoadsExactly(file: FeatureFile)
    ensures Loads(file) <==> |file.words| >= 2 && file.words[0] >= 0 && (file.words[0] > 0 ==> file.words[1] >= 0)
  {
    if |file.words| >= 2 && file.words[0] >= 0 {
      var dim := file.words[1];
      if dim >= 0 {
        forall i | 0 <= i < file.words[0] ensures FeaturesOf(file, i).Ok? {
          FeaturesOfWithoutMetadata(file, i);
        }
      } else if file.words[0] > 0 {
        assert FeaturesOf(file, 0).Err?;
      }
    }
  }

  /** The descriptors of a loaded file all have the file's dimension. */
  lemma LoadedUniform(file: FeatureFile, ds: seq<Descriptor>)
    requires HeaderOf(file, false).Ok? && |ds| == HeaderOf(file, false).value.featureCount
    requires forall i :: 0 <= i < |ds| ==> FeaturesOf(file, i) == Ok(ds[i].values[..])
    ensures Uniform(Vals(ds))
  {
    forall i | 0 <= i < |ds| ensures |Vals(ds)[i]| == file.words[1] {
      assert Vals(ds)[i] == FeaturesOf(file, i).value;
    }
  }

  /** GetFeatures(i) of a reader without metadata over the file. */
  function FeaturesOf(file: FeatureFile, i: int): (r: Result<seq<real>>)
    requires HeaderOf(file, false).Ok?
    ensures r.Ok? ==> |r.value| == file.words[1]
  {
    var h := HeaderOf(file, false).value;
    ReadFeatures(file.data, h.dataStart, h.featureDimension, i)
  }

  /**
   * Without metadata the data starts after the two counts and every feature of a
   * non-negative index and dimension is read: the descriptors LoadArrayDescriptors
   * returns hold the file's floats in order, dim at a time (zeros past the end of
   * the data).
   */
  lemma FeaturesOfWithoutMetadata(file: FeatureFile, i: nat)
    requires |file.words| >= 2 && file.words[1] >= 0
    ensures FeaturesOf(file, i) == Ok(Window(file.data, i * file.words[1], file.words[1]))
  {
    var dim := file.words[1];
    assert HeaderOf(file, false).value.dataStart == 8;
    assert i * dim >= 0;
    assert i * dim * 4 >= 0;
  }

  // ---------------------------------------------------------------------------
  // Computing time

  /** The hours, minutes and seconds Main reports. */
  datatype Duration = Duration(hours: int, minutes: int, seconds: int)

  /** C#'s integer quotient, rounded toward zero. */
  function Quot(a: int, b: int): int
    requires b > 0
  {
    if a >= 0 then a / b else -((-a) / b)
  }

  /** C#'s integer remainder, which takes the sign of the dividend. */
  function Rem(a: int, b: int): int
    requires b > 0
  {
    a - Quot(a, b) * b
  }

  /**
   * The computing time: the stopwatch's milliseconds as whole seconds (cast to
   * Int32), split into hours, minutes of the remainder and seconds of that.
   */
  function ComputingTime(elapsedMilliseconds: nat): (t: Duration)
    ensures t.hours * 3600 + t.minutes * 60 + t.seconds == Wrap32(elapsedMilliseconds / 1000)
    ensures -60 < t.minutes < 60 && -60 < t.seconds < 60
    ensures elapsedMilliseconds / 1000 <= INT32_MAX ==> 0 <= t.hours && 0 <= t.minutes && 0 <= t.seconds
  {
    var elapsedSeconds := Wrap32(elapsedMilliseconds / 1000);
    var hours := Quot(elapsedSeconds, 60 * 60);
    var secondsRemainder := Rem(elapsedSeconds, 60 * 60);
    var minutes := Quot(secondsRemainder, 60);
    var seconds := Rem(secondsRemainder, 60);
    Duration(hours, minutes, seconds)
  }

  // ---------------------------------------------------------------------------
  // WriteToTextFile

  /** The line WriteToTextFile writes for a centroid: "centroidId:meanId:" and the ids joined by ';'. */
  function LayerLine(centroidId: int, meanId: int, ids: seq<int>): string
  {
    IntToString(centroidId) + ":" + IntToString(meanId) + ":" + Join(IntsToStrings(ids), ';')
  }

  /**
   * WriteToTextFile: one line per centroid in array order, each written id by id
   * with ';' before every id but the first. A centroid without a mean throws
   * when its line starts; the lines before it are already in the file.
   */
  method WriteToTextFile(cs: seq<Centroid>) returns (lines: seq<string>, outcome: Outcome)
    ensures outcome.Pass? <==> HasMeans(cs)
    ensures outcome.Fail? ==> outcome.error == NullReference && |lines| < |cs| && cs[|lines|].mean == null
    ensures outcome.Pass? ==> |lines| == |cs|
    ensures forall k :: 0 <= k < |lines| ==>
      cs[k].mean != null && lines[k] == LayerLine(cs[k].id, cs[k].mean.id, IdsOf(cs[k].descriptors))
    ensures WroteLayer(lines, outcome, cs)
  {
    hide LayerLine, IdsOf, IntToString, Join, IntsToStrings;
    lines := [];
    for k := 0 to |cs|
      invariant |lines| == k
      invariant forall j :: 0 <= j < k ==>
        cs[j].mean != null && lines[j] == LayerLine(cs[j].id, cs[j].mean.id, IdsOf(cs[j].descriptors))
    {
      var centroid := cs[k];
      if centroid.mean == null {
        return lines, Fail(NullReference);
      }
      var line := WriteCentroid(centroid.id, centroid.mean.id, centroid.descriptors);
      lines := lines + [line];
    }
    return lines, Pass;
  }

  /** The text of one centroid's line, written piece by piece as the writer receives it. */
  method WriteCentroid(centroidId: int, meanId: int, descriptors: seq<Descriptor>) returns (line: string)
    ensures line == LayerLine(centroidId, meanId, IdsOf(descriptors))
  {
    hide *;
    var head := IntToString(centroidId) + ":" + IntToString(meanId) + ":";
    ghost var texts := IntsToStrings(IdsOf(descriptors));
    LayerLineHead(centroidId, meanId, IdsOf(descriptors));
    line := head;
    var isFirst := true;
    for j := 0 to |descriptors|
      invariant isFirst <==> j == 0
      invariant line == head + Join(texts[..j], ';')
    {
      var text := IntToString(descriptors[j].id);
      JoinStep(head, texts, j, ';');
      if isFirst {
        line := line + text;
        isFirst := false;
      } else {
        line := line + ";" + text;
      }
    }
    assert texts[..|descriptors|] == texts;
  }

  /** A layer line is its two ids, each followed by ':', then the member texts joined by ';'; no member text joins to "". */
  lemma LayerLineHead(centroidId: int, meanId: int, ids: seq<int>)
    ensures LayerLine(centroidId, meanId, ids) ==
      IntToString(centroidId) + ":" + IntToString(meanId) + ":" + Join(IntsToStrings(ids), ';')
    ensures Join(IntsToStrings(ids)[..0], ';') == ""
  {
    assert IntsToStrings(ids)[..0] == [];
  }

  /** The text after one more part: the part alone after the first, else a separator and the part. */
  lemma JoinStep(head: string, parts: seq<string>, j: nat, sep: char)
    requires j < |parts|
    ensures head + Join(parts[..j + 1], sep) ==
      if j == 0 then head + parts[j] else head + Join(parts[..j], sep) + [sep] + parts[j]
  {
    assert parts[..j + 1] == parts[..j] + [parts[j]];
    if j == 0 {
      assert parts[..j + 1] == [parts[j]];
    } else {
      JoinSnoc(parts[..j], sep, parts[j]);
    }
  }

  /** Appending a part to a non-empty list appends the separator and the part. */
  lemma {:induction false} JoinSnoc(parts: seq<string>, sep: char, part: string)
    requires |parts| >= 1
    ensures Join(parts + [part], sep) == Join(parts, sep) + [sep] + part
    decreases |parts|
  {
    if |parts| > 1 {
      JoinSnoc(parts[1..], sep, part);
      assert (parts + [part])[1..] == parts[1..] + [part];
    }
  }

  /**
   * The simulator reads back every line the tool writes for a non-empty list:
   * the mean's id and the descriptor ids in list order, the centroid id being
   * parsed and dropped. The line of an empty list ends in an empty member token,
   * which Int32.Parse rejects.
   */
  lemma LayerLineRoundTrip(centroidId: int, meanId: int, ids: seq<int>)
    requires IsInt32(centroidId) && IsInt32(meanId) && forall i :: 0 <= i < |ids| ==> IsInt32(ids[i])
    ensures |ids| > 0 ==> Cli.ParseLayerLine(LayerLine(centroidId, meanId, ids)) == Ok((meanId, ids))
    ensures |ids| == 0 ==> Cli.ParseLayerLine(LayerLine(centroidId, meanId, ids)) == Err(Format)
  {
    hide LayerLine, Join, IntsToStrings, IntToString, Split, ParseInt32, Cli.ParseMembers;
    var a, b := IntToString(centroidId), IntToString(meanId);
    var members := Join(IntsToStrings(ids), ';');
    LayerLineTokens(centroidId, meanId, ids);
    IntToStringParses(centroidId);
    IntToStringParses(meanId);
    MembersRoundTrip(ids);
    var tokens := [a, b, members];
    assert Cli.ParseLayerLine(LayerLine(centroidId, meanId, ids)) == Cli.ParseLayerTokens(tokens);
  }

  /** A written line splits at ':' into the centroid id, the mean id and the member list. */
  lemma LayerLineTokens(centroidId: int, meanId: int, ids: seq<int>)
    ensures Split(LayerLine(centroidId, meanId, ids), ':') ==
      [IntToString(centroidId), IntToString(meanId), Join(IntsToStrings(ids), ';')]
  {
    hide IntToString, IntsToStrings, Split, ParseInt32;
    var a, b := IntToString(centroidId), IntToString(meanId);
    var parts := IntsToStrings(ids);
    var members := Join(parts, ';');
    NumberClean(':', centroidId, 0);
    NumberClean(':', meanId, 0);
    forall i | 0 <= i < |parts| ensures ':' !in parts[i] {
      NumberClean(':', ids[i], 0);
    }
    JoinKeepsOut(parts, ';', ':');
    var tokens := [a, b, members];
    assert Join([members], ':') == members;
    assert tokens[1..] == [b, members] && tokens[1..][1..] == [members];
    assert Join([b, members], ':') == b + ":" + members;
    assert Join(tokens, ':') == a + ":" + (b + ":" + members);
    assert LayerLine(centroidId, meanId, ids) == Join(tokens, ':');
    SplitJoin(tokens, ':');
  }

  /** The member list reads back as the ids, and the empty list fails as an empty number. */
  lemma MembersRoundTrip(ids: seq<int>)
    requires forall i :: 0 <= i < |ids| ==> IsInt32(ids[i])
    ensures |ids| > 0 ==> Cli.ParseMembers(Join(IntsToStrings(ids), ';')) == Ok(ids)
    ensures |ids| == 0 ==> Cli.ParseMembers(Join(IntsToStrings(ids), ';')) == Err(Format)
  {
    if |ids| > 0 {
      MembersReadBack(ids);
    } else {
      MembersEmpty(ids);
    }
  }

  /** A non-empty member list splits at ';' into the ids' texts, each of which reads back. */
  lemma MembersReadBack(ids: seq<int>)
    requires |ids| > 0 && forall i :: 0 <= i < |ids| ==> IsInt32(ids[i])
    ensures Cli.ParseMembers(Join(IntsToStrings(ids), ';')) == Ok(ids)
  {
    var parts := IntsToStrings(ids);
    hide IntToString, IntsToStrings, Split, ParseInt32, Join;
    forall i | 0 <= i < |parts| ensures ';' !in parts[i] && ParseInt32(parts[i]) == Ok(ids[i]) {
      NumberClean(';', ids[i], 0);
      IntToStringParses(ids[i]);
    }
    SplitJoin(parts, ';');
    Cli.ParseAllSpec(parts, |parts|, ParseInt32);
    var r := Cli.ParseAll(parts, |parts|, ParseInt32);
    assert r.Ok? && |r.value| == |ids|;
    assert forall i :: 0 <= i < |ids| ==> r.value[i] == ids[i];
    assert r.value == ids;
  }

  /** The empty member list is the empty text, which Int32.Parse rejects. */
  lemma MembersEmpty(ids: seq<int>)
    requires |ids| == 0
    ensures Cli.ParseMembers(Join(IntsToStrings(ids), ';')) == Err(Format)
  {
    EmptyIsNoNumber();
    hide ParseInt32;
    var members := Join(IntsToStrings(ids), ';');
    assert members == "";
    assert Split(members, ';') == [""];
  }

  /** Int32.Parse rejects the empty text as a format error. */
  lemma EmptyIsNoNumber()
    ensures ParseInt32("") == Err(Format)
  {
    assert TrimEnd(TrimStart("")) == "";
  }

  /**
   * The file the tool writes for a layer of non-empty clusters loads as that
   * layer: the simulator's layer table, one (meanId, ids) entry per centroid in
   * array order.
   */
  lemma LayerFileRoundTrip(centroidIds: seq<int>, table: Table, lines: seq<string>)
    requires |centroidIds| == |table| == |lines|
    requires forall k :: 0 <= k < |lines| ==> lines[k] == LayerLine(centroidIds[k], table[k].0, table[k].1)
    requires forall k :: 0 <= k < |lines| ==> IsInt32(centroidIds[k]) && IsInt32(table[k].0) && |table[k].1| > 0
    requires forall k, i :: 0 <= k < |lines| && 0 <= i < |table[k].1| ==> IsInt32(table[k].1[i])
    ensures Cli.ParseLayerFile(lines) == Ok(table)
  {
    forall k | 0 <= k < |lines| ensures Cli.ParseLayerLine(lines[k]) == Ok(table[k]) {
      LayerLineRoundTrip(centroidIds[k], table[k].0, table[k].1);
    }
    assert Cli.ParseLayerFile(lines) == Cli.ParseAll(lines, |lines|, Cli.ParseLayerLine);
    hide *;
    ParseAllOk(lines, |lines|, Cli.ParseLayerLine, table);
    assert table[..|lines|] == table;
  }

  /** Parsing elements that all parse gives their values in order. */
  lemma {:induction false} ParseAllOk<T, U>(xs: seq<T>, n: nat, parse: T -> Result<U>, values: seq<U>)
    requires n <= |xs| == |values| && forall k :: 0 <= k < |xs| ==> parse(xs[k]) == Ok(values[k])
    ensures Cli.ParseAll(xs, n, parse) == Ok(values[..n])
    decreases n
  {
    if n > 0 {
      ParseAllOk(xs, n - 1, parse, values);
      assert values[..n - 1] + [values[n - 1]] == values[..n];
    }
  }

  // ---------------------------------------------------------------------------
  // Main

  /** The random seed Main clusters with. */
  const RandomSeed := 5334

  /** Every argument from the iteration count on parses as an Int32. */
  ghost predicate Parses(args: seq<string>)
  {
    |args| >= 3 && forall i :: 2 <= i < |args| ==> ParseInt32(args[i]).Ok?
  }

  /** The seed counts Main reads: args[3..], parsed. */
  ghost function SeedCounts(args: seq<string>): (seeds: seq<int>)
    requires Parses(args)
    ensures |seeds| == |args| - 3
  {
    seq(|args| - 3, i requires 0 <= i < |args| - 3 => ParseInt32(args[i + 3]).value)
  }

  /** The iteration counts Main builds: args[2], parsed, once per layer. */
  ghost function IterationCounts(args: seq<string>): (its: seq<int>)
    requires Parses(args)
    ensures |its| == |args| - 3
  {
    seq(|args| - 3, _ => ParseInt32(args[2]).value)
  }

  /** The descriptors LoadArrayDescriptors returns for the file: feature i, with id i. */
  ghost predicate LoadedFrom(file: FeatureFile, ds: seq<Descriptor>)
    reads set i | 0 <= i < |ds| :: ds[i].values
  {
    HeaderOf(file, false).Ok? && |ds| == HeaderOf(file, false).value.featureCount &&
    forall i :: 0 <= i < |ds| ==> ds[i].id == i && FeaturesOf(file, i) == Ok(ds[i].values[..])
  }

  /**
   * What WriteToTextFile leaves for a layer: the lines of its first centroids,
   * all of them exactly when it passes, and otherwise a null reference at the
   * first centroid without a mean.
   */
  ghost predicate WroteLayer(lines: seq<string>, outcome: Outcome, layer: seq<Centroid>)
    reads set k | 0 <= k < |layer| :: layer[k]
  {
    WrittenFrom(lines, layer) && (outcome.Pass? <==> |lines| == |layer|) &&
    (outcome.Fail? ==> |lines| < |layer| && outcome.error == NullReference && layer[|lines|].mean == null)
  }

  /** The lines WriteToTextFile writes for the first |lines| centroids of the layer. */
  ghost predicate WrittenFrom(lines: seq<string>, layer: seq<Centroid>)
    reads set k | 0 <= k < |layer| :: layer[k]
  {
    |lines| <= |layer| &&
    forall k :: 0 <= k < |lines| ==>
      layer[k].mean != null && lines[k] == LayerLine(layer[k].id, layer[k].mean.id, IdsOf(layer[k].descriptors))
  }

  /**
   * The clustering and the output of Main (Program.cs:46-63): a divisive
   * clustering of the descriptors with the given seed and iteration counts and
   * the stream of its random seed, then the deepest layer it stored written by
   * WriteToTextFile. An error of the clustering ends the run before the file is
   * opened. `layers` are the layers stored.
   */
  method ClusterAndWrite(descriptors: seq<Descriptor>, seeds: seq<int>, its: seq<int>, stream: nat -> int)
    returns (lines: seq<string>, outcome: Outcome, ghost layers: seq<seq<Centroid>>)
    requires IsSampleStream(stream) && Uniform(Vals(descriptors))
    modifies descriptors`centroid
    ensures seeds == [] || its == [] ==> lines == [] && outcome == Fail(ArgumentOutOfRange)
    ensures |lines| > 0 || outcome.Pass? ==>
      |layers| == |seeds| > 0 && Layered(layers, its, descriptors) && WroteLayer(lines, outcome, layers[|layers| - 1])
  {
    layers := [];
    hide *;
    var clustering := new ClusteringDivisive(descriptors);
    var deltas;
    ghost var built, sizes;
    deltas, built, sizes := clustering.Clusterize(Some(seeds), Some(its), stream);
    if deltas.Err? {
      return [], Fail(deltas.error), layers;
    }
    var stored := clustering.centroids.value;
    layers := stored;
    lines, outcome := WriteToTextFile(stored[|stored| - 1]);
  }

  /**
   * The start of Main (Program.cs:25-40): the arguments parsed, then the
   * descriptor file loaded. It succeeds exactly when every number parses and
   * the file loads; the descriptors are new objects of one dimension.
   */
  method Prepare(args: seq<string>, file: FeatureFile) returns (r: Result<(Arguments, seq<Descriptor>)>)
    ensures r.Ok? <==> Parses(args) && Loads(file)
    ensures |args| < 3 ==> r == Err(IndexOutOfRange)
    ensures r.Ok? ==> r.value.0.seedCounts == SeedCounts(args) && r.value.0.iterationCounts == IterationCounts(args)
    ensures r.Ok? ==> LoadedFrom(file, r.value.1) && Uniform(Vals(r.value.1))
    ensures r.Ok? ==> forall i :: 0 <= i < |r.value.1| ==> fresh(r.value.1[i])
  {
    var arguments := ParseArguments(args);
    if arguments.Err? {
      return Err(arguments.error);
    }
    assert arguments.value.seedCounts == SeedCounts(args) && arguments.value.iterationCounts == IterationCounts(args);
    var loaded := LoadArrayDescriptors(file);
    if loaded.Err? {
      return Err(loaded.error);
    }
    LoadedUniform(file, loaded.value);
    return Ok((arguments.value, loaded.value));
  }

  /**
   * Main (Program.cs:18-63), with `file` the content of the descriptor file and
   * `seeded` the samples of each seeded System.Random: the arguments parsed,
   * the descriptors loaded, the divisive clustering run with one seed count per
   * layer, the common iteration count and seed 5334, and the deepest layer the
   * clustering stored written to the output file. `lines` are the lines
   * written and `outcome` the exception that ended the run, if any; the ghost
   * `descriptors` and `layers` are the data loaded and the layers stored. With
   * no seed count the clustering rejects its empty seed array and nothing is
   * written.
   */
  method Run(args: seq<string>, file: FeatureFile, seeded: int -> (nat -> int))
    returns (lines: seq<string>, outcome: Outcome, ghost descriptors: seq<Descriptor>, ghost layers: seq<seq<Centroid>>)
    requires SeedsStreams(seeded)
    ensures |args| < 3 ==> lines == [] && outcome == Fail(IndexOutOfRange)
    ensures !Parses(args) ==> lines == [] && outcome.Fail?
    ensures Parses(args) && !Loads(file) ==> lines == [] && outcome.Fail?
    ensures Parses(args) && Loads(file) && |args| == 3 ==> lines == [] && outcome == Fail(ArgumentOutOfRange)
    ensures |lines| > 0 || outcome.Pass? ==>
      Parses(args) && Loads(file) && |args| > 3 && LoadedFrom(file, descriptors) &&
      |layers| == |args| - 3 && Layered(layers, IterationCounts(args), descriptors) &&
      WroteLayer(lines, outcome, layers[|layers| - 1])
  {
    lines, outcome, descriptors, layers := [], Pass, [], [];
    var prepared := Prepare(args, file);
    if prepared.Err? {
      outcome := Fail(prepared.error);
    } else {
      var arguments, loaded := prepared.value.0, prepared.value.1;
      descriptors := loaded;
      lines, outcome, layers := ClusterLoaded(args, file, arguments, loaded, seeded);
    }
  }

  /** The part of Main after a successful load: cluster with seed 5334 and write the deepest layer. */
  method ClusterLoaded(args: seq<string>, file: FeatureFile, arguments: Arguments, loaded: seq<Descriptor>,
                       seeded: int -> (nat -> int))
    returns (lines: seq<string>, outcome: Outcome, ghost layers: seq<seq<Centroid>>)
    requires SeedsStreams(seeded) && Parses(args) && Loads(file)
    requires arguments.seedCounts == SeedCounts(args) && arguments.iterationCounts == IterationCounts(args)
    requires LoadedFrom(file, loaded) && Uniform(Vals(loaded))
    modifies loaded`centroid
    ensures |args| == 3 ==> lines == [] && outcome == Fail(ArgumentOutOfRange)
    ensures |lines| > 0 || outcome.Pass? ==>
      |args| > 3 && LoadedFrom(file, loaded) &&
      |layers| == |args| - 3 && Layered(layers, IterationCounts(args), loaded) &&
      WroteLayer(lines, outcome, layers[|layers| - 1])
  {
    hide *;
    SeededRun(args, arguments, seeded);
    lines, outcome, layers := ClusterAndWrite(loaded, arguments.seedCounts, arguments.iterationCounts, seeded(RandomSeed));
  }

  /** Main's generator is a sample stream, and it asks for one layer per seed count from args[3] on. */
  lemma SeededRun(args: seq<string>, arguments: Arguments, seeded: int -> (nat -> int))
    requires SeedsStreams(seeded) && Parses(args) && arguments.seedCounts == SeedCounts(args)
    ensures IsSampleStream(seeded(RandomSeed)) && |arguments.seedCounts| == |args| - 3
  {
  }
}
