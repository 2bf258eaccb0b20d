/**
 * The simulator's command line (BrowsingSimulatorCLI/Program.cs): the argument
 * layout, the comma-separated parameter lists, the clustering layer files and the
 * name of each parameter combination's output directory. Files are given as their
 * lines; reading them, the descriptor file and the class mapping are not modelled.
 */
module Cli {
  import opened Wrappers
  import opened Text
  import opened Hierarchy

  /**
   * parse applied to xs[0], ..., xs[n - 1] in order, as a loop of Int32.Parse or of
   * line parses does it: every value when all succeed, else the exception of the
   * first one that fails.
   */
  function ParseAll<T, U>(xs: seq<T>, n: nat, parse: T -> Result<U>): Result<seq<U>>
    requires n <= |xs|
  {
    if n == 0 then Ok([])
    else
      var front := ParseAll(xs, n - 1, parse);
      if front.Err? then Err(front.error)
      else
        var last := parse(xs[n - 1]);
        if last.Err? then Err(last.error) else Ok(front.value + [last.value])
  }

  /**
   * ParseAll succeeds exactly when every element parses, with the values in order;
   * otherwise it carries the exception of the first element that fails.
   */
  lemma {:induction false} ParseAllSpec<T, U>(xs: seq<T>, n: nat, parse: T -> Result<U>)
    requires n <= |xs|
    ensures var r := ParseAll(xs, n, parse);
      (r.Ok? <==> forall i :: 0 <= i < n ==> parse(xs[i]).Ok?) &&
      (r.Ok? ==> |r.value| == n && forall i :: 0 <= i < n ==> r.value[i] == parse(xs[i]).value) &&
      (r.Err? ==> exists i :: 0 <= i < n && parse(xs[i]).Err? && r.error == parse(xs[i]).error &&
                              forall k :: 0 <= k < i ==> parse(xs[k]).Ok?)
    decreases n
  {
    if n > 0 {
      ParseAllSpec(xs, n - 1, parse);
      var front := ParseAll(xs, n - 1, parse);
      if front.Err? {
        var i :| 0 <= i < n - 1 && parse(xs[i]).Err? && front.error == parse(xs[i]).error &&
                 forall k :: 0 <= k < i ==> parse(xs[k]).Ok?;
        assert ParseAll(xs, n, parse).error == parse(xs[i]).error;
      } else if parse(xs[n - 1]).Err? {
        assert ParseAll(xs, n, parse).error == parse(xs[n - 1]).error;
      }
    }
  }

  /** A failure at position i, after i successes, is the failure of every longer prefix. */
  lemma {:induction false} ParseAllStops<T, U>(xs: seq<T>, i: nat, n: nat, parse: T -> Result<U>)
    requires i < n <= |xs| && ParseAll(xs, i, parse).Ok? && parse(xs[i]).Err?
    ensures ParseAll(xs, n, parse) == Err(parse(xs[i]).error)
    decreases n
  {
    if n > i + 1 {
      ParseAllStops(xs, i, n - 1, parse);
    }
  }

  /** A prefix that parses grows by the next value. */
  lemma ParseAllNext<T, U>(xs: seq<T>, i: nat, parse: T -> Result<U>, values: seq<U>)
    requires i < |xs| && ParseAll(xs, i, parse) == Ok(values) && parse(xs[i]).Ok?
    ensures ParseAll(xs, i + 1, parse) == Ok(values + [parse(xs[i]).value])
  {
  }

  /**
   * The parsing loop every parser of the command line repeats: one parse per
   * element, in order, collecting the values; the first exception ends the loop.
   */
  method ParseEach<T, U>(xs: seq<T>, parse: T -> Result<U>) returns (r: Result<seq<U>>)
    ensures r == ParseAll(xs, |xs|, parse)
  {
    var values: seq<U> := [];
    for i := 0 to |xs|
      invariant ParseAll(xs, i, parse) == Ok(values)
    {
      var value := parse(xs[i]);
      if value.Err? {
        ParseAllStops(xs, i, |xs|, parse);
        return Err(value.error);
      }
      ParseAllNext(xs, i, parse, values);
      values := values + [value.value];
    }
    return Ok(values);
  }

  /** The member list of a layer line: Int32.Parse of every ';'-separated token. */
  function ParseMembers(text: string): Result<seq<int>>
  {
    var tokens := Split(text, ';');
    ParseAll(tokens, |tokens|, ParseInt32)
  }

  /**
   * One line of a layer file, "clusterId:representativeId:member;member;...": the
   * cluster id is parsed and thrown away, the representative id becomes the first
   * component and the members the second. Tokens after the third are ignored; a
   * missing token is an index error, raised when the code reaches it.
   */
  function ParseLayerLine(line: string): Result<Cluster>
  {
    ParseLayerTokens(Split(line, ':'))
  }

  /** The ':'-separated tokens of a layer line, read as ParseLayerLine reads them. */
  function ParseLayerTokens(tokens: seq<string>): Result<Cluster>
    requires |tokens| >= 1
  {
    var clusterId := ParseInt32(tokens[0]);
    if clusterId.Err? then Err(clusterId.error)
    else if |tokens| < 2 then Err(IndexOutOfRange)
    else
      var representative := ParseInt32(tokens[1]);
      if representative.Err? then Err(representative.error)
      else if |tokens| < 3 then Err(IndexOutOfRange)
      else
        var members := ParseMembers(tokens[2]);
        if members.Err? then Err(members.error) else Ok((representative.value, members.value))
  }

  /** A layer line parses exactly when its first three tokens do, with the second and third as its values. */
  lemma LayerLineSpec(line: string)
    ensures var tokens := Split(line, ':'); var r := ParseLayerLine(line);
      (r.Ok? <==> |tokens| >= 3 && ParseInt32(tokens[0]).Ok? && ParseInt32(tokens[1]).Ok? && ParseMembers(tokens[2]).Ok?) &&
      (r.Ok? ==> r.value == (ParseInt32(tokens[1]).value, ParseMembers(tokens[2]).value)) &&
      (r.Err? && ParseInt32(tokens[0]).Ok? && |tokens| < 2 ==> r.error == IndexOutOfRange) &&
      (r.Err? ==> r.error in {IndexOutOfRange, Format, Overflow})
  {
    var tokens := Split(line, ':');
    if |tokens| >= 3 {
      var members := Split(tokens[2], ';');
      ParseAllSpec(members, |members|, ParseInt32);
    }
  }

  /** The value of the cluster id token does not matter, only that it parses. */
  lemma ClusterIdIgnored(a: string, b: string, rest: string)
    requires ':' !in a && ':' !in b && ParseInt32(a).Ok? && ParseInt32(b).Ok?
    ensures ParseLayerLine(a + ":" + rest) == ParseLayerLine(b + ":" + rest)
  {
    SplitAfter(a, ':', rest);
    SplitAfter(b, ':', rest);
    var tokens := Split(rest, ':');
    TokensAfterClusterId(a, b, tokens);
  }

  /** Layer tokens that differ only in a parsable first token read the same. */
  lemma TokensAfterClusterId(a: string, b: string, tokens: seq<string>)
    requires ParseInt32(a).Ok? && ParseInt32(b).Ok?
    ensures ParseLayerTokens([a] + tokens) == ParseLayerTokens([b] + tokens)
  {
    var ta := [a] + tokens;
    var tb := [b] + tokens;
    assert |ta| == |tb| && ta[0] == a && tb[0] == b;
    assert forall i :: 1 <= i < |ta| ==> ta[i] == tb[i];
  }

  /** Splitting at a first separator peels off the text before it. */
  lemma SplitAfter(a: string, sep: char, rest: string)
    requires sep !in a
    ensures Split(a + [sep] + rest, sep) == [a] + Split(rest, sep)
  {
    IndexOfAfter(a, sep, rest);
    var s := a + [sep] + rest;
    assert s[..|a|] == a;
    assert s[|a| + 1..] == rest;
  }

  /** Every line of a layer file, in file order. */
  function ParseLayerFile(lines: seq<string>): Result<Table>
  {
    ParseAll(lines, |lines|, ParseLayerLine)
  }

  /** LoadMlesLayers' inner loop: one cluster per line, in file order. */
  method LoadLayer(lines: seq<string>) returns (r: Result<Table>)
    ensures r == ParseLayerFile(lines)
  {
    r := ParseEach(lines, ParseLayerLine);
  }

  /**
   * LoadMlesLayers: one table per layer file, in argument order; the first line that
   * does not parse ends the load with its exception.
   */
  method LoadMlesLayers(files: seq<seq<string>>) returns (r: Result<seq<Table>>)
    ensures r == ParseAll(files, |files|, ParseLayerFile)
  {
    var tables := new Table[|files|];
    for i := 0 to |files|
      invariant ParseAll(files, i, ParseLayerFile) == Ok(tables[..i])
    {
      var table := LoadLayer(files[i]);
      if table.Err? {
        ParseAllStops(files, i, |files|, ParseLayerFile);
        return Err(table.error);
      }
      ParseAllNext(files, i, ParseLayerFile, tables[..i]);
      tables[i] := table.value;
      assert tables[..i + 1] == tables[..i] + [table.value];
    }
    assert tables[..] == tables[..|files|];
    return Ok(tables[..]);
  }

  /** The integers of a comma-separated list, every token through Int32.Parse. */
  function ParseInts(text: string): Result<seq<int>>
  {
    var tokens := Split(text, ',');
    ParseAll(tokens, |tokens|, ParseInt32)
  }

  /** ParseIntArray: one Int32.Parse per ','-separated token, in order. */
  method ParseIntArray(text: string) returns (r: Result<seq<int>>)
    ensures r == ParseInts(text)
  {
    r := ParseEach(Split(text, ','), ParseInt32);
  }

  /** Int32.Parse stored as a float. */
  function ParseWhole(s: string): Result<real>
  {
    AsReal(ParseInt32(s))
  }

  /** An integer result as a float result. */
  function AsReal(n: Result<int>): Result<real>
  {
    if n.Err? then Err(n.error) else Ok(n.value as real)
  }

  /** Parsing with g, which is f followed by AsReal, fails where f does and otherwise gives f's values as floats. */
  lemma {:induction false} WholeValues<T>(xs: seq<T>, n: nat, f: T -> Result<int>, g: T -> Result<real>)
    requires n <= |xs| && forall x :: g(x) == AsReal(f(x))
    ensures var ints := ParseAll(xs, n, f); var reals := ParseAll(xs, n, g);
      (reals.Ok? <==> ints.Ok?) && (reals.Err? ==> reals.error == ints.error) &&
      (reals.Ok? ==> |reals.value| == |ints.value| && forall k :: 0 <= k < |reals.value| ==> reals.value[k] == ints.value[k] as real)
    decreases n
  {
    if n > 0 {
      WholeValues(xs, n - 1, f, g);
    }
  }

  /**
   * ParseFloatArray: the same loop, but each token still goes through Int32.Parse
   * before it is stored as a float, so every accepted value is a whole number and a
   * fraction such as "1.5" fails as a format error.
   */
  method ParseFloatArray(text: string) returns (r: Result<seq<real>>)
    ensures r.Ok? <==> ParseInts(text).Ok?
    ensures r.Err? ==> r.error == ParseInts(text).error
    ensures r.Ok? ==> |r.value| == |ParseInts(text).value| && forall k :: 0 <= k < |r.value| ==>
      r.value[k] == ParseInts(text).value[k] as real && r.value[k].Floor as real == r.value[k]
  {
    var tokens := Split(text, ',');
    r := ParseEach(tokens, ParseWhole);
    WholeValues(tokens, |tokens|, ParseInt32, ParseWhole);
  }

  /** A fraction in a drop-factor list makes the whole list fail. */
  lemma FractionRejected(w: string, f: string)
    requires 1 <= |w| && AllDigits(w) && 1 <= |f| && AllDigits(f)
    ensures ParseInts(w + "." + f) == Err(Format)
  {
    var s := w + "." + f;
    assert ',' !in s by {
      assert forall i :: 0 <= i < |s| ==> s[i] == '.' || IsDigit(s[i]);
    }
    assert Split(s, ',') == [s];
    ParseRejectsFraction(w, f);
    assert ParseAll([s], 0, ParseInt32) == Ok([]);
  }

  /** The command line: input files, the three parameter lists, output and cache paths, layer files. */
  datatype Arguments = Arguments(descriptorFile: string, classMappingFile: string, zoomingSteps: seq<int>,
                                 browsingCoherences: seq<int>, dropFactors: seq<real>, outputDirectory: string,
                                 cacheFilename: string, layerFiles: seq<string>)

  /**
   * Main's reading of args, in the order the code evaluates it: args[0] and args[1]
   * are file names, args[2..4] the zooming steps, coherences and drop factors,
   * args[5] the output directory, args[6] the cache path and every later argument
   * a layer file, in order. A missing argument is an index error at the point it
   * is read.
   */
  method ParseArguments(args: seq<string>) returns (r: Result<Arguments>)
    ensures r.Ok? <==> |args| >= 7 && ParseInts(args[2]).Ok? && ParseInts(args[3]).Ok? && ParseInts(args[4]).Ok?
    ensures r.Ok? ==> r.value.descriptorFile == args[0] && r.value.classMappingFile == args[1] &&
                      r.value.zoomingSteps == ParseInts(args[2]).value &&
                      r.value.browsingCoherences == ParseInts(args[3]).value &&
                      |r.value.dropFactors| == |ParseInts(args[4]).value| &&
                      (forall k :: 0 <= k < |r.value.dropFactors| ==> r.value.dropFactors[k] == ParseInts(args[4]).value[k] as real) &&
                      r.value.outputDirectory == args[5] && r.value.cacheFilename == args[6] && r.value.layerFiles == args[7..]
    ensures |args| < 3 ==> r == Err(IndexOutOfRange)
    ensures |args| >= 3 && ParseInts(args[2]).Err? ==> r == Err(ParseInts(args[2]).error)
    ensures |args| == 3 && ParseInts(args[2]).Ok? ==> r == Err(IndexOutOfRange)
    ensures |args| >= 4 && ParseInts(args[2]).Ok? && ParseInts(args[3]).Err? ==> r == Err(ParseInts(args[3]).error)
    ensures |args| == 4 && ParseInts(args[2]).Ok? && ParseInts(args[3]).Ok? ==> r == Err(IndexOutOfRange)
    ensures |args| >= 5 && ParseInts(args[2]).Ok? && ParseInts(args[3]).Ok? && ParseInts(args[4]).Err? ==>
      r == Err(ParseInts(args[4]).error)
    ensures |args| >= 5 && ParseInts(args[2]).Ok? && ParseInts(args[3]).Ok? && ParseInts(args[4]).Ok? && |args| < 7 ==>
      r == Err(IndexOutOfRange)
  {
    if |args| < 3 {
      return Err(IndexOutOfRange);
    }
    var zoomingSteps := ParseIntArray(args[2]);
    if zoomingSteps.Err? {
      return Err(zoomingSteps.error);
    }
    if |args| < 4 {
      return Err(IndexOutOfRange);
    }
    var browsingCoherences := ParseIntArray(args[3]);
    if browsingCoherences.Err? {
      return Err(browsingCoherences.error);
    }
    if |args| < 5 {
      return Err(IndexOutOfRange);
    }
    var dropFactors := ParseFloatArray(args[4]);
    if dropFactors.Err? {
      return Err(dropFactors.error);
    }
    if |args| < 7 {
      return Err(IndexOutOfRange);
    }
    var layerFiles := LayerFileArguments(args);
    return Ok(Arguments(args[0], args[1], zoomingSteps.value, browsingCoherences.value, dropFactors.value, args[5],
                        args[6], layerFiles));
  }

  /** Main's list of layer files: every argument from the eighth on, in order. */
  method LayerFileArguments(args: seq<string>) returns (files: seq<string>)
    requires |args| >= 7
    ensures files == args[7..]
  {
    files := [];
    for i := 7 to |args|
      invariant files == args[7..i]
    {
      assert args[7..i + 1] == args[7..i] + [args[i]];
      files := files + [args[i]];
    }
  }

  /**
   * The output directory of one parameter triple. The drop factor is a whole
   * float below 10^7 in magnitude, so it prints as an integer and is exact.
   */
  function DirectoryName(zoomingStep: int, browsingCoherence: int, dropFactor: int): string
    requires -10000000 < dropFactor < 10000000
  {
    "zoom" + IntToString(zoomingStep) + "_coherence" + IntToString(browsingCoherence) + "_drop" + IntToString(dropFactor)
  }

  /** The directory name splits on '_' into its three labelled numbers, each of which reads back. */
  lemma DirectoryNameReads(z: int, c: int, d: int)
    requires IsInt32(z) && IsInt32(c) && -10000000 < d < 10000000
    ensures var parts := Split(DirectoryName(z, c, d), '_');
      |parts| == 3 && |parts[0]| > 4 && |parts[1]| > 9 && |parts[2]| > 4 && parts[0][..4] == "zoom" &&
      parts[1][..9] == "coherence" && parts[2][..4] == "drop" &&
      ParseInt32(parts[0][4..]) == Ok(z) && ParseInt32(parts[1][9..]) == Ok(c) && ParseInt32(parts[2][4..]) == Ok(d)
  {
    NumberClean('_', z, 0);
    NumberClean('_', c, 0);
    NumberClean('_', d, 0);
    DirectoryTextSplits(IntToString(z), IntToString(c), IntToString(d));
    IntToStringParses(z);
    IntToStringParses(c);
    IntToStringParses(d);
    var parts := Split(DirectoryName(z, c, d), '_');
    assert parts[0][4..] == IntToString(z);
    assert parts[1][9..] == IntToString(c);
    assert parts[2][4..] == IntToString(d);
  }

  /** Three labelled texts without '_', joined as a directory name, split back apart. */
  lemma DirectoryTextSplits(zs: string, cs: string, ds: string)
    requires '_' !in zs && '_' !in cs && '_' !in ds
    ensures Split("zoom" + zs + "_coherence" + cs + "_drop" + ds, '_') == ["zoom" + zs, "coherence" + cs, "drop" + ds]
  {
    var parts := ["zoom" + zs, "coherence" + cs, "drop" + ds];
    assert Join(parts[2..], '_') == parts[2];
    assert Join(parts[1..], '_') == parts[1] + "_" + parts[2];
    assert Join(parts, '_') == parts[0] + "_" + (parts[1] + "_" + parts[2]);
    assert parts[0] + "_" + (parts[1] + "_" + parts[2]) == "zoom" + zs + "_coherence" + cs + "_drop" + ds;
    SplitJoin(parts, '_');
  }

  /** Different parameter triples write to different directories. */
  lemma DirectoryNamesDiffer(z: int, c: int, d: int, z': int, c': int, d': int)
    requires IsInt32(z) && IsInt32(c) && IsInt32(z') && IsInt32(c')
    requires -10000000 < d < 10000000 && -10000000 < d' < 10000000
    requires (z, c, d) != (z', c', d')
    ensures DirectoryName(z, c, d) != DirectoryName(z', c', d')
  {
    DirectoryNameReads(z, c, d);
    DirectoryNameReads(z', c', d');
  }
}
