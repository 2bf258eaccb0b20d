/**
 * BrowsingSimulatorEngine (BrowsingSimulator.cs): creates one browsing session per
 * searched item, all seeded in order from one master generator, runs each session
 * until it finds its item or reaches the maximal browsing depth, and reports the
 * sessions as fixed-format log lines and a histogram of their final depths.
 */
module Simulator {
  import opened Wrappers
  import opened Items
  import opened Text
  import opened DotNetRandom
  import opened Hierarchy
  import opened KnnSearch
  import opened Browsing
  import Mles

  /**
   * A session's run loop: a step, then another while the step succeeded, the depth
   * is below maxBrowsingDepth and the searched item is not displayed. The first
   * exception ends the run.
   */
  function Run(layers: seq<seq<Item>>, config: CacheConfig, stream: nat -> int, p: Settings, st: Session,
               maxBrowsingDepth: int): (r: (Outcome, Session))
    requires SearchReady(layers, config, st.search) && IsSampleStream(stream)
    ensures r.0.Pass? ==> st.browsingDepth < r.1.browsingDepth
    ensures r.0.Pass? ==> r.1.browsingDepth >= maxBrowsingDepth || ShowsId(r.1.display, p.searched.id)
    decreases maxBrowsingDepth - st.browsingDepth
  {
    var (r, after) := Step(layers, config, stream, p, st);
    if r.Err? then (Fail(r.error), after)
    else
      StepLogs(layers, config, stream, p, st);
      StepKeepsReady(layers, config, stream, p, st);
      if after.browsingDepth < maxBrowsingDepth && !ShowsId(after.display, p.searched.id) then
        Run(layers, config, stream, p, after, maxBrowsingDepth)
      else (Pass, after)
  }

  /**
   * A completed run took at least one step, logged one entry per step, and stopped
   * at the first depth that reached maxBrowsingDepth or displayed the searched item;
   * so from depth 0 the final depth lies in [1, max(1, maxBrowsingDepth)].
   */
  lemma {:induction false} RunStops(layers: seq<seq<Item>>, config: CacheConfig, stream: nat -> int, p: Settings,
                                    st: Session, maxBrowsingDepth: int)
    requires SearchReady(layers, config, st.search) && IsSampleStream(stream)
    ensures var (r, after) := Run(layers, config, stream, p, st, maxBrowsingDepth);
      r.Pass? ==>
        after.browsingDepth > st.browsingDepth &&
        |after.log| == |st.log| + (after.browsingDepth - st.browsingDepth) &&
        (after.browsingDepth >= maxBrowsingDepth || ShowsId(after.display, p.searched.id)) &&
        (st.browsingDepth < maxBrowsingDepth ==> after.browsingDepth <= maxBrowsingDepth)
    decreases maxBrowsingDepth - st.browsingDepth
  {
    var (r, after) := Step(layers, config, stream, p, st);
    if r.Ok? {
      StepLogs(layers, config, stream, p, st);
      StepKeepsReady(layers, config, stream, p, st);
      if after.browsingDepth < maxBrowsingDepth && !ShowsId(after.display, p.searched.id) {
        RunStops(layers, config, stream, p, after, maxBrowsingDepth);
        assert Run(layers, config, stream, p, st, maxBrowsingDepth) == Run(layers, config, stream, p, after, maxBrowsingDepth);
      } else {
        assert Run(layers, config, stream, p, st, maxBrowsingDepth) == (Pass, after);
      }
    }
  }

  /** A session, once run, ended between depth 1 and max(1, maxBrowsingDepth), at the max or on its item. */
  predicate Finished(browsingDepth: int, found: bool, maxBrowsingDepth: int)
  {
    1 <= browsingDepth && (browsingDepth >= maxBrowsingDepth || found) &&
    browsingDepth <= (if maxBrowsingDepth < 1 then 1 else maxBrowsingDepth)
  }

  /** A run from a new session's depth 0 that completes leaves it Finished. */
  lemma RunFinishes(layers: seq<seq<Item>>, config: CacheConfig, stream: nat -> int, p: Settings, st: Session,
                    maxBrowsingDepth: int)
    requires SearchReady(layers, config, st.search) && IsSampleStream(stream) && st.browsingDepth == 0
    ensures var (r, after) := Run(layers, config, stream, p, st, maxBrowsingDepth);
      r.Pass? ==> Finished(after.browsingDepth, ShowsId(after.display, p.searched.id), maxBrowsingDepth) &&
                  |after.log| == |st.log| + after.browsingDepth
  {
    RunStops(layers, config, stream, p, st, maxBrowsingDepth);
  }

  /** The do-while loop of RunSimulations for one session. */
  method RunSession(session: BrowsingSession, maxBrowsingDepth: int) returns (r: Outcome)
    requires session.Valid()
    modifies session, session.mles`cache, session.mles`insertAttempts, session.random`drawn
    ensures session.Valid() && session.mles.Contents() == old(session.mles.Contents())
    ensures (r, session.State()) == Run(old(session.mles.Contents()), session.mles.Config(), session.random.stream,
                                        session.Params(), old(session.State()), maxBrowsingDepth)
  {
    hide Step, Mles.Mles.Valid, Mles.Mles.CacheValid;
    ghost var layers := session.mles.Contents();
    ghost var goal := Run(layers, session.mles.Config(), session.random.stream, session.Params(), session.State(),
                          maxBrowsingDepth);
    while true
      invariant session.Valid() && session.mles.Contents() == layers
      invariant Run(layers, session.mles.Config(), session.random.stream, session.Params(), session.State(),
                    maxBrowsingDepth) == goal
      decreases maxBrowsingDepth - session.browsingDepth
    {
      ghost var before := session.State();
      var distance := session.SelectRandomItemAndGenerateNewDisplay();
      ghost var after := session.State();
      assert (distance, after) == Step(layers, session.mles.Config(), session.random.stream, session.Params(), before);
      if distance.Err? {
        return Fail(distance.error);
      }
      StepLogs(layers, session.mles.Config(), session.random.stream, session.Params(), before);
      var found := session.DisplayContainsSearchedItem();
      if !(session.browsingDepth < maxBrowsingDepth && !found) {
        return Pass;
      }
    }
  }

  /** One session of RunSimulations, from its first step to its end. */
  method RunNewSession(session: BrowsingSession, maxBrowsingDepth: int) returns (r: Outcome)
    requires session.Valid() && session.browsingDepth == 0
    modifies session, session.mles`cache, session.mles`insertAttempts, session.random`drawn
    ensures session.Valid() && session.mles.Contents() == old(session.mles.Contents())
    ensures r.Pass? ==> Done(session, maxBrowsingDepth)
  {
    ghost var before := session.State();
    ghost var layers := session.mles.Contents();
    r := RunSession(session, maxBrowsingDepth);
    RunFinishes(layers, session.mles.Config(), session.random.stream, session.Params(), before, maxBrowsingDepth);
  }

  // ---------------------------------------------------------------------------
  // The histogram of final depths (ComputeAndPrintBrowsingHistogram)

  /** The largest of the first n depths, or 0 for none. */
  function MaxIn(ds: seq<int>, n: nat): (m: int)
    requires n <= |ds|
    ensures 0 <= m && forall i :: 0 <= i < n ==> ds[i] <= m
    ensures m == 0 || exists i :: 0 <= i < n && ds[i] == m
  {
    if n == 0 then 0
    else
      var m := MaxIn(ds, n - 1);
      if ds[n - 1] > m then ds[n - 1] else m
  }

  /** The largest depth, or 0 for no sessions. */
  function MaxDepth(ds: seq<int>): (m: int)
    ensures 0 <= m && forall i :: 0 <= i < |ds| ==> ds[i] <= m
    ensures m == 0 || exists i :: 0 <= i < |ds| && ds[i] == m
  {
    MaxIn(ds, |ds|)
  }

  /** How many of the first n sessions ended at depth d. */
  function CountIn(ds: seq<int>, n: nat, d: int): nat
    requires n <= |ds|
  {
    if n == 0 then 0 else CountIn(ds, n - 1, d) + if ds[n - 1] == d then 1 else 0
  }

  /** How many sessions ended at depth d. */
  function CountDepth(ds: seq<int>, d: int): nat
  {
    CountIn(ds, |ds|, d)
  }

  /** How many of the first n flags are set. */
  function TruesIn(bs: seq<bool>, n: nat): (t: nat)
    requires n <= |bs|
    ensures t <= n
  {
    if n == 0 then 0 else TruesIn(bs, n - 1) + if bs[n - 1] then 1 else 0
  }

  /** How many flags are set. */
  function Trues(bs: seq<bool>): (t: nat)
    ensures t <= |bs|
  {
    TruesIn(bs, |bs|)
  }

  /** Whether each of the first n sessions went at least one step deep (had a bucket to land in). */
  predicate AllDeepIn(ds: seq<int>, n: nat)
    requires n <= |ds|
  {
    n == 0 || (ds[n - 1] >= 1 && AllDeepIn(ds, n - 1))
  }

  /** AllDeepIn over a prefix says that every depth of the prefix is at least 1. */
  lemma {:induction false} AllDeepInMeans(ds: seq<int>, n: nat)
    requires n <= |ds|
    ensures AllDeepIn(ds, n) <==> forall k :: 0 <= k < n ==> ds[k] >= 1
  {
    if n > 0 {
      AllDeepInMeans(ds, n - 1);
    }
  }

  /** The counts of the buckets for depths 1 .. m, over the first n sessions. */
  function BucketTotal(ds: seq<int>, n: nat, m: nat): nat
    requires n <= |ds|
  {
    if m == 0 then 0 else BucketTotal(ds, n, m - 1) + CountIn(ds, n, m)
  }

  lemma {:induction false} BucketTotalStep(ds: seq<int>, n: nat, m: nat)
    requires n < |ds|
    ensures BucketTotal(ds, n + 1, m) == BucketTotal(ds, n, m) + if 1 <= ds[n] <= m then 1 else 0
    decreases m
  {
    if m > 0 {
      BucketTotalStep(ds, n, m - 1);
    }
  }

  lemma {:induction false} BucketTotalEmpty(ds: seq<int>, m: nat)
    ensures BucketTotal(ds, 0, m) == 0
    decreases m
  {
    if m > 0 {
      BucketTotalEmpty(ds, m - 1);
    }
  }

  /** With every depth in [1, m], the m buckets together count every session once. */
  lemma {:induction false} BucketsCountAll(ds: seq<int>, m: nat)
    requires forall i :: 0 <= i < |ds| ==> 1 <= ds[i] <= m
    ensures BucketTotal(ds, |ds|, m) == |ds|
  {
    BucketTotalEmpty(ds, m);
    for n := 0 to |ds|
      invariant BucketTotal(ds, n, m) == n
    {
      BucketTotalStep(ds, n, m);
    }
  }

  /** The histogram file's first line: sessions that found their item, over all sessions. */
  function HistogramHeader(found: int, total: int): string
  {
    IntToString(found) + "/" + IntToString(total)
  }

  /** The header line reads back as the two counts. */
  lemma HistogramHeaderReads(found: int, total: int)
    requires IsInt32(found) && IsInt32(total)
    ensures var parts := Split(HistogramHeader(found, total), '/');
      |parts| == 2 && ParseInt32(parts[0]) == Ok(found) && ParseInt32(parts[1]) == Ok(total)
  {
    var a := IntToString(found);
    var b := IntToString(total);
    NumberClean('/', found, 0);
    NumberClean('/', total, 0);
    assert HistogramHeader(found, total) == Join([a, b], '/');
    SplitJoin([a, b], '/');
    IntToStringParses(found);
    IntToStringParses(total);
  }

  // ---------------------------------------------------------------------------
  // Session log lines (SaveSessionLog, PrintSessionInfo, PrintDisplayInfo)

  /** session_ followed by the six-digit session id and .log. */
  function SessionFileName(id: int): string
  {
    "session_" + Pad(id, 6) + ".log"
  }

  /** Different sessions write different files. */
  lemma SessionFileNamesDiffer(a: int, b: int)
    requires 0 <= a <= INT32_MAX && 0 <= b <= INT32_MAX && a != b
    ensures SessionFileName(a) != SessionFileName(b)
  {
    PadParses(a, 6);
    PadParses(b, 6);
    Middle("session_", Pad(a, 6), ".log");
    Middle("session_", Pad(b, 6), ".log");
  }

  /** The middle of a three-part string is what lies between the outer parts' lengths. */
  lemma Middle(prefix: string, middle: string, suffix: string)
    ensures var s := prefix + middle + suffix; s[|prefix|..|s| - |suffix|] == middle
  {
  }

  /** The display ids, six digits each, in display order. */
  function PaddedIds(display: seq<Item>): (r: seq<string>)
    ensures |r| == |display| && forall i :: 0 <= i < |display| ==> r[i] == Pad(display[i].id, 6)
  {
    seq(|display|, i requires 0 <= i < |display| => Pad(display[i].id, 6))
  }

  /**
   * One line per step: the line id, the depths before the step (two digits), the
   * selected item, the distance text and the display's ids joined by ':'.
   */
  function DisplayFields(id: int, log: BrowsingLog, distanceText: string): seq<string>
  {
    ["ID:" + Pad(id, 6), "layer_depth:" + Pad(log.layerDepth, 2), "browsing_depth:" + Pad(log.browsingDepth, 2),
     "selected_item:" + Pad(log.selectedItem.id, 6), "searched_item_distance:" + distanceText,
     "display:" + Join(PaddedIds(log.display), ':')]
  }

  function DisplayLine(id: int, log: BrowsingLog, distanceText: string): string
  {
    Join(DisplayFields(id, log, distanceText), ';')
  }

  /** No field of a display line holds ';' when the distance text does not. */
  lemma DisplayFieldsClean(id: int, log: BrowsingLog, distanceText: string)
    requires ';' !in distanceText
    ensures forall i :: 0 <= i < |DisplayFields(id, log, distanceText)| ==> ';' !in DisplayFields(id, log, distanceText)[i]
  {
    DepthFieldsClean(id, log);
    ItemFieldsClean(log, distanceText);
  }

  /** The id and depth fields hold no ';'. */
  lemma DepthFieldsClean(id: int, log: BrowsingLog)
    ensures ';' !in "ID:" + Pad(id, 6)
    ensures ';' !in "layer_depth:" + Pad(log.layerDepth, 2)
    ensures ';' !in "browsing_depth:" + Pad(log.browsingDepth, 2)
  {
    NumberClean(';', id, 6);
    NumberClean(';', log.layerDepth, 2);
    NumberClean(';', log.browsingDepth, 2);
    LabelClean("ID:", Pad(id, 6), ';');
    LabelClean("layer_depth:", Pad(log.layerDepth, 2), ';');
    LabelClean("browsing_depth:", Pad(log.browsingDepth, 2), ';');
  }

  /** The selected item, distance and display fields hold no ';'. */
  lemma ItemFieldsClean(log: BrowsingLog, distanceText: string)
    requires ';' !in distanceText
    ensures ';' !in "selected_item:" + Pad(log.selectedItem.id, 6)
    ensures ';' !in "searched_item_distance:" + distanceText
    ensures ';' !in "display:" + Join(PaddedIds(log.display), ':')
  {
    NumberClean(';', log.selectedItem.id, 6);
    DisplayIdsClean(log.display);
    LabelClean("selected_item:", Pad(log.selectedItem.id, 6), ';');
    LabelClean("searched_item_distance:", distanceText, ';');
    LabelClean("display:", Join(PaddedIds(log.display), ':'), ';');
  }

  /** A label and a value without c give a field without c. */
  lemma LabelClean(name: string, value: string, c: char)
    requires c !in name && c !in value
    ensures c !in name + value
  {
  }

  /** The joined display ids hold no ';'. */
  lemma DisplayIdsClean(display: seq<Item>)
    ensures ';' !in Join(PaddedIds(display), ':')
  {
    var padded := PaddedIds(display);
    forall i | 0 <= i < |padded|
      ensures ';' !in padded[i]
    {
      NumberClean(';', display[i].id, 6);
    }
    JoinKeepsOut(padded, ':', ';');
  }

  /** The display field's ids split on ':' and each reads back as the displayed item's id. */
  lemma DisplayIdsRead(display: seq<Item>)
    requires |display| > 0 && forall i :: 0 <= i < |display| ==> 0 <= display[i].id <= INT32_MAX
    ensures var ids := Split(Join(PaddedIds(display), ':'), ':');
      |ids| == |display| && forall i :: 0 <= i < |ids| ==> ParseInt32(ids[i]) == Ok(display[i].id)
  {
    var padded := PaddedIds(display);
    forall i | 0 <= i < |padded|
      ensures ':' !in padded[i] && ParseInt32(padded[i]) == Ok(display[i].id)
    {
      NumberClean(':', display[i].id, 6);
      PadParses(display[i].id, 6);
    }
    SplitJoin(padded, ':');
  }

  /**
   * A display line splits on ';' into its six fields, and the last field lists the
   * display's ids in order, each reading back as the id.
   */
  lemma DisplayLineReads(id: int, log: BrowsingLog, distanceText: string)
    requires ';' !in distanceText && |log.display| > 0
    requires forall i :: 0 <= i < |log.display| ==> 0 <= log.display[i].id <= INT32_MAX
    ensures var fields := Split(DisplayLine(id, log, distanceText), ';');
      fields == DisplayFields(id, log, distanceText) &&
      var ids := Split(fields[5][8..], ':');
      |ids| == |log.display| && forall i :: 0 <= i < |ids| ==> ParseInt32(ids[i]) == Ok(log.display[i].id)
  {
    var fields := DisplayFields(id, log, distanceText);
    DisplayFieldsClean(id, log, distanceText);
    SplitJoin(fields, ';');
    assert fields[5][8..] == Join(PaddedIds(log.display), ':');
    DisplayIdsRead(log.display);
  }

  /**
   * The session line: its id, settings and final depth, the searched item and its
   * path of layer-local ids from the top layer down; a missing link throws.
   */
  function SessionInfoLine(id: int, p: Settings, browsingDepth: int, dropText: string, path: Result<seq<int>>)
    : (r: Result<string>)
    requires path.Ok? ==> |path.value| == 3
  {
    if path.Err? then Err(path.error)
    else
      Ok(Join(["ID:" + Pad(id, 6), "display_size:" + IntToString(p.displaySize),
               "browsing_depth:" + IntToString(browsingDepth), "zooming_step:" + IntToString(p.zoomingStep),
               "browsing_coherence:" + IntToString(p.coherence), "drop_factor:" + dropText,
               "searched_item:" + Pad(p.searched.id, 6),
               "mles_path:" + IntToString(path.value[0]) + "->" + IntToString(path.value[1]) + "->" +
               IntToString(path.value[2])], ';'))
  }

  /**
   * The layer-local ids of the grandparent, the parent and dataset item j itself;
   * NullReference when item j or its parent has no parent.
   */
  function MlesPath(layers: seq<seq<Item>>, j: nat): (r: Result<seq<int>>)
    requires Linked(layers) && |layers| > 0 && j < |layers[|layers| - 1]|
    ensures r.Ok? <==> Climb(layers, |layers| - 1, j, 2).Some?
    ensures r.Err? ==> r.error == NullReference
    ensures r.Ok? ==> |r.value| == 3 && |layers| >= 3
  {
    var last := |layers| - 1;
    var item := layers[last][j];
    if item.parent.None? then Err(NullReference)
    else
      var parent := layers[last - 1][item.parent.value];
      if parent.parent.None? then Err(NullReference)
      else Ok([layers[last - 2][parent.parent.value].localId, parent.localId, item.localId])
  }

  /**
   * A session's log file: its session line, then one display line per step, with
   * the line ids and distance texts given for the steps.
   */
  function SessionLogLines(header: string, log: seq<BrowsingLog>, ids: seq<int>, distances: seq<string>)
    : (lines: seq<string>)
    requires |ids| == |log| == |distances|
    ensures |lines| == |log| + 1 && lines[0] == header
    ensures forall k :: 0 <= k < |log| ==> lines[k + 1] == DisplayLine(ids[k], log[k], distances[k])
  {
    [header] + seq(|log|, k requires 0 <= k < |log| => DisplayLine(ids[k], log[k], distances[k]))
  }

  // ---------------------------------------------------------------------------
  // The engine

  /** Sessions and their generators are all different objects. */
  predicate Separate(ss: seq<BrowsingSession>)
  {
    forall a, b :: 0 <= a < b < |ss| ==> ss[a] != ss[b] && ss[a].random != ss[b].random
  }

  /** Session s ended Finished. */
  ghost predicate Done(s: BrowsingSession, maxBrowsingDepth: int)
    reads s
  {
    Finished(s.browsingDepth, ShowsId(s.display, s.searchedItem.id), maxBrowsingDepth)
  }

  /** A session new to the list, with a new generator, keeps the list Separate. */
  lemma SeparateSnoc(ss: seq<BrowsingSession>, s: BrowsingSession)
    requires Separate(ss) && forall k :: 0 <= k < |ss| ==> ss[k] != s && ss[k].random != s.random
    ensures Separate(ss + [s])
  {
  }

  /** The final depths of the sessions. */
  ghost function DepthsOf(ss: seq<BrowsingSession>): (ds: seq<int>)
    reads ss
    ensures |ds| == |ss| && forall i :: 0 <= i < |ss| ==> ds[i] == ss[i].browsingDepth
  {
    seq(|ss|, i requires 0 <= i < |ss| reads ss => ss[i].browsingDepth)
  }

  /** Whether each session displays its searched item (ItemFound). */
  ghost function FoundsOf(ss: seq<BrowsingSession>): (fs: seq<bool>)
    reads ss
    ensures |fs| == |ss| && forall i :: 0 <= i < |ss| ==> fs[i] == ShowsId(ss[i].display, ss[i].searchedItem.id)
  {
    seq(|ss|, i requires 0 <= i < |ss| reads ss => ShowsId(ss[i].display, ss[i].searchedItem.id))
  }

  class Engine {
    const mles: Mles.Mles
    var sessions: seq<BrowsingSession>

    constructor (mles: Mles.Mles)
      ensures this.mles == mles && sessions == []
    {
      this.mles := mles;
      sessions := [];
    }

    /**
     * A session as GenerateBrowsingSessions leaves it: its id, settings and seed,
     * the top layer as its display counted once, everything else zero or empty.
     */
    ghost predicate Started(s: BrowsingSession, i: int, p: Settings, seed: int, seeded: int -> (nat -> int))
      reads s, s.random, mles, mles.layers, mles.dataset
    {
      s.id == i && s.mles == mles && s.Params() == p && s.random.stream == seeded(seed) && |mles.layers| > 0 &&
      s.State() == Session(mles.layers[0][..], [], Counted(map[], mles.layers[0][..]), 0, 0, 0,
                           SearchState(mles.cache, mles.insertAttempts, 0)) &&
      s.Valid()
    }

    /** The session's own part of Started: its fields and its generator, none of the index. */
    ghost predicate Begun(s: BrowsingSession, i: int, p: Settings, seed: int, seeded: int -> (nat -> int), top: seq<Item>)
      reads s, s.random
    {
      s.id == i && s.mles == mles && s.Params() == p && s.random.stream == seeded(seed) && s.random.drawn == 0 &&
      s.display == top && s.log == [] && s.displayedCounter == Counted(map[], top) &&
      s.layerDepth == 0 && s.currentZoomingStep == 0 && s.browsingDepth == 0
    }

    /** A begun session over the top layer of a valid index is Started. */
    lemma BegunStarted(s: BrowsingSession, i: int, p: Settings, seed: int, seeded: int -> (nat -> int))
      requires mles.Valid() && mles.CacheValid() && |mles.layers| > 0 && SeedsStreams(seeded)
      requires Begun(s, i, p, seed, seeded, mles.layers[0][..])
      ensures Started(s, i, p, seed, seeded)
    {
      s.ReadyOf();
    }

    /**
     * GenerateBrowsingSessions: session i has id i, looks for dataset item ids[i],
     * is seeded with the i-th Next() of one Random(randomSeed) and shows the top
     * layer; an id outside the dataset throws.
     */
    method GenerateBrowsingSessions(ids: seq<int>, displaySize: int, zoomingStep: int, browsingCoherence: int,
                                    dropFactor: real, randomSeed: int, seeded: int -> (nat -> int))
      returns (r: Result<seq<BrowsingSession>>)
      requires mles.Valid() && mles.CacheValid() && SeedsStreams(seeded)
      ensures r.Err? <==> exists i :: 0 <= i < |ids| && !(0 <= ids[i] < mles.dataset.Length)
      ensures r.Err? ==> r.error == IndexOutOfRange
      ensures r.Ok? ==> |r.value| == |ids| && Separate(r.value)
      ensures r.Ok? ==> forall i :: 0 <= i < |ids| ==>
        fresh(r.value[i]) && fresh(r.value[i].random) && 0 <= ids[i] < mles.dataset.Length &&
        Started(r.value[i], i, Settings(displaySize, zoomingStep, browsingCoherence, dropFactor, mles.dataset[ids[i]]),
                seeded(randomSeed)(i), seeded)
    {
      mles.DatasetShape();
      var master := new Rng(seeded(randomSeed));
      ghost var items := mles.dataset[..];
      var made := SpawnSessions(ids, displaySize, zoomingStep, browsingCoherence, dropFactor, master, seeded);
      if made.Err? {
        return Err(made.error);
      }
      forall k | 0 <= k < |ids|
        ensures Started(made.value[k], k, Settings(displaySize, zoomingStep, browsingCoherence, dropFactor, items[ids[k]]),
                        seeded(randomSeed)(k), seeded)
      {
        BegunStarted(made.value[k], k, Settings(displaySize, zoomingStep, browsingCoherence, dropFactor, items[ids[k]]),
                     seeded(randomSeed)(k), seeded);
      }
      return made;
    }

    /** The loop of GenerateBrowsingSessions: session i is made with the generator's next seed. */
    method SpawnSessions(ids: seq<int>, displaySize: int, zoomingStep: int, browsingCoherence: int,
                         dropFactor: real, master: Rng, seeded: int -> (nat -> int))
      returns (r: Result<seq<BrowsingSession>>)
      requires mles.Valid() && mles.CacheValid() && SeedsStreams(seeded) && |mles.layers| > 0
      requires master.drawn == 0 && master.Valid()
      modifies master`drawn
      ensures r.Err? <==> exists i :: 0 <= i < |ids| && !(0 <= ids[i] < mles.dataset.Length)
      ensures r.Err? ==> r.error == IndexOutOfRange
      ensures r.Ok? ==> |r.value| == |ids| && Separate(r.value)
      ensures r.Ok? ==> forall k :: 0 <= k < |ids| ==>
        fresh(r.value[k]) && fresh(r.value[k].random) && 0 <= ids[k] < mles.dataset.Length &&
        Begun(r.value[k], k, Settings(displaySize, zoomingStep, browsingCoherence, dropFactor, mles.dataset[ids[k]]),
              master.stream(k), seeded, mles.layers[0][..])
    {
      hide Begun, SeedsStreams, Mles.Mles.Valid, Mles.Mles.CacheValid;
      var made: seq<BrowsingSession> := [];
      var dataset := mles.dataset;
      ghost var items := dataset[..];
      ghost var top := mles.layers[0][..];
      for i := 0 to |ids|
        invariant |made| == i && master.drawn == i
        invariant mles.dataset == dataset && dataset[..] == items && mles.layers[0][..] == top
        invariant forall k :: 0 <= k < i ==> 0 <= ids[k] < |items|
        invariant Separate(made)
        invariant forall k :: 0 <= k < i ==> made[k].random != master
        invariant forall k :: 0 <= k < i ==> fresh(made[k]) && fresh(made[k].random)
        invariant forall k :: 0 <= k < i ==>
          Begun(made[k], k, Settings(displaySize, zoomingStep, browsingCoherence, dropFactor, items[ids[k]]),
                master.stream(k), seeded, top)
      {
        if !(0 <= ids[i] < dataset.Length) {
          return Err(IndexOutOfRange);
        }
        assert forall k :: 0 <= k < i + 1 ==> 0 <= ids[k] < |items|;
        var seed := master.Next();
        var session := NewSession(i, Settings(displaySize, zoomingStep, browsingCoherence, dropFactor,
                                              dataset[ids[i]]), seed, seeded);
        SeparateSnoc(made, session);
        made := made + [session];
      }
      return Ok(made);
    }

    /** One session of GenerateBrowsingSessions: constructed, then shown the top layer. */
    method NewSession(i: int, p: Settings, seed: int, seeded: int -> (nat -> int)) returns (session: BrowsingSession)
      requires mles.Valid() && mles.CacheValid() && SeedsStreams(seeded)
      ensures fresh(session) && fresh(session.random) && Begun(session, i, p, seed, seeded, mles.layers[0][..])
    {
      mles.DatasetShape();
      session := new BrowsingSession(i, p.displaySize, p.zoomingStep, p.coherence, p.dropFactor, seed, seeded, mles,
                                     p.searched);
      session.LoadZeroPageDisplay(mles.layers[0][..]);
      assert [] + mles.layers[0][..] == mles.layers[0][..];
    }

    /** The searched item's path, read from the layer arrays (the launch message dereferences it). */
    method PathOf(j: nat) returns (r: Result<seq<int>>)
      requires mles.Valid() && j < mles.dataset.Length
      ensures Linked(mles.Contents()) && |mles.Contents()| > 0 && j < |mles.Contents()[|mles.Contents()| - 1]|
      ensures r == MlesPath(mles.Contents(), j)
    {
      mles.DatasetShape();
      mles.ValidLinked();
      var last := |mles.layers| - 1;
      ghost var layers := mles.Contents();
      assert layers[last] == mles.layers[last][..];
      var item := mles.layers[last][j];
      if item.parent.None? {
        return Err(NullReference);
      }
      assert layers[last - 1] == mles.layers[last - 1][..];
      var parent := mles.layers[last - 1][item.parent.value];
      if parent.parent.None? {
        return Err(NullReference);
      }
      assert layers[last - 2] == mles.layers[last - 2][..];
      var grand := mles.layers[last - 2][parent.parent.value];
      return Ok([grand.localId, parent.localId, item.localId]);
    }

    /**
     * RunSimulations, one session after the other: generate the sessions, then run
     * each to its end. Every session that ran ended Finished; the first exception
     * ends the simulation.
     */
    method RunSimulations(ids: seq<int>, displaySize: int, zoomingStep: int, browsingCoherence: int, dropFactor: real,
                          maxBrowsingDepth: int, randomSeed: int, seeded: int -> (nat -> int)) returns (r: Outcome)
      requires mles.Valid() && mles.CacheValid() && SeedsStreams(seeded)
      modifies this`sessions, mles`cache, mles`insertAttempts
      ensures mles.Valid() && mles.CacheValid() && mles.Contents() == old(mles.Contents())
      ensures (exists i :: 0 <= i < |ids| && !(0 <= ids[i] < mles.dataset.Length)) ==> r == Fail(IndexOutOfRange)
      ensures r.Pass? ==> |sessions| == |ids| && Separate(sessions)
      ensures r.Pass? ==> forall i :: 0 <= i < |sessions| ==>
        sessions[i].id == i && sessions[i].mles == mles && Done(sessions[i], maxBrowsingDepth)
    {
      hide Mles.Mles.CacheValid, Separate, Done, SeedsStreams;
      var generated := GenerateBrowsingSessions(ids, displaySize, zoomingStep, browsingCoherence, dropFactor,
                                                randomSeed, seeded);
      if generated.Err? {
        return Fail(generated.error);
      }
      sessions := generated.value;
      r := RunAll(sessions, ids, maxBrowsingDepth);
    }

    /** Whether session s is new: depth 0, this MLES, the searched item at position id of the dataset. */
    ghost predicate Waiting(s: BrowsingSession, i: int, id: int)
      reads s, mles`dataset
    {
      s.id == i && s.mles == mles && 0 <= id < mles.dataset.Length && s.searchedItem.id == id && s.browsingDepth == 0
    }

    /** The loop of RunSimulations over the generated sessions, in order. */
    method RunAll(ss: seq<BrowsingSession>, ids: seq<int>, maxBrowsingDepth: int) returns (r: Outcome)
      requires mles.Valid() && mles.CacheValid() && |ss| == |ids| && Separate(ss)
      requires forall k :: 0 <= k < |ss| ==> Waiting(ss[k], k, ids[k]) && ss[k].random.Valid()
      modifies ss, set k | 0 <= k < |ss| :: ss[k].random, mles`cache, mles`insertAttempts
      ensures mles.Valid() && mles.CacheValid() && mles.Contents() == old(mles.Contents())
      ensures forall k :: 0 <= k < |ss| ==> ss[k].id == k && ss[k].mles == mles
      ensures r.Pass? ==> forall k :: 0 <= k < |ss| ==> Done(ss[k], maxBrowsingDepth)
    {
      ghost var layers := mles.Contents();
      for index := 0 to |ss|
        invariant mles.Valid() && mles.CacheValid() && mles.Contents() == layers
        invariant forall k :: index <= k < |ss| ==> Waiting(ss[k], k, ids[k])
        invariant forall k :: 0 <= k < index ==> Done(ss[k], maxBrowsingDepth)
      {
        assert forall k :: 0 <= k < |ss| && k != index ==> ss[k] != ss[index];
        var outcome := RunAt(ss, ids, index, maxBrowsingDepth);
        if outcome.Fail? {
          return outcome;
        }
      }
      return Pass;
    }

    /** One iteration of RunSimulations' loop: the launch message's path, then the session's do-while. */
    method RunAt(ss: seq<BrowsingSession>, ids: seq<int>, index: nat, maxBrowsingDepth: int) returns (r: Outcome)
      requires mles.Valid() && mles.CacheValid() && index < |ss| == |ids|
      requires Waiting(ss[index], index, ids[index]) && ss[index].random.Valid()
      modifies ss[index], ss[index].random`drawn, mles`cache, mles`insertAttempts
      ensures mles.Valid() && mles.CacheValid() && mles.Contents() == old(mles.Contents())
      ensures r.Pass? ==> Done(ss[index], maxBrowsingDepth)
    {
      var session := ss[index];
      var path := PathOf(ids[index]);
      if path.Err? {
        return Fail(path.error);
      }
      session.ReadyOf();
      r := RunNewSession(session, maxBrowsingDepth);
    }

    /** The largest final depth, 0 without sessions (the histogram's length). */
    method MaxBrowsingDepth() returns (maxDepth: int)
      ensures maxDepth == MaxDepth(DepthsOf(sessions))
    {
      ghost var depths := DepthsOf(sessions);
      maxDepth := 0;
      for i := 0 to |sessions|
        invariant maxDepth == MaxIn(depths, i)
      {
        if sessions[i].browsingDepth > maxDepth {
          maxDepth := sessions[i].browsingDepth;
        }
      }
    }

    /**
     * ComputeAndPrintBrowsingHistogram's counts: one bucket per depth 1 .. the
     * largest final depth, each counting the sessions that ended there, and the
     * number that found their item. A session still at depth 0 throws.
     */
    method BrowsingHistogram() returns (r: Outcome, histogram: array<int>, found: int)
      ensures histogram.Length == MaxDepth(DepthsOf(sessions))
      ensures r.Pass? <==> forall i :: 0 <= i < |sessions| ==> sessions[i].browsingDepth >= 1
      ensures r.Fail? ==> r.error == IndexOutOfRange
      ensures r.Pass? ==> forall b :: 0 <= b < histogram.Length ==> histogram[b] == CountDepth(DepthsOf(sessions), b + 1)
      ensures r.Pass? ==> found == Trues(FoundsOf(sessions)) && 0 <= found <= |sessions|
    {
      var maxDepth := MaxBrowsingDepth();
      histogram := new int[maxDepth](_ => 0);
      r, found := CountSessions(histogram);
    }

    /** The counting loop: bucket depth - 1 per session, in session order, and the sessions that found their item. */
    method CountSessions(histogram: array<int>) returns (r: Outcome, found: int)
      requires histogram.Length == MaxDepth(DepthsOf(sessions))
      requires forall b :: 0 <= b < histogram.Length ==> histogram[b] == 0
      modifies histogram
      ensures r.Pass? <==> forall i :: 0 <= i < |sessions| ==> sessions[i].browsingDepth >= 1
      ensures r.Fail? ==> r.error == IndexOutOfRange
      ensures r.Pass? ==> forall b :: 0 <= b < histogram.Length ==> histogram[b] == CountDepth(DepthsOf(sessions), b + 1)
      ensures r.Pass? ==> found == Trues(FoundsOf(sessions))
    {
      r, found := Tally(sessions, histogram, DepthsOf(sessions), FoundsOf(sessions));
    }

    /** The loop itself, over the sessions with their depths and found flags. */
    method Tally(ss: seq<BrowsingSession>, histogram: array<int>, ghost depths: seq<int>, ghost founds: seq<bool>)
      returns (r: Outcome, found: int)
      requires depths == DepthsOf(ss) && founds == FoundsOf(ss) && histogram.Length == MaxDepth(depths)
      requires forall b :: 0 <= b < histogram.Length ==> histogram[b] == 0
      modifies histogram
      ensures r.Pass? <==> forall i :: 0 <= i < |depths| ==> depths[i] >= 1
      ensures r.Fail? ==> r.error == IndexOutOfRange
      ensures r.Pass? ==> forall b :: 0 <= b < histogram.Length ==> histogram[b] == CountDepth(depths, b + 1)
      ensures r.Pass? ==> found == Trues(founds)
    {
      found := 0;
      for i := 0 to |ss|
        invariant AllDeepIn(depths, i)
        invariant found == TruesIn(founds, i)
        invariant forall b :: 0 <= b < histogram.Length ==> histogram[b] == CountIn(depths, i, b + 1)
      {
        var counted;
        counted, found := Entry(ss[i], histogram, depths, founds, i, found);
        if !counted {
          return Fail(IndexOutOfRange), found;
        }
      }
      AllDeepInMeans(depths, |depths|);
      r := Pass;
    }

    /** One session's turn in the loop: its bucket and, when it was counted, its found flag. */
    static method Entry(s: BrowsingSession, histogram: array<int>, ghost depths: seq<int>, ghost founds: seq<bool>, i: nat, found: int)
      returns (counted: bool, found': int)
      requires i < |depths| == |founds| && depths[i] == s.browsingDepth && histogram.Length == MaxDepth(depths)
      requires founds[i] == ShowsId(s.display, s.searchedItem.id)
      requires forall b :: 0 <= b < histogram.Length ==> histogram[b] == CountIn(depths, i, b + 1)
      modifies histogram
      ensures counted <==> depths[i] >= 1
      ensures counted ==> forall b :: 0 <= b < histogram.Length ==> histogram[b] == CountIn(depths, i + 1, b + 1)
      ensures counted ==> found' == found + (if founds[i] then 1 else 0)
    {
      counted := Bucket(histogram, depths, i, s.browsingDepth);
      found' := found;
      if counted {
        var itemFound := s.DisplayContainsSearchedItem();
        if itemFound {
          found' := found + 1;
        }
      }
    }

    /** One session's entry: bucket depth - 1 gains one, or the index is out of range. */
    static method Bucket(histogram: array<int>, ghost depths: seq<int>, i: nat, depth: int) returns (counted: bool)
      requires i < |depths| && depth == depths[i] && histogram.Length == MaxDepth(depths)
      requires forall b :: 0 <= b < histogram.Length ==> histogram[b] == CountIn(depths, i, b + 1)
      modifies histogram
      ensures counted <==> depth >= 1
      ensures counted ==> forall b :: 0 <= b < histogram.Length ==> histogram[b] == CountIn(depths, i + 1, b + 1)
    {
      if !(0 <= depth - 1 < histogram.Length) {
        return false;
      }
      histogram[depth - 1] := histogram[depth - 1] + 1;
      return true;
    }
  }
}
