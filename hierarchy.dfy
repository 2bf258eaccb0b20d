/**
 * What MLES.FillDataset and MLES.FillLayers build, as functions over values.
 * A clustering table lists, for each cluster of a layer, its representative's
 * global id and the global ids of its members in the layer below. Layers are
 * built from the dataset upwards; each new item resolves its members to
 * positions in the layer below and then becomes the parent of each of them.
 */
module Hierarchy {
  import opened Wrappers
  import opened Vectors
  import opened Items

  /** One line of a layer file: (representative id, member ids). */
  type Cluster = (int, seq<int>)
  type Table = seq<Cluster>

  /** FillDataset: item i of the dataset has id and local id i, no children and no parent. */
  function DatasetItems(vectors: seq<Vec>): (items: seq<Item>)
    ensures |items| == |vectors|
    ensures forall i :: 0 <= i < |items| ==> items[i] == Item(i, i, vectors[i], None, None)
  {
    seq(|vectors|, i requires 0 <= i < |vectors| => NewItem(i, i, vectors[i], None))
  }

  function Range(n: nat): (r: seq<int>)
    ensures |r| == n && forall i :: 0 <= i < n ==> r[i] == i
  {
    seq(n, i => i)
  }

  /** Position of the first occurrence of `id` in `ids`. */
  function FirstIndex(ids: seq<int>, id: int): (r: Option<nat>)
    ensures r.Some? ==> r.value < |ids| && ids[r.value] == id && id !in ids[..r.value]
    ensures r.None? <==> id !in ids
  {
    if |ids| == 0 then None
    else if ids[0] == id then Some(0)
    else
      match FirstIndex(ids[1..], id)
      case None => None
      case Some(k) =>
        assert ids[..k + 1] == [ids[0]] + ids[1..][..k];
        Some(k + 1)
  }

  /** In the dataset ids are positions, so looking an id up by index finds the first match. */
  lemma FirstIndexOfRange(n: nat, m: int)
    ensures FirstIndex(Range(n), m) == if 0 <= m < n then Some(m as nat) else None
  {
    if 0 <= m < n {
      assert Range(n)[m] == m;
      var r := FirstIndex(Range(n), m);
      assert Range(n)[r.value] == r.value;
    } else {
      assert m !in Range(n);
    }
  }

  /**
   * The member ids of one cluster resolved to positions in the layer below, in
   * order: by index into the dataset for the bottom clustering layer, by the first
   * item with that id otherwise.
   */
  function ResolveMembers(belowIds: seq<int>, members: seq<int>, bottom: bool): (r: Result<seq<nat>>)
    requires bottom ==> belowIds == Range(|belowIds|)
    ensures r.Ok? <==> forall i :: 0 <= i < |members| ==> members[i] in belowIds
    ensures r.Ok? ==> |r.value| == |members|
    ensures r.Ok? ==> forall i :: 0 <= i < |members| ==> FirstIndex(belowIds, members[i]) == Some(r.value[i])
    ensures r.Err? ==> r.error == (if bottom then IndexOutOfRange else InvalidOperation)
  {
    if |members| == 0 then Ok([])
    else
      var init := ResolveMembers(belowIds, members[..|members| - 1], bottom);
      var m := members[|members| - 1];
      if init.Err? then init
      else if bottom then
        FirstIndexOfRange(|belowIds|, m);
        if 0 <= m < |belowIds| then Ok(init.value + [m as nat]) else Err(IndexOutOfRange)
      else
        match FirstIndex(belowIds, m)
        case None => Err(InvalidOperation)
        case Some(k) => Ok(init.value + [k])
  }

  /** Every listed child's parent becomes p (SetParentItem on each member in turn). */
  function SetParents(below: seq<Item>, children: seq<nat>, p: nat): (r: seq<Item>)
    requires forall i :: 0 <= i < |children| ==> children[i] < |below|
    ensures |r| == |below|
    ensures forall k :: 0 <= k < |below| ==>
      r[k] == if k in children then below[k].(parent := Some(p)) else below[k]
    decreases |children|
  {
    if |children| == 0 then below
    else
      var c := children[0];
      SetParents(below[c := below[c].(parent := Some(p))], children[1..], p)
  }

  /** The position of the last item of `upper` listing position j as a child: j's parent. */
  function LastParent(upper: seq<Item>, j: nat): (r: Option<nat>)
    ensures r.Some? ==> r.value < |upper| && upper[r.value].children.Some? && j in upper[r.value].children.value
    ensures forall p :: 0 <= p < |upper| && upper[p].children.Some? && j in upper[p].children.value ==>
      r.Some? && p <= r.value
  {
    if |upper| == 0 then None
    else
      var last := upper[|upper| - 1];
      if last.children.Some? && j in last.children.value then Some(|upper| - 1)
      else LastParent(upper[..|upper| - 1], j)
  }

  /** The ids of a built layer: the representatives, in table order. */
  function TableIds(table: Table): (ids: seq<int>)
    ensures |ids| == |table| && forall j :: 0 <= j < |table| ==> ids[j] == table[j].0
  {
    seq(|table|, j requires 0 <= j < |table| => table[j].0)
  }

  /** Whether a cluster can be built: its representative is a dataset index and its members are ids in `belowIds`. */
  predicate ClusterResolvable(cluster: Cluster, belowIds: seq<int>, n: nat)
  {
    0 <= cluster.0 < n && forall i :: 0 <= i < |cluster.1| ==> cluster.1[i] in belowIds
  }

  /** Whether every cluster of the table can be built over a layer with ids `belowIds`. */
  predicate StepResolvable(table: Table, belowIds: seq<int>, n: nat)
  {
    forall j :: 0 <= j < |table| ==> ClusterResolvable(table[j], belowIds, n)
  }

  /** Item j of `layer` is the j-th cluster of the table, with its members resolved in the layer below. */
  predicate ClusterItem(table: Table, vectors: seq<Vec>, layer: seq<Item>, belowIds: seq<int>, j: nat)
    requires j < |table| && j < |layer|
  {
    var item := layer[j];
    item.id == table[j].0 && 0 <= item.id < |vectors| && item.localId == j &&
    item.descriptor == vectors[item.id] && item.children.Some? &&
    |item.children.value| == |table[j].1| &&
    forall i :: 0 <= i < |table[j].1| ==> FirstIndex(belowIds, table[j].1[i]) == Some(item.children.value[i])
  }

  predicate Realizes(table: Table, vectors: seq<Vec>, layer: seq<Item>, belowIds: seq<int>)
  {
    |layer| == |table| && forall j :: 0 <= j < |table| ==> ClusterItem(table, vectors, layer, belowIds, j)
  }

  /** `after` is `before` with the parent of each position set from `upper`, where `upper` lists it. */
  predicate ParentsFrom(upper: seq<Item>, before: seq<Item>, after: seq<Item>)
  {
    |after| == |before| &&
    forall k :: 0 <= k < |before| ==>
      after[k] == if LastParent(upper, k).Some? then before[k].(parent := LastParent(upper, k)) else before[k]
  }

  lemma ParentsFromKeepsIds(upper: seq<Item>, before: seq<Item>, after: seq<Item>)
    requires ParentsFrom(upper, before, after)
    ensures Ids(after) == Ids(before)
  {
  }

  /** LastParent depends only on the items' children. */
  lemma {:induction false} LastParentOfChildren(a: seq<Item>, b: seq<Item>, j: nat)
    requires |a| == |b| && forall p :: 0 <= p < |a| ==> a[p].children == b[p].children
    ensures LastParent(a, j) == LastParent(b, j)
    decreases |a|
  {
    if |a| > 0 {
      LastParentOfChildren(a[..|a| - 1], b[..|b| - 1], j);
    }
  }

  /**
   * One pass of the outer loop of FillLayers: the new layer's items in table
   * order, and the layer below with its parent links set. Members are looked up
   * among the ids of the layer below, which setting parent links leaves as they are.
   */
  function LayerStep(table: Table, below: seq<Item>, vectors: seq<Vec>, bottom: bool): (r: Result<(seq<Item>, seq<Item>)>)
    requires bottom ==> Ids(below) == Range(|below|)
    ensures r.Ok? ==> |r.value.1| == |below|
    decreases |table|
  {
    if |table| == 0 then Ok(([], below))
    else
      var j := |table| - 1;
      var previous := LayerStep(table[..j], below, vectors, bottom);
      if previous.Err? then previous
      else
        var item := MakeItem(table[j], j, Ids(below), vectors, bottom);
        if item.Err? then Err(item.error)
        else Ok((previous.value.0 + [item.value], SetParents(previous.value.1, item.value.children.value, j)))
  }

  /**
   * The item for cluster j (MLES.cs:101-122): its representative's descriptor and
   * its members resolved in the layer below, or the error raised on the way.
   */
  function MakeItem(cluster: Cluster, j: nat, belowIds: seq<int>, vectors: seq<Vec>, bottom: bool): (r: Result<Item>)
    requires bottom ==> belowIds == Range(|belowIds|)
    ensures r.Ok? ==> r.value.children.Some? && forall i :: 0 <= i < |r.value.children.value| ==> r.value.children.value[i] < |belowIds|
  {
    if !(0 <= cluster.0 < |vectors|) then Err(IndexOutOfRange)
    else
      var children := ResolveMembers(belowIds, cluster.1, bottom);
      if children.Err? then Err(children.error)
      else Ok(NewItem(cluster.0, j, vectors[cluster.0], Some(children.value)))
  }

  lemma StepResolvableSnoc(table: Table, ids: seq<int>, n: nat)
    requires |table| > 0
    ensures StepResolvable(table, ids, n) <==>
      StepResolvable(table[..|table| - 1], ids, n) && ClusterResolvable(table[|table| - 1], ids, n)
  {
    var j := |table| - 1;
    if StepResolvable(table[..j], ids, n) {
      forall c | 0 <= c < j
        ensures ClusterResolvable(table[c], ids, n)
      {
        assert table[..j][c] == table[c];
      }
    }
  }

  /**
   * One pass builds exactly when every cluster resolves; the new items are the
   * table's clusters, without parents, and each position of the layer below gets
   * as parent the last cluster listing it (a later listing overwrites an earlier one).
   */
  lemma {:induction false} LayerStepSpec(table: Table, below: seq<Item>, vectors: seq<Vec>, bottom: bool)
    requires bottom ==> Ids(below) == Range(|below|)
    ensures var r := LayerStep(table, below, vectors, bottom);
      (r.Ok? <==> StepResolvable(table, Ids(below), |vectors|)) &&
      (r.Ok? ==> Realizes(table, vectors, r.value.0, Ids(below))) &&
      (r.Ok? ==> forall j :: 0 <= j < |r.value.0| ==> r.value.0[j].parent == None) &&
      (r.Ok? ==> ParentsFrom(r.value.0, below, r.value.1)) &&
      (r.Err? ==> r.error == IndexOutOfRange || r.error == InvalidOperation)
    decreases |table|
  {
    if |table| > 0 {
      var j := |table| - 1;
      LayerStepSpec(table[..j], below, vectors, bottom);
      StepResolvableSnoc(table, Ids(below), |vectors|);
      var previous := LayerStep(table[..j], below, vectors, bottom);
      if previous.Ok? {
        var item := MakeItem(table[j], j, Ids(below), vectors, bottom);
        if item.Ok? {
          LayerStepExtends(table, below, vectors, previous.value.0, previous.value.1, item.value);
        }
      }
    }
  }

  /** The inductive step of LayerStepSpec: appending one cluster item. */
  lemma LayerStepExtends(table: Table, below: seq<Item>, vectors: seq<Vec>, items: seq<Item>, partial: seq<Item>, item: Item)
    requires |table| > 0
    requires Realizes(table[..|table| - 1], vectors, items, Ids(below))
    requires ParentsFrom(items, below, partial)
    requires item.id == table[|table| - 1].0 && 0 <= item.id < |vectors| && item.localId == |table| - 1
    requires item.descriptor == vectors[item.id] && item.children.Some?
    requires |item.children.value| == |table[|table| - 1].1|
    requires forall i :: 0 <= i < |table[|table| - 1].1| ==>
      FirstIndex(Ids(below), table[|table| - 1].1[i]) == Some(item.children.value[i])
    ensures forall i :: 0 <= i < |item.children.value| ==> item.children.value[i] < |partial|
    ensures Realizes(table, vectors, items + [item], Ids(below))
    ensures ParentsFrom(items + [item], below, SetParents(partial, item.children.value, |table| - 1))
  {
    var j := |table| - 1;
    var next := items + [item];
    forall c | 0 <= c < |table|
      ensures ClusterItem(table, vectors, next, Ids(below), c)
    {
      if c < j {
        assert ClusterItem(table[..j], vectors, items, Ids(below), c);
        assert table[..j][c] == table[c];
      }
    }
    forall k | 0 <= k < |below|
      ensures LastParent(next, k) == if k in item.children.value then Some(j) else LastParent(items, k)
    {
      assert next[..j] == items;
    }
  }

  /**
   * The rest of FillLayers once the layers below index k are built and `below` is
   * layer k without parent links: layers 0 .. k, each with its parent links set.
   */
  function BuildFrom(tables: seq<Table>, k: nat, below: seq<Item>, vectors: seq<Vec>): (r: Result<seq<seq<Item>>>)
    requires k <= |tables|
    requires k == |tables| ==> Ids(below) == Range(|below|)
    decreases k
  {
    if k == 0 then Ok([below])
    else
      var step := LayerStep(tables[k - 1], below, vectors, k == |tables|);
      if step.Err? then Err(step.error)
      else
        var (layer, linked) := step.value;
        var upper := BuildFrom(tables, k - 1, layer, vectors);
        if upper.Err? then upper
        else Ok(upper.value + [linked])
  }

  /** The ids of layer i + 1 while layers 0 .. k are being built over `belowIds` at layer k. */
  function IdsUnder(tables: seq<Table>, k: nat, belowIds: seq<int>, i: nat): seq<int>
    requires i < k <= |tables|
  {
    if i + 1 == k then belowIds else TableIds(tables[i + 1])
  }

  /** Every clustering layer above index k resolves against the layer below it; layer k has ids `belowIds`. */
  predicate ResolvableFrom(tables: seq<Table>, k: nat, belowIds: seq<int>, n: nat)
    requires k <= |tables|
  {
    forall i :: 0 <= i < k ==> StepResolvable(tables[i], IdsUnder(tables, k, belowIds, i), n)
  }

  lemma ResolvableFromSnoc(tables: seq<Table>, k: nat, belowIds: seq<int>, n: nat)
    requires 0 < k <= |tables|
    ensures ResolvableFrom(tables, k, belowIds, n) <==>
      StepResolvable(tables[k - 1], belowIds, n) && ResolvableFrom(tables, k - 1, TableIds(tables[k - 1]), n)
  {
    forall i | 0 <= i < k - 1
      ensures IdsUnder(tables, k, belowIds, i) == IdsUnder(tables, k - 1, TableIds(tables[k - 1]), i)
    {
    }
    assert IdsUnder(tables, k, belowIds, k - 1) == belowIds;
  }

  lemma RealizedIds(table: Table, vectors: seq<Vec>, layer: seq<Item>, belowIds: seq<int>)
    requires Realizes(table, vectors, layer, belowIds)
    ensures Ids(layer) == TableIds(table)
  {
    forall j | 0 <= j < |table|
      ensures layer[j].id == table[j].0
    {
      assert ClusterItem(table, vectors, layer, belowIds, j);
    }
  }

  /** What BuildFrom states about the layers it builds. */
  predicate Built(tables: seq<Table>, k: nat, below: seq<Item>, vectors: seq<Vec>, layers: seq<seq<Item>>)
    requires k <= |tables|
  {
    |layers| == k + 1 && |layers[k]| == |below| &&
    (forall i :: 0 <= i < k ==> Realizes(tables[i], vectors, layers[i], Ids(layers[i + 1]))) &&
    (forall i, j :: 0 <= i < k && 0 <= j < |layers[i + 1]| ==> layers[i + 1][j].parent == LastParent(layers[i], j)) &&
    (forall j :: 0 <= j < |layers[0]| ==> layers[0][j].parent == None) &&
    (forall j :: 0 <= j < |below| ==> layers[k][j] == below[j].(parent := layers[k][j].parent))
  }

  /**
   * Building layers 0 .. k succeeds exactly when every clustering layer resolves
   * against the ids of the layer below it, and then layer i is clustering table i
   * over layer i + 1, parent links point to the last listing cluster, the top layer
   * has no parents and layer k is `below` with only its parent links set.
   */
  lemma {:induction false} BuildFromSpec(tables: seq<Table>, k: nat, below: seq<Item>, vectors: seq<Vec>)
    requires k <= |tables|
    requires k == |tables| ==> Ids(below) == Range(|below|)
    requires forall j :: 0 <= j < |below| ==> below[j].parent == None
    ensures var r := BuildFrom(tables, k, below, vectors);
      (r.Ok? <==> ResolvableFrom(tables, k, Ids(below), |vectors|)) &&
      (r.Ok? ==> Built(tables, k, below, vectors, r.value)) &&
      (r.Err? ==> r.error == IndexOutOfRange || r.error == InvalidOperation)
    decreases k
  {
    if k > 0 {
      ResolvableFromSnoc(tables, k, Ids(below), |vectors|);
      LayerStepSpec(tables[k - 1], below, vectors, k == |tables|);
      var step := LayerStep(tables[k - 1], below, vectors, k == |tables|);
      if step.Ok? {
        var (layer, linked) := step.value;
        BuildFromSpec(tables, k - 1, layer, vectors);
        RealizedIds(tables[k - 1], vectors, layer, Ids(below));

        var upper := BuildFrom(tables, k - 1, layer, vectors);
        if upper.Ok? {
          BuildFromExtends(tables, k, below, vectors, layer, linked, upper.value);
        }
      }
    }
  }

  /** The inductive step of BuildFromSpec: appending the linked layer k below layers 0 .. k-1. */
  lemma BuildFromExtends(tables: seq<Table>, k: nat, below: seq<Item>, vectors: seq<Vec>,
                         layer: seq<Item>, linked: seq<Item>, upper: seq<seq<Item>>)
    requires 0 < k <= |tables|
    requires forall j :: 0 <= j < |below| ==> below[j].parent == None
    requires Realizes(tables[k - 1], vectors, layer, Ids(below))
    requires ParentsFrom(layer, below, linked)
    requires Built(tables, k - 1, layer, vectors, upper)
    ensures Built(tables, k, below, vectors, upper + [linked])
  {
    var r := upper + [linked];
    ParentsFromKeepsIds(layer, below, linked);
    assert Ids(upper[k - 1]) == Ids(layer);
    forall i | 0 <= i < k
      ensures Realizes(tables[i], vectors, r[i], Ids(r[i + 1]))
    {
      assert r[i] == upper[i];
      if i == k - 1 {
        assert Ids(r[i + 1]) == Ids(below);
        forall j | 0 <= j < |tables[i]|
          ensures ClusterItem(tables[i], vectors, r[i], Ids(below), j)
        {
          assert ClusterItem(tables[i], vectors, layer, Ids(below), j);
          assert r[i][j] == layer[j].(parent := r[i][j].parent);
        }
      } else {
        assert r[i + 1] == upper[i + 1];
      }
    }
    forall j | 0 <= j < |below|
      ensures linked[j].parent == LastParent(upper[k - 1], j)
    {
      LastParentOfChildren(upper[k - 1], layer, j);
    }
  }

  /** FillLayers as a whole: the clustering layers over the dataset, the dataset last. */
  function BuildLayers(tables: seq<Table>, vectors: seq<Vec>): Result<seq<seq<Item>>>
  {
    assert Ids(DatasetItems(vectors)) == Range(|vectors|);
    BuildFrom(tables, |tables|, DatasetItems(vectors), vectors)
  }

  /**
   * Every representative id is a dataset index, and every member id is the id of
   * an item of the layer below.
   */
  predicate Resolvable(tables: seq<Table>, n: nat)
  {
    ResolvableFrom(tables, |tables|, Range(n), n)
  }

  /**
   * FillLayers succeeds exactly when the tables resolve over a dataset of |vectors|
   * items. It then yields one layer per table plus the dataset, last: clustering
   * layer k is table k over layer k + 1, each item below a clustering layer has as
   * parent the last cluster listing it, the top layer has no parents, and the
   * dataset items keep their ids, local ids and descriptors and have no children.
   */
  lemma BuildLayersSpec(tables: seq<Table>, vectors: seq<Vec>)
    ensures var r := BuildLayers(tables, vectors);
      (r.Ok? <==> Resolvable(tables, |vectors|)) &&
      (r.Ok? ==> Built(tables, |tables|, DatasetItems(vectors), vectors, r.value)) &&
      (r.Ok? ==> forall i :: 0 <= i < |vectors| ==>
        r.value[|tables|][i].id == i && r.value[|tables|][i].localId == i &&
        r.value[|tables|][i].descriptor == vectors[i] && r.value[|tables|][i].children == None) &&
      (r.Err? ==> r.error == IndexOutOfRange || r.error == InvalidOperation)
  {
    var items := DatasetItems(vectors);
    assert Ids(items) == Range(|vectors|);
    BuildFromSpec(tables, |tables|, items, vectors);
  }

  /** The number of member ids listed in a table (TestLayerChildrenCount's sum). */
  function MemberCount(table: Table): nat
  {
    if |table| == 0 then 0 else MemberCount(table[..|table| - 1]) + |table[|table| - 1].1|
  }

  /** Every parent link points to an item of the layer above. */
  predicate Linked(layers: seq<seq<Item>>)
  {
    forall k, j :: 0 <= k < |layers| && 0 <= j < |layers[k]| && layers[k][j].parent.Some? ==>
      0 < k && layers[k][j].parent.value < |layers[k - 1]|
  }

  /** No item of the top layer has a parent. */
  predicate TopUnlinked(layers: seq<seq<Item>>)
  {
    |layers| > 0 && forall j :: 0 <= j < |layers[0]| ==> layers[0][j].parent.None?
  }

  /**
   * The position in layer k - steps reached from item j of layer k by following
   * `steps` parent links, or None once a link is missing.
   */
  function Climb(layers: seq<seq<Item>>, k: nat, j: nat, steps: nat): (r: Option<nat>)
    requires Linked(layers) && k < |layers| && j < |layers[k]|
    ensures r.Some? ==> steps <= k && r.value < |layers[k - steps]|
    decreases steps
  {
    if steps == 0 then Some(j)
    else
      var below := Climb(layers, k, j, steps - 1);
      if below.None? then None else layers[k - (steps - 1)][below.value].parent
  }

  /** Once a link is missing, following more links reaches nothing either. */
  lemma {:induction false} ClimbStopsAtMissingLink(layers: seq<seq<Item>>, k: nat, j: nat, i: nat, steps: nat)
    requires Linked(layers) && k < |layers| && j < |layers[k]| && i <= steps
    requires Climb(layers, k, j, i).None?
    ensures Climb(layers, k, j, steps).None?
    decreases steps
  {
    if i < steps {
      ClimbStopsAtMissingLink(layers, k, j, i, steps - 1);
    }
  }

  /**
   * TestLayerParent's check of item j of layer k (MLES.cs:148-157): following a
   * missing link, or reading the link of a missing item, throws NullReference; an
   * item reached after expectedParentCount links that still has a parent fails.
   */
  function ParentCheck(layers: seq<seq<Item>>, k: nat, j: nat, expectedParentCount: int): Outcome
    requires Linked(layers) && k < |layers| && j < |layers[k]|
  {
    var steps := if expectedParentCount < 0 then 0 else expectedParentCount;
    var reached := Climb(layers, k, j, steps);
    if reached.None? then Fail(NullReference)
    else if layers[k - steps][reached.value].parent.Some? then Fail(Argument)
    else Pass
  }

  /** TestLayerParent over items j .. of layer k: the first failing check, in item order. */
  function LayerCheck(layers: seq<seq<Item>>, k: nat, expectedParentCount: int, j: nat): (r: Outcome)
    requires Linked(layers) && k < |layers| && j <= |layers[k]|
    decreases |layers[k]| - j
  {
    if j == |layers[k]| then Pass
    else
      var check := ParentCheck(layers, k, j, expectedParentCount);
      if check.Fail? then check else LayerCheck(layers, k, expectedParentCount, j + 1)
  }

  /** The layer check passes exactly when every item's check does, and fails otherwise with some item's error. */
  lemma {:induction false} LayerCheckAll(layers: seq<seq<Item>>, k: nat, expectedParentCount: int, j: nat)
    requires Linked(layers) && k < |layers| && j <= |layers[k]|
    ensures LayerCheck(layers, k, expectedParentCount, j).Pass? <==>
      forall i :: j <= i < |layers[k]| ==> ParentCheck(layers, k, i, expectedParentCount).Pass?
    ensures LayerCheck(layers, k, expectedParentCount, j).Fail? ==>
      exists i :: j <= i < |layers[k]| && ParentCheck(layers, k, i, expectedParentCount) == LayerCheck(layers, k, expectedParentCount, j)
    decreases |layers[k]| - j
  {
    if j < |layers[k]| {
      LayerCheckAll(layers, k, expectedParentCount, j + 1);
    }
  }

  /**
   * With the top layer unlinked, the check of layer k with k expected parents
   * passes exactly when every item of layer k reaches the top by k links.
   */
  lemma LayerCheckAtDepth(layers: seq<seq<Item>>, k: nat)
    requires Linked(layers) && TopUnlinked(layers) && k < |layers|
    ensures LayerCheck(layers, k, k, 0).Pass? <==> forall j :: 0 <= j < |layers[k]| ==> Climb(layers, k, j, k).Some?
  {
    LayerCheckAll(layers, k, k, 0);
    forall j | 0 <= j < |layers[k]|
      ensures ParentCheck(layers, k, j, k).Pass? <==> Climb(layers, k, j, k).Some?
    {
      var reached := Climb(layers, k, j, k);
      if reached.Some? {
        assert layers[0][reached.value].parent.None?;
        assert ParentCheck(layers, k, j, k) == Pass;
      } else {
        assert ParentCheck(layers, k, j, k) == Fail(NullReference);
      }
    }
    if LayerCheck(layers, k, k, 0).Pass? {
      assert forall j :: 0 <= j < |layers[k]| ==> ParentCheck(layers, k, j, k).Pass?;
    } else {
      var j :| 0 <= j < |layers[k]| && !ParentCheck(layers, k, j, k).Pass?;
      assert Climb(layers, k, j, k).None?;
    }
  }

  /** Expecting more parents than there are layers above fails on any item with NullReference. */
  lemma TooManyParentsFails(layers: seq<seq<Item>>, k: nat, expectedParentCount: int, j: nat)
    requires Linked(layers) && k < |layers| && j < |layers[k]| && expectedParentCount > k
    ensures ParentCheck(layers, k, j, expectedParentCount) == Fail(NullReference)
  {
  }

  /** When every item of layers 1 .. k has a parent, every item of layer k reaches the top by k links. */
  lemma {:induction false} CoveredClimbs(layers: seq<seq<Item>>, k: nat, j: nat, steps: nat)
    requires Linked(layers) && k < |layers| && j < |layers[k]| && steps <= k
    requires forall i, m :: 0 < i <= k && 0 <= m < |layers[i]| ==> layers[i][m].parent.Some?
    ensures Climb(layers, k, j, steps).Some?
    decreases steps
  {
    if steps > 0 {
      CoveredClimbs(layers, k, j, steps - 1);
    }
  }

  /**
   * The check TestLayerParent(Layers[k], k) is meant to pass: when every item of
   * layers 1 .. k has a parent and the top layer none, it does.
   */
  lemma CoveredLayerPasses(layers: seq<seq<Item>>, k: nat)
    requires Linked(layers) && TopUnlinked(layers) && k < |layers|
    requires forall i, m :: 0 < i <= k && 0 <= m < |layers[i]| ==> layers[i][m].parent.Some?
    ensures LayerCheck(layers, k, k, 0) == Pass
  {
    forall j | 0 <= j < |layers[k]|
      ensures Climb(layers, k, j, k).Some?
    {
      CoveredClimbs(layers, k, j, k);
    }
    LayerCheckAtDepth(layers, k);
  }

  /** Layers that BuildFrom builds are linked, with the top layer unlinked. */
  lemma BuiltLinked(tables: seq<Table>, k: nat, below: seq<Item>, vectors: seq<Vec>, layers: seq<seq<Item>>)
    requires k <= |tables| && Built(tables, k, below, vectors, layers)
    ensures Linked(layers) && TopUnlinked(layers)
  {
    forall i, j | 0 <= i < |layers| && 0 <= j < |layers[i]| && layers[i][j].parent.Some?
      ensures 0 < i && layers[i][j].parent.value < |layers[i - 1]|
    {
      if i > 0 {
        assert layers[i][j].parent == LastParent(layers[i - 1], j);
      }
    }
  }
}
