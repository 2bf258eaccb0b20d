/**
 * Item, the node of the browsing hierarchy (MLES/Item.cs). An item is a value;
 * the hierarchy keeps one array of items per layer, and an item refers to its
 * neighbours by position: `children` are positions in the layer below, `parent`
 * is a position in the layer above. Within one layer no two items are equal,
 * because `localId` is the item's own position.
 */
module Items {
  import opened Wrappers
  import opened Vectors

  datatype Item = Item(
    id: int,                          // global id: the dataset index of the item or of its representative
    localId: int,                     // position within its own layer
    descriptor: Vec,
    children: Option<seq<nat>>,       // ClusterItems: None for dataset items
    parent: Option<nat>)              // ParentItem: None until a layer above lists the item

  /** new Item(id, layerLocalId, descriptor, clusterItems): no parent yet. */
  function NewItem(id: int, localId: int, descriptor: Vec, children: Option<seq<nat>>): (item: Item)
    ensures item.parent == None
    ensures item.id == id && item.localId == localId
    ensures item.descriptor == descriptor && item.children == children
  {
    Item(id, localId, descriptor, children, None)
  }

  function Ids(items: seq<Item>): (ids: seq<int>)
    ensures |ids| == |items| && forall i :: 0 <= i < |items| ==> ids[i] == items[i].id
  {
    seq(|items|, i requires 0 <= i < |items| => items[i].id)
  }

  /** SetParentItem: the item at `index` gets the parent at position `parent` of the layer above; nothing else changes. */
  method SetParentItem(layer: array<Item>, index: nat, parent: nat)
    requires index < layer.Length
    modifies layer
    ensures layer[..] == old(layer[..])[index := old(layer[index]).(parent := Some(parent))]
  {
    layer[index] := layer[index].(parent := Some(parent));
  }

  /** Item.GetDistanceSQR: the accumulator loop over the indices of `a`. */
  method GetDistanceSqr(a: Vec, b: Vec) returns (d: real)
    requires |a| <= |b|
    ensures d == DistanceSqr(a, b)
  {
    d := 0.0;
    var i := 0;
    while i < |a|
      invariant 0 <= i <= |a|
      invariant d == DistanceSqr(a[..i], b)
    {
      var value := b[i] - a[i];
      d := d + value * value;
      i := i + 1;
      assert a[..i][..i - 1] == a[..i - 1];
    }
    assert a[..|a|] == a;
  }
}
