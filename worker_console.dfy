/** The worker console (box_show/src/box/wk.js): a task's items are mapped to
    display records, the worker steps through them with Next / Previous or by
    picking one from the list, every item shown is remembered once in
    `placedItems`, and the top view shows the items of the current layer. */
module WorkerConsole {
  import opened Wrappers
  import opened Geometry
  import opened Digits
  import opened JsValues

  /** An item as the backend API returns it. */
  datatype ApiItem = ApiItem(orderId: int, name: string, dimensions: Vec3, position: Vec3, faceUp: bool, fragile: bool)

  datatype ApiTask = ApiTask(spaceInfo: Vec3, items: seq<ApiItem>)

  /** An item as the console lists and draws it. */
  datatype DisplayItem = DisplayItem(
    id: string, name: string,
    width: real, height: real, depth: real,
    x: real, y: real, z: real,
    constraints: seq<string>, color: Option<string>)

  const Palette: seq<string> :=
    ["#8dd3c7", "#bebada", "#fb8072", "#80b1d3", "#fdb462", "#b3de69", "#fccde5", "#d9d9d9"]

  /** JavaScript's `%`: the remainder takes the sign of the dividend. */
  function JsRem(a: int, b: int): (r: int)
    requires b > 0
    ensures -b < r < b
    ensures a >= 0 ==> r == a % b
  {
    if a >= 0 then a % b else -((-a) % b)
  }

  /** `getRandomColor(id)`: `colors[id % colors.length]`, which is undefined
      for a negative remainder; a negative multiple of 8 gives -0, which
      indexes the first colour. */
  function PaletteColor(id: int): (r: Option<string>)
    ensures id >= 0 ==> r == Some(Palette[id % 8])
    ensures r.Some? ==> r.value in Palette
    ensures r.None? <==> id < 0 && id % 8 != 0
  {
    var k := JsRem(id, |Palette|);
    if k >= 0 then Some(Palette[k]) else None
  }

  /** `String(n)` for an integer. */
  function IntToString(n: int): (s: string)
    ensures |s| >= 1
  {
    if n < 0 then "-" + NatToDecimal(-n) else NatToDecimal(n)
  }

  lemma IntToStringInjective(m: int, n: int)
    requires IntToString(m) == IntToString(n)
    ensures m == n
  {
    var sm, sn := IntToString(m), IntToString(n);
    assert sm[0] == '-' <==> m < 0 by { if m >= 0 { assert IsDigit(sm[0], 10); } }
    assert sn[0] == '-' <==> n < 0 by { if n >= 0 { assert IsDigit(sn[0], 10); } }
    if m < 0 {
      assert sm[1..] == NatToDecimal(-m) && sn[1..] == NatToDecimal(-n);
      NatToDigitsInjective(-m, -n, 10);
    } else {
      NatToDigitsInjective(m, n, 10);
    }
  }

  /** The constraint labels of an item, in this order. */
  function ConstraintLabels(faceUp: bool, fragile: bool): (r: seq<string>)
    ensures "Face Up" in r <==> faceUp
    ensures "Fragile" in r <==> fragile
    ensures |r| == (if faceUp then 1 else 0) + (if fragile then 1 else 0)
    ensures faceUp ==> r[0] == "Face Up"
  {
    (if faceUp then ["Face Up"] else []) + (if fragile then ["Fragile"] else [])
  }

  /** The record `handleSelectTask` builds for one API item: the id is "item"
      and the order number, sizes and position are copied, there is one label
      per flag set, and the colour, when there is one, is a palette entry. */
  function ToDisplay(it: ApiItem): (d: DisplayItem)
    ensures |d.id| > 4 && d.id[..4] == "item"
    ensures d.name == it.name
    ensures Vec3(d.width, d.height, d.depth) == it.dimensions && Vec3(d.x, d.y, d.z) == it.position
    ensures "Face Up" in d.constraints <==> it.faceUp
    ensures "Fragile" in d.constraints <==> it.fragile
    ensures d.color.Some? ==> d.color.value in Palette
  {
    DisplayItem(
      "item" + IntToString(it.orderId), it.name,
      it.dimensions.x, it.dimensions.y, it.dimensions.z,
      it.position.x, it.position.y, it.position.z,
      ConstraintLabels(it.faceUp, it.fragile), PaletteColor(it.orderId))
  }

  /** `task.items.map(...)`: one record per item, in order. */
  function MapItems(items: seq<ApiItem>): (r: seq<DisplayItem>)
    ensures |r| == |items|
    ensures forall i :: 0 <= i < |items| ==> r[i] == ToDisplay(items[i])
  {
    seq(|items|, i requires 0 <= i < |items| => ToDisplay(items[i]))
  }

  /** The display record loses nothing: the API item can be read back from
      it (id from the order number, sizes, position, flags from the labels). */
  lemma ToDisplayInjective(a: ApiItem, b: ApiItem)
    requires ToDisplay(a) == ToDisplay(b)
    ensures a == b
  {
    var da, db := ToDisplay(a), ToDisplay(b);
    assert da.id[4..] == IntToString(a.orderId) && db.id[4..] == IntToString(b.orderId);
    IntToStringInjective(a.orderId, b.orderId);
    assert a.faceUp <==> "Face Up" in da.constraints;
    assert a.fragile <==> "Fragile" in da.constraints;
  }

  /** Different task item lists give different display lists. */
  lemma MapItemsInjective(a: seq<ApiItem>, b: seq<ApiItem>)
    requires MapItems(a) == MapItems(b)
    ensures a == b
  {
    forall i | 0 <= i < |a| ensures a[i] == b[i] {
      ToDisplayInjective(a[i], b[i]);
    }
  }

  /** For a non-negative order number, the digits after "item" parse back to it. */
  lemma DisplayIdParses(it: ApiItem)
    requires it.orderId >= 0
    ensures ToDisplay(it).id[..4] == "item"
    ensures ParseFloat(ToDisplay(it).id[4..]) == Finite(it.orderId as real)
  {
    var id := ToDisplay(it).id;
    assert id[4..] == Zeros(0) + NatToDecimal(it.orderId);
    ParseFloatOfDecimal(0, it.orderId);
  }

  function Abs(r: real): real {
    if r < 0.0 then -r else r
  }

  /** Shown in the top view: on the layer (height within 0.01 of `layerY`)
      or the selected item itself. */
  predicate InLayer(d: DisplayItem, layerY: real, selectedId: string) {
    Abs(d.y - layerY) < 0.01 || d.id == selectedId
  }

  /** `itemList.filter(...)`: the items of the current layer, plus the selected one. */
  function LayerFilter(items: seq<DisplayItem>, layerY: real, selectedId: string): (r: seq<DisplayItem>)
    ensures |r| <= |items|
    ensures forall i :: 0 <= i < |r| ==> InLayer(r[i], layerY, selectedId)
  {
    if items == [] then []
    else (if InLayer(items[0], layerY, selectedId) then [items[0]] else [])
         + LayerFilter(items[1..], layerY, selectedId)
  }

  /** Exactly the items of the layer and the selected one are shown. */
  lemma {:induction false} LayerFilterMembers(items: seq<DisplayItem>, layerY: real, selectedId: string, x: DisplayItem)
    ensures x in LayerFilter(items, layerY, selectedId) <==> x in items && InLayer(x, layerY, selectedId)
    decreases |items|
  {
    if items != [] {
      LayerFilterMembers(items[1..], layerY, selectedId, x);
      assert items == [items[0]] + items[1..];
    }
  }

  /** The filter works piecewise, so the shown items keep the list order. */
  lemma {:induction false} LayerFilterAppend(a: seq<DisplayItem>, b: seq<DisplayItem>, layerY: real, selectedId: string)
    ensures LayerFilter(a + b, layerY, selectedId) == LayerFilter(a, layerY, selectedId) + LayerFilter(b, layerY, selectedId)
    decreases |a|
  {
    if a == [] {
      assert a + b == b;
    } else {
      var head := if InLayer(a[0], layerY, selectedId) then [a[0]] else [];
      LayerFilterAppend(a[1..], b, layerY, selectedId);
      assert (a + b)[0] == a[0];
      assert (a + b)[1..] == a[1..] + b;
      calc {
        LayerFilter(a + b, layerY, selectedId);
        head + LayerFilter(a[1..] + b, layerY, selectedId);
        head + (LayerFilter(a[1..], layerY, selectedId) + LayerFilter(b, layerY, selectedId));
        (head + LayerFilter(a[1..], layerY, selectedId)) + LayerFilter(b, layerY, selectedId);
      }
    }
  }

  /** The selected item is always shown, whatever the layer height. */
  lemma SelectedAlwaysShown(items: seq<DisplayItem>, layerY: real, k: nat)
    requires k < |items|
    ensures items[k] in LayerFilter(items, layerY, items[k].id)
  {
    LayerFilterMembers(items, layerY, items[k].id, items[k]);
  }

  predicate HasId(placed: seq<DisplayItem>, id: string) {
    exists i :: 0 <= i < |placed| && placed[i].id == id
  }

  predicate UniqueIds(placed: seq<DisplayItem>) {
    forall i, j :: 0 <= i < j < |placed| ==> placed[i].id != placed[j].id
  }

  /** `placedItems` after showing `item`: the item's id is recorded, no entry
      is dropped, and one entry is added exactly when the id was new. */
  function PlaceOnce(placed: seq<DisplayItem>, item: DisplayItem): (r: seq<DisplayItem>)
    ensures HasId(r, item.id)
    ensures placed <= r
    ensures |r| == if HasId(placed, item.id) then |placed| else |placed| + 1
  {
    if HasId(placed, item.id) then placed
    else
      var r := placed + [item];
      assert r[|placed|].id == item.id;
      r
  }

  /** Showing an item keeps `placedItems` free of duplicate ids. */
  lemma PlaceOnceKeepsUnique(placed: seq<DisplayItem>, item: DisplayItem)
    requires UniqueIds(placed)
    ensures UniqueIds(PlaceOnce(placed, item))
  {
    var r := PlaceOnce(placed, item);
    if !HasId(placed, item.id) {
      forall i, j | 0 <= i < j < |r| ensures r[i].id != r[j].id {
        if j == |placed| {
          assert r[i] == placed[i];
        }
      }
    }
  }

  class Console {
    var currentItemIndex: int
    var itemList: seq<DisplayItem>
    var spaceSize: Vec3
    var placedItems: seq<DisplayItem>
    var currentLayerY: real
    var selectedTask: Option<ApiTask>

    /** The index is -1 (nothing selected) or a position in the list, and no
        item is remembered twice. */
    ghost predicate Valid()
      reads this
    {
      -1 <= currentItemIndex < |itemList| && UniqueIds(placedItems)
    }

    constructor ()
      ensures Valid()
      ensures currentItemIndex == -1 && itemList == [] && spaceSize == Vec3(10.0, 10.0, 10.0)
      ensures placedItems == [] && currentLayerY == 0.0 && selectedTask == None
    {
      currentItemIndex := -1;
      itemList := [];
      spaceSize := Vec3(10.0, 10.0, 10.0);
      placedItems := [];
      currentLayerY := 0.0;
      selectedTask := None;
    }

    /** `currentItem`: the item at the index, or none outside the list. */
    function CurrentItem(): (r: Option<DisplayItem>)
      reads this
      ensures r.Some? <==> 0 <= currentItemIndex < |itemList|
      ensures r.Some? ==> r.value == itemList[currentItemIndex]
    {
      if 0 <= currentItemIndex < |itemList| then Some(itemList[currentItemIndex]) else None
    }

    /** Under the invariant, there is no current item only before the first step. */
    lemma NoCurrentItemMeansUnstarted()
      requires Valid()
      ensures CurrentItem().None? <==> currentItemIndex == -1
    {
    }

    /** `handleSelectTask`: the container and the mapped items come from the
        task, and stepping starts over. */
    method SelectTask(task: ApiTask)
      modifies this
      ensures Valid()
      ensures selectedTask == Some(task) && spaceSize == task.spaceInfo
      ensures itemList == MapItems(task.items)
      ensures currentItemIndex == -1 && placedItems == [] && currentLayerY == 0.0
    {
      selectedTask := Some(task);
      spaceSize := task.spaceInfo;
      itemList := MapItems(task.items);
      currentItemIndex := -1;
      placedItems := [];
      currentLayerY := 0.0;
    }

    /** `addOrHighlightItem`: the layer becomes the item's height, the item is
        remembered once, and the top view shows the layer filtered by
        `closureLayerY`, the layer height the handler was created with. */
    method AddOrHighlight(item: DisplayItem, closureLayerY: real) returns (layer: seq<DisplayItem>)
      requires Valid()
      modifies this
      ensures Valid()
      ensures currentLayerY == item.y
      ensures placedItems == PlaceOnce(old(placedItems), item)
      ensures layer == LayerFilter(itemList, closureLayerY, item.id)
      ensures currentItemIndex == old(currentItemIndex) && itemList == old(itemList)
      ensures spaceSize == old(spaceSize) && selectedTask == old(selectedTask)
    {
      var isPlaced := HasId(placedItems, item.id);
      currentLayerY := item.y;
      layer := LayerFilter(itemList, closureLayerY, item.id);
      PlaceOnceKeepsUnique(placedItems, item);
      if !isPlaced {
        placedItems := placedItems + [item];
      }
    }

    /** `handleNextItem`: moves to the next item only if there is one. */
    method NextItem() returns (moved: bool, layer: seq<DisplayItem>)
      requires Valid()
      modifies this
      ensures Valid()
      ensures moved <==> old(currentItemIndex) + 1 < |itemList|
      ensures currentItemIndex == if moved then old(currentItemIndex) + 1 else old(currentItemIndex)
      ensures moved ==> && currentLayerY == itemList[currentItemIndex].y
                        && placedItems == PlaceOnce(old(placedItems), itemList[currentItemIndex])
                        && layer == LayerFilter(itemList, old(currentLayerY), itemList[currentItemIndex].id)
      ensures !moved ==> currentLayerY == old(currentLayerY) && placedItems == old(placedItems) && layer == []
      ensures itemList == old(itemList) && spaceSize == old(spaceSize) && selectedTask == old(selectedTask)
    {
      var nextIndex := currentItemIndex + 1;
      layer := [];
      moved := nextIndex < |itemList|;
      if moved {
        var closureLayerY := currentLayerY;
        currentItemIndex := nextIndex;
        var nextItem := itemList[nextIndex];
        currentLayerY := nextItem.y;
        layer := AddOrHighlight(nextItem, closureLayerY);
      }
    }

    /** `handlePreviousItem`: moves to the previous item only if there is one. */
    method PreviousItem() returns (moved: bool, layer: seq<DisplayItem>)
      requires Valid()
      modifies this
      ensures Valid()
      ensures moved <==> old(currentItemIndex) - 1 >= 0
      ensures currentItemIndex == if moved then old(currentItemIndex) - 1 else old(currentItemIndex)
      ensures moved ==> && currentLayerY == itemList[currentItemIndex].y
                        && placedItems == PlaceOnce(old(placedItems), itemList[currentItemIndex])
                        && layer == LayerFilter(itemList, old(currentLayerY), itemList[currentItemIndex].id)
      ensures !moved ==> currentLayerY == old(currentLayerY) && placedItems == old(placedItems) && layer == []
      ensures itemList == old(itemList) && spaceSize == old(spaceSize) && selectedTask == old(selectedTask)
    {
      var prevIndex := currentItemIndex - 1;
      layer := [];
      moved := prevIndex >= 0;
      if moved {
        var closureLayerY := currentLayerY;
        currentItemIndex := prevIndex;
        var prevItem := itemList[prevIndex];
        currentLayerY := prevItem.y;
        layer := AddOrHighlight(prevItem, closureLayerY);
      }
    }

    /** `handleSelectItem`: the list passes an item together with its own index. */
    method SelectItem(index: int) returns (layer: seq<DisplayItem>)
      requires Valid() && 0 <= index < |itemList|
      modifies this
      ensures Valid()
      ensures currentItemIndex == index && currentLayerY == itemList[index].y
      ensures placedItems == PlaceOnce(old(placedItems), itemList[index])
      ensures layer == LayerFilter(itemList, old(currentLayerY), itemList[index].id)
      ensures itemList == old(itemList) && spaceSize == old(spaceSize) && selectedTask == old(selectedTask)
    {
      var closureLayerY := currentLayerY;
      var item := itemList[index];
      currentItemIndex := index;
      currentLayerY := item.y;
      layer := AddOrHighlight(item, closureLayerY);
    }
  }
}
