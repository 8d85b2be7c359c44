/** The item-list edits of `EspritDynamicMenu` (dynamic-menu.js) as functions
    on the list: `findIndex` by id, the `{ ...item, ...newData }` merge, the
    `push`/`splice` insertion and the `splice` removal. The class in
    dynamic_menu.dfy applies them to its loaded data. */
module MenuItems {
  import opened Wrappers
  import opened MenuModel

  /** `items.findIndex(item => item.id === id)`, with -1 as `None`. */
  function FindIndex(items: seq<MenuItem>, id: string): (r: Option<nat>)
    ensures r.Some? ==> r.value < |items| && items[r.value].id == Some(id)
    ensures r.Some? ==> forall j | 0 <= j < r.value :: items[j].id != Some(id)
    ensures r.None? <==> forall j | 0 <= j < |items| :: items[j].id != Some(id)
    decreases |items|
  {
    if items == [] then None
    else if items[0].id == Some(id) then Some(0)
    else
      match FindIndex(items[1..], id)
      case None => None
      case Some(k) => Some(k + 1)
  }

  /** The keys `newData` carries: `Some(v)` when the key is present with
      value `v` (which may itself be `undefined`), `None` when it is absent. */
  datatype ItemPatch = ItemPatch(
    id: Option<Text>,
    title: Option<Text>,
    url: Option<Text>,
    kind: Option<Text>,
    columns: Option<Option<seq<Column>>>,
    items: Option<Option<seq<Link>>>)

  function Override<T>(current: T, update: Option<T>): T {
    match update
    case Some(v) => v
    case None => current
  }

  /** `{ ...item, ...patch }`: every key the patch carries wins. */
  function Merged(item: MenuItem, patch: ItemPatch): MenuItem {
    MenuItem(
      Override(item.id, patch.id),
      Override(item.title, patch.title),
      Override(item.url, patch.url),
      Override(item.kind, patch.kind),
      Override(item.columns, patch.columns),
      Override(item.items, patch.items))
  }

  /** The list after `updateMenuItem`, or `None` when no item has the id. */
  function UpdatedItems(items: seq<MenuItem>, id: string, patch: ItemPatch): (r: Option<seq<MenuItem>>)
    ensures r.None? <==> FindIndex(items, id).None?
    ensures r.Some? ==> |r.value| == |items|
    ensures r.Some? ==> var i := FindIndex(items, id).value;
      && r.value[i] == Merged(items[i], patch)
      && forall j | 0 <= j < |items| && j != i :: r.value[j] == items[j]
  {
    match FindIndex(items, id)
    case None => None
    case Some(i) => Some(items[i := Merged(items[i], patch)])
  }

  /** A position `addMenuItem` is modelled for: -1 (append) or an index up to the length. */
  predicate ValidPosition(items: seq<MenuItem>, position: int) {
    position == -1 || 0 <= position <= |items|
  }

  /** Where the new item lands. */
  function InsertionIndex(items: seq<MenuItem>, position: int): nat
    requires ValidPosition(items, position)
  {
    if position == -1 then |items| else position
  }

  /** `items` without the element at `i`: `splice(i, 1)`. */
  function RemovedAt(items: seq<MenuItem>, i: nat): (r: seq<MenuItem>)
    requires i < |items|
    ensures |r| + 1 == |items|
    ensures forall k | 0 <= k < |r| :: r[k] == (if k < i then items[k] else items[k + 1])
  {
    items[..i] + items[i + 1..]
  }

  /** The list after `addMenuItem`: `push` for -1, `splice(position, 0, item)` otherwise. */
  function InsertedItems(items: seq<MenuItem>, item: MenuItem, position: int): (r: seq<MenuItem>)
    requires ValidPosition(items, position)
    ensures |r| == |items| + 1
    ensures r[InsertionIndex(items, position)] == item
    ensures RemovedAt(r, InsertionIndex(items, position)) == items
  {
    if position == -1 then items + [item]
    else items[..position] + [item] + items[position..]
  }

  /** The list after `removeMenuItem`, or `None` when no item has the id. */
  function RemovedItems(items: seq<MenuItem>, id: string): (r: Option<seq<MenuItem>>)
    ensures r.None? <==> FindIndex(items, id).None?
    ensures r.Some? ==> r.value == RemovedAt(items, FindIndex(items, id).value)
  {
    match FindIndex(items, id)
    case None => None
    case Some(i) => Some(RemovedAt(items, i))
  }

  // ---------------------------------------------------------------------
  // Properties

  /** Removing the first item with the id keeps the others in order, and
      putting it back at its index restores the list. */
  lemma RemoveThenReinsert(items: seq<MenuItem>, id: string)
    requires FindIndex(items, id).Some?
    ensures var i := FindIndex(items, id).value;
      && |RemovedItems(items, id).value| + 1 == |items|
      && InsertedItems(RemovedItems(items, id).value, items[i], i) == items
  {
    var i := FindIndex(items, id).value;
    var rest := RemovedItems(items, id).value;
    assert rest == items[..i] + items[i + 1..];
    assert rest[..i] == items[..i];
    assert rest[i..] == items[i + 1..];
  }

  /** Updating with an empty patch changes nothing but still requires the id to exist. */
  lemma EmptyPatchIsIdentity(items: seq<MenuItem>, id: string)
    ensures var none := ItemPatch(None, None, None, None, None, None);
      UpdatedItems(items, id, none) == (if FindIndex(items, id).Some? then Some(items) else None)
  {
    var none := ItemPatch(None, None, None, None, None, None);
    if FindIndex(items, id).Some? {
      var i := FindIndex(items, id).value;
      assert Merged(items[i], none) == items[i];
      assert items[i := items[i]] == items;
    }
  }

  /** Applying the same patch twice is the same as once, when the patch keeps the id. */
  lemma UpdateIsIdempotent(items: seq<MenuItem>, id: string, patch: ItemPatch)
    requires patch.id.None? || patch.id == Some(Some(id))
    requires UpdatedItems(items, id, patch).Some?
    ensures UpdatedItems(UpdatedItems(items, id, patch).value, id, patch) == UpdatedItems(items, id, patch)
  {
    var once := UpdatedItems(items, id, patch).value;
    var i := FindIndex(items, id).value;
    assert FindIndex(once, id) == Some(i);
    assert Merged(once[i], patch) == once[i];
    assert once[i := once[i]] == once;
  }
}
