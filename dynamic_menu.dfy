/** The menu-data holder of the widget (class `EspritDynamicMenu` in
    dynamic-menu.js): it keeps the loaded document, edits its item list in
    place and regenerates the container's markup after every edit. */
module DynamicMenu {
  import opened Wrappers
  import opened MenuModel
  import opened MenuItems
  import opened MenuRender

  /** What the container shows after generateMenu: the markup, or nothing
      when a generator threw after the container was cleared. */
  function Shown(r: Result<string, MenuError>): string {
    match r
    case Ok(html) => html
    case Err(_) => ""
  }

  class EspritDynamicMenu {
    /** `this.menuData`: the loaded document, `None` while it is `null`. */
    var menuData: Option<Document>
    /** `this.container.innerHTML` */
    var containerHtml: string

    /** The container starts with whatever markup the page gave it. */
    constructor (initialHtml: string)
      ensures menuData.None? && containerHtml == initialHtml
    {
      menuData := None;
      containerHtml := initialHtml;
    }

    /** The "not loaded" guard: `this.menuData && this.menuData.menuData`. */
    predicate Loaded()
      reads this
    {
      menuData.Some? && menuData.value.menuData.Some?
    }

    function Data(): MenuData
      reads this
      requires Loaded()
    {
      menuData.value.menuData.value
    }

    /** The container holds the result of regenerating the current data. */
    predicate Regenerated(r: Result<string, MenuError>)
      reads this
    {
      Loaded() && r == MenuHtml(Data()) && containerHtml == Shown(r)
    }

    /** loadMenuData given an object: the object becomes the menu data. */
    method LoadMenuData(data: Document)
      modifies this`menuData
      ensures menuData == Some(data)
    {
      menuData := Some(data);
    }

    /** generateMenu: fails when nothing is loaded; otherwise clears the
        container, renders, and fills the container if rendering succeeded. */
    method GenerateMenu() returns (r: Result<string, MenuError>)
      modifies this`containerHtml
      ensures !Loaded() ==> r == Err(NotLoaded) && containerHtml == old(containerHtml)
      ensures Loaded() ==> Regenerated(r)
    {
      if !Loaded() {
        return Err(NotLoaded);
      }
      containerHtml := "";
      r := MenuHtml(Data());
      if r.Ok? {
        containerHtml := r.value;
      }
    }

    /** Replaces the loaded item list. */
    method StoreItems(items: seq<MenuItem>)
      requires Loaded()
      modifies this`menuData
      ensures Loaded() && Data() == old(Data()).(items := Some(items))
    {
      menuData := Some(Document(Some(Data().(items := Some(items)))));
    }

    /** updateMenuItem: the first item with `itemId` takes the keys of `patch`. */
    method UpdateMenuItem(itemId: string, patch: ItemPatch) returns (r: Result<string, MenuError>)
      modifies this
      ensures !old(Loaded()) ==> r == Err(NotLoaded) && unchanged(this)
      ensures old(Loaded()) && old(Data()).items.None? ==> r == Err(TypeError) && unchanged(this)
      ensures old(Loaded()) && old(Data()).items.Some? ==>
        match UpdatedItems(old(Data()).items.value, itemId, patch)
        case None => r == Err(ItemNotFound(itemId)) && unchanged(this)
        case Some(items) => Regenerated(r) && Data() == old(Data()).(items := Some(items))
    {
      if !Loaded() {
        return Err(NotLoaded);
      }
      if Data().items.None? {
        return Err(TypeError);
      }
      var items := Data().items.value;
      var itemIndex := FindIndex(items, itemId);
      if itemIndex.None? {
        return Err(ItemNotFound(itemId));
      }
      var i := itemIndex.value;
      items := items[i := Merged(items[i], patch)];
      StoreItems(items);
      r := GenerateMenu();
    }

    /** addMenuItem: -1 appends, any other position inserts before that index. */
    method AddMenuItem(newItem: MenuItem, position: int := -1) returns (r: Result<string, MenuError>)
      requires Loaded() && Data().items.Some? ==> ValidPosition(Data().items.value, position)
      modifies this
      ensures !old(Loaded()) ==> r == Err(NotLoaded) && unchanged(this)
      ensures old(Loaded()) && old(Data()).items.None? ==> r == Err(TypeError) && unchanged(this)
      ensures old(Loaded()) && old(Data()).items.Some? ==>
        && Regenerated(r)
        && Data() == old(Data()).(items := Some(InsertedItems(old(Data()).items.value, newItem, position)))
    {
      if !Loaded() {
        return Err(NotLoaded);
      }
      if Data().items.None? {
        return Err(TypeError);
      }
      var items := Data().items.value;
      if position == -1 {
        items := items + [newItem];
      } else {
        items := items[..position] + [newItem] + items[position..];
      }
      StoreItems(items);
      r := GenerateMenu();
    }

    /** removeMenuItem: the first item with `itemId` is spliced out. */
    method RemoveMenuItem(itemId: string) returns (r: Result<string, MenuError>)
      modifies this
      ensures !old(Loaded()) ==> r == Err(NotLoaded) && unchanged(this)
      ensures old(Loaded()) && old(Data()).items.None? ==> r == Err(TypeError) && unchanged(this)
      ensures old(Loaded()) && old(Data()).items.Some? ==>
        match RemovedItems(old(Data()).items.value, itemId)
        case None => r == Err(ItemNotFound(itemId)) && unchanged(this)
        case Some(items) => Regenerated(r) && Data() == old(Data()).(items := Some(items))
    {
      if !Loaded() {
        return Err(NotLoaded);
      }
      if Data().items.None? {
        return Err(TypeError);
      }
      var items := Data().items.value;
      var itemIndex := FindIndex(items, itemId);
      if itemIndex.None? {
        return Err(ItemNotFound(itemId));
      }
      var i := itemIndex.value;
      items := items[..i] + items[i + 1..];
      StoreItems(items);
      r := GenerateMenu();
    }
  }
}
