/** The menu description that `EspritDynamicMenu` (dynamic-menu.js) loads,
    validates, edits and renders, as the JSON values it reads.

    A string field is `Text`: `None` when the key is absent (`undefined`).
    JavaScript truthiness makes both an absent and an empty string count as
    missing, which `Truthy` states. A field the code uses as an array is an
    `Option<seq<…>>`: `None` when it is absent or not an array. */
module MenuModel {
  import opened Wrappers

  type Text = Option<string>

  /** `!!t` for a string-valued field. */
  predicate Truthy(t: Text) {
    t.Some? && t.value != ""
  }

  /** A leaf link of a mega column or a dropdown: `{ title, url }`. */
  datatype Link = Link(title: Text, url: Text)

  /** A mega-menu column: `{ title, items }`. */
  datatype Column = Column(title: Text, items: Option<seq<Link>>)

  /** A top-level item. `kind` is the JSON field `type`; `columns` is used
      by mega items and `items` by dropdown items. */
  datatype MenuItem = MenuItem(
    id: Text,
    title: Text,
    url: Text,
    kind: Text,
    columns: Option<seq<Column>>,
    items: Option<seq<Link>>)

  datatype Logo = Logo(text: Text, url: Text)

  /** The `menuData` object: `{ logo, items }`. */
  datatype MenuData = MenuData(logo: Option<Logo>, items: Option<seq<MenuItem>>)

  /** A loaded document: `{ menuData }`. */
  datatype Document = Document(menuData: Option<MenuData>)

  /** `item.type === 'mega'` */
  predicate IsMega(item: MenuItem) {
    item.kind == Some("mega")
  }

  /** `item.type === 'dropdown'` */
  predicate IsDropdown(item: MenuItem) {
    item.kind == Some("dropdown")
  }

  /** The errors the class throws: data not loaded, an item id not found,
      and the TypeError a property access on `undefined` or a missing
      array method raises. */
  datatype MenuError = NotLoaded | ItemNotFound(id: string) | TypeError
}
