/** The markup generators of `EspritDynamicMenu` (dynamic-menu.js): pure
    functions from the menu description to the HTML string the container
    receives.

    The source builds the markup with template literals. Their indentation
    and line breaks are layout only and are left out here; tags, attributes
    and interpolations are kept in order. Interpolating an absent field gives
    the text "undefined", and nothing is escaped. Calling `map` on an absent
    array, or reading a field of an absent logo, throws a TypeError, which
    the functions return as `Err(TypeError)`. */
module MenuRender {
  import opened Wrappers
  import opened MenuModel
  import MenuValidation

  /** `${t}` for a string field. */
  function Interp(t: Text): string {
    match t
    case Some(s) => s
    case None => "undefined"
  }

  /** The arrow icon of mega and dropdown items. */
  const ArrowIcon: string :=
    "<span class=\"esprit-menu__arrow\">"
    + "<svg width=\"12\" height=\"12\" viewBox=\"0 0 12 12\" fill=\"none\" xmlns=\"http://www.w3.org/2000/svg\">"
    + "<path d=\"M3 4.5L6 7.5L9 4.5\" stroke=\"currentColor\" stroke-width=\"1.5\" stroke-linecap=\"round\" stroke-linejoin=\"round\"/>"
    + "</svg></span>"

  /** generateMobileToggle */
  const MobileToggleHtml: string :=
    "<div class=\"esprit-nav__toggle\">"
    + "<span class=\"esprit-nav__toggle-line\"></span>"
    + "<span class=\"esprit-nav__toggle-line\"></span>"
    + "<span class=\"esprit-nav__toggle-line\"></span>"
    + "</div>"

  /** generateLogo: reading `logo.url` of an absent logo throws. */
  function LogoHtml(logo: Option<Logo>): Result<string, MenuError> {
    match logo
    case None => Err(TypeError)
    case Some(l) =>
      Ok("<div class=\"esprit-nav__logo\"><a href=\"" + Interp(l.url)
         + "\" class=\"esprit-nav__logo-link\">" + Interp(l.text) + "</a></div>")
  }

  /** generateSimpleItem */
  function SimpleItemHtml(item: MenuItem): string {
    "<li class=\"esprit-menu__item\" data-menu-id=\"" + Interp(item.id) + "\">"
    + "<a href=\"" + Interp(item.url) + "\" class=\"esprit-menu__link\">" + Interp(item.title) + "</a>"
    + "</li>"
  }

  /** One link of a mega column. */
  function MegaLinkHtml(link: Link): string {
    "<li class=\"esprit-mega-menu__item\"><a href=\"" + Interp(link.url)
    + "\" class=\"esprit-mega-menu__link\">" + Interp(link.title) + "</a></li>"
  }

  /** One link of a dropdown. */
  function DropdownLinkHtml(link: Link): string {
    "<li class=\"esprit-dropdown__item\"><a href=\"" + Interp(link.url)
    + "\" class=\"esprit-dropdown__link\">" + Interp(link.title) + "</a></li>"
  }

  /** `links.map(megaLink).join('')` */
  function MegaLinksHtml(links: seq<Link>): string
    decreases |links|
  {
    if links == [] then "" else MegaLinkHtml(links[0]) + MegaLinksHtml(links[1..])
  }

  /** `links.map(dropdownLink).join('')` */
  function DropdownLinksHtml(links: seq<Link>): string
    decreases |links|
  {
    if links == [] then "" else DropdownLinkHtml(links[0]) + DropdownLinksHtml(links[1..])
  }

  /** generateMegaColumn: `column.items.map` throws when `items` is not an array. */
  function MegaColumnHtml(column: Column): Result<string, MenuError> {
    match column.items
    case None => Err(TypeError)
    case Some(links) =>
      Ok("<div class=\"esprit-mega-menu__column\">"
         + "<h3 class=\"esprit-mega-menu__title\">" + Interp(column.title) + "</h3>"
         + "<ul class=\"esprit-mega-menu__list\">" + MegaLinksHtml(links) + "</ul>"
         + "</div>")
  }

  /** `columns.map(generateMegaColumn).join('')`: the first throw aborts. */
  function ColumnsHtml(columns: seq<Column>): Result<string, MenuError>
    decreases |columns|
  {
    if columns == [] then Ok("")
    else
      match MegaColumnHtml(columns[0])
      case Err(e) => Err(e)
      case Ok(head) =>
        match ColumnsHtml(columns[1..])
        case Err(e) => Err(e)
        case Ok(tail) => Ok(head + tail)
  }

  /** The link of a mega or dropdown item, with its arrow. */
  function ParentLinkHtml(item: MenuItem): string {
    "<a href=\"" + Interp(item.url) + "\" class=\"esprit-menu__link\">" + Interp(item.title) + ArrowIcon + "</a>"
  }

  /** generateMegaItem: `item.columns.map` throws when `columns` is not an array. */
  function MegaItemHtml(item: MenuItem): Result<string, MenuError> {
    match item.columns
    case None => Err(TypeError)
    case Some(columns) =>
      match ColumnsHtml(columns)
      case Err(e) => Err(e)
      case Ok(body) =>
        Ok("<li class=\"esprit-menu__item esprit-menu__item--has-mega\" data-menu-id=\"" + Interp(item.id) + "\">"
           + ParentLinkHtml(item)
           + "<div class=\"esprit-mega-menu\"><div class=\"esprit-mega-menu__container\">" + body + "</div></div>"
           + "</li>")
  }

  /** generateDropdownItem: `item.items.map` throws when `items` is not an array. */
  function DropdownItemHtml(item: MenuItem): Result<string, MenuError> {
    match item.items
    case None => Err(TypeError)
    case Some(links) =>
      Ok("<li class=\"esprit-menu__item esprit-menu__item--has-dropdown\" data-menu-id=\"" + Interp(item.id) + "\">"
         + ParentLinkHtml(item)
         + "<ul class=\"esprit-dropdown\">" + DropdownLinksHtml(links) + "</ul>"
         + "</li>")
  }

  /** generateMenuItem: dispatch on `type`; an unknown type is rendered as a simple item. */
  function MenuItemHtml(item: MenuItem): Result<string, MenuError> {
    if item.kind == Some("simple") then Ok(SimpleItemHtml(item))
    else if IsMega(item) then MegaItemHtml(item)
    else if IsDropdown(item) then DropdownItemHtml(item)
    else Ok(SimpleItemHtml(item))
  }

  /** `items.map(generateMenuItem).join('')`: the first throw aborts. */
  function ItemsHtml(items: seq<MenuItem>): Result<string, MenuError>
    decreases |items|
  {
    if items == [] then Ok("")
    else
      match MenuItemHtml(items[0])
      case Err(e) => Err(e)
      case Ok(head) =>
        match ItemsHtml(items[1..])
        case Err(e) => Err(e)
        case Ok(tail) => Ok(head + tail)
  }

  /** generateMenuItems: `items.map` throws when `items` is not an array. */
  function MenuItemsHtml(items: Option<seq<MenuItem>>): Result<string, MenuError> {
    match items
    case None => Err(TypeError)
    case Some(list) =>
      match ItemsHtml(list)
      case Err(e) => Err(e)
      case Ok(body) => Ok("<ul class=\"esprit-menu\">" + body + "</ul>")
  }

  /** The markup generateMenu puts into the container: logo, items, toggle. */
  function MenuHtml(data: MenuData): Result<string, MenuError> {
    match LogoHtml(data.logo)
    case Err(e) => Err(e)
    case Ok(logo) =>
      match MenuItemsHtml(data.items)
      case Err(e) => Err(e)
      case Ok(menu) => Ok(logo + menu + MobileToggleHtml)
  }

  // ---------------------------------------------------------------------
  // When rendering succeeds

  predicate ColumnsRenderable(columns: seq<Column>) {
    forall k | 0 <= k < |columns| :: columns[k].items.Some?
  }

  /** An item whose generator does not throw. */
  predicate ItemRenderable(item: MenuItem) {
    && (IsMega(item) ==> item.columns.Some? && ColumnsRenderable(item.columns.value))
    && (IsDropdown(item) ==> item.items.Some?)
  }

  /** Menu data whose generation does not throw. */
  predicate DataRenderable(data: MenuData) {
    && data.logo.Some?
    && data.items.Some?
    && forall i | 0 <= i < |data.items.value| :: ItemRenderable(data.items.value[i])
  }

  /** Combines two fragment results the way `map(...).join('')` does. */
  function Joined(a: Result<string, MenuError>, b: Result<string, MenuError>): Result<string, MenuError> {
    match a
    case Err(e) => Err(e)
    case Ok(x) =>
      match b
      case Err(e) => Err(e)
      case Ok(y) => Ok(x + y)
  }

  // ---------------------------------------------------------------------
  // Properties

  lemma {:induction false} ColumnsHtmlOkIff(columns: seq<Column>)
    ensures ColumnsHtml(columns).Ok? <==> ColumnsRenderable(columns)
    decreases |columns|
  {
    if columns != [] {
      ColumnsHtmlOkIff(columns[1..]);
      assert ColumnsRenderable(columns) <==>
        columns[0].items.Some? && ColumnsRenderable(columns[1..]) by {
        if columns[0].items.Some? && ColumnsRenderable(columns[1..]) {
          forall k | 0 <= k < |columns| ensures columns[k].items.Some? {
            if k > 0 {
              assert columns[k] == columns[1..][k - 1];
            }
          }
        }
        if ColumnsRenderable(columns) {
          forall k | 0 <= k < |columns[1..]| ensures columns[1..][k].items.Some? {
            assert columns[1..][k] == columns[k + 1];
          }
        }
      }
    }
  }

  /** An item renders exactly when the arrays its type uses are present. */
  lemma ItemHtmlOkIff(item: MenuItem)
    ensures MenuItemHtml(item).Ok? <==> ItemRenderable(item)
  {
    if item.columns.Some? {
      ColumnsHtmlOkIff(item.columns.value);
    }
  }

  lemma {:induction false} ItemsHtmlOkIff(items: seq<MenuItem>)
    ensures ItemsHtml(items).Ok? <==> forall i | 0 <= i < |items| :: ItemRenderable(items[i])
    decreases |items|
  {
    if items != [] {
      ItemsHtmlOkIff(items[1..]);
      ItemHtmlOkIff(items[0]);
      ItemsHtmlCons(items);
      assert ItemsHtml(items).Ok? <==> MenuItemHtml(items[0]).Ok? && ItemsHtml(items[1..]).Ok?;
      if forall i | 0 <= i < |items| :: ItemRenderable(items[i]) {
        forall i | 0 <= i < |items[1..]| ensures ItemRenderable(items[1..][i]) {
          assert items[1..][i] == items[i + 1];
        }
      }
      if ItemRenderable(items[0]) && forall i | 0 <= i < |items[1..]| :: ItemRenderable(items[1..][i]) {
        forall i | 0 <= i < |items| ensures ItemRenderable(items[i]) {
          if i > 0 {
            assert items[i] == items[1..][i - 1];
          }
        }
      }
    }
  }

  /** generateMenu produces markup exactly when the data is renderable. */
  lemma MenuHtmlOkIff(data: MenuData)
    ensures MenuHtml(data).Ok? <==> DataRenderable(data)
  {
    if data.items.Some? {
      ItemsHtmlOkIff(data.items.value);
    }
  }

  lemma JoinedIsAssociative(a: Result<string, MenuError>, b: Result<string, MenuError>, c: Result<string, MenuError>)
    ensures Joined(a, Joined(b, c)) == Joined(Joined(a, b), c)
  {
    if a.Ok? && b.Ok? && c.Ok? {
      assert a.value + (b.value + c.value) == (a.value + b.value) + c.value;
    }
  }

  /** One step of the join: the first item's fragment, then the rest. */
  lemma ItemsHtmlCons(items: seq<MenuItem>)
    requires items != []
    ensures ItemsHtml(items) == Joined(MenuItemHtml(items[0]), ItemsHtml(items[1..]))
  {
  }

  /** The items markup is the in-order concatenation of one fragment per
      item: rendering `a + b` joins the renderings of `a` and of `b`. */
  lemma {:induction false} ItemsHtmlAppend(a: seq<MenuItem>, b: seq<MenuItem>)
    ensures ItemsHtml(a + b) == Joined(ItemsHtml(a), ItemsHtml(b))
    decreases |a|
  {
    if a == [] {
      assert a + b == b;
      if ItemsHtml(b).Ok? {
        assert "" + ItemsHtml(b).value == ItemsHtml(b).value;
      }
    } else {
      assert (a + b)[0] == a[0];
      assert (a + b)[1..] == a[1..] + b;
      ItemsHtmlCons(a + b);
      ItemsHtmlCons(a);
      ItemsHtmlAppend(a[1..], b);
      JoinedIsAssociative(MenuItemHtml(a[0]), ItemsHtml(a[1..]), ItemsHtml(b));
    }
  }

  /** A single item renders to exactly its own fragment. */
  lemma ItemsHtmlSingle(item: MenuItem)
    ensures ItemsHtml([item]) == MenuItemHtml(item)
  {
    assert [item][1..] == [];
    if MenuItemHtml(item).Ok? {
      assert MenuItemHtml(item).value + "" == MenuItemHtml(item).value;
    }
  }

  /** An item whose type is none of the three known ones renders as a simple item. */
  lemma UnknownTypeRendersSimple(item: MenuItem)
    requires item.kind != Some("simple") && !IsMega(item) && !IsDropdown(item)
    ensures MenuItemHtml(item) == Ok(SimpleItemHtml(item))
  {
  }

  /** An accepted document renders, provided every column of every mega
      item has its `items` array, which the validator does not check. */
  lemma ValidatedDocumentRenders(doc: Document)
    requires MenuValidation.ValidationErrors(doc) == []
    requires forall i | 0 <= i < |doc.menuData.value.items.value| ::
      var item := doc.menuData.value.items.value[i];
      IsMega(item) && item.columns.Some? ==> ColumnsRenderable(item.columns.value)
    ensures MenuHtml(doc.menuData.value).Ok?
  {
    MenuValidation.ValidIffWellFormed(doc);
    MenuHtmlOkIff(doc.menuData.value);
  }

  /** The validator accepts a mega column without `items`, on which the
      generator throws. */
  lemma ValidationMissesColumnItems()
    ensures var item := MenuItem(Some("shop"), Some("Shop"), Some("/shop"), Some("mega"),
                                 Some([Column(Some("Men"), None)]), None);
            var doc := Document(Some(MenuData(Some(Logo(Some("Esprit"), Some("/"))), Some([item]))));
            && MenuValidation.ValidationErrors(doc) == []
            && MenuHtml(doc.menuData.value) == Err(TypeError)
  {
    var item := MenuItem(Some("shop"), Some("Shop"), Some("/shop"), Some("mega"),
                         Some([Column(Some("Men"), None)]), None);
    assert MenuValidation.ItemsErrors([item]) == MenuValidation.ItemErrors(item, 0) by {
      assert [item][..0] == [];
    }
    ItemsHtmlSingle(item);
  }
}
