# Esprit mega menu: a Dafny model of its state machine and menu data

This project models the two pieces of logic inside the Esprit mega menu widget
and proves properties about them:

- **The menu-state machine of `EspritMegaMenu` (script.js).** The widget keeps
  four logical fields. `isMobileMenuOpen` says whether the mobile panel is open.
  `activeSubmenu` is the one mobile submenu slid into view, with its kind (mega
  or dropdown). `activeMegaMenu` and `activeDropdown` are the desktop panels
  shown on hover. Module `MegaMenu` (mega_menu.dfy) holds them in the class
  `EspritMegaMenu`. Each method is proved against a pure function that gives
  the new state, such as `Toggled` or `SubmenuOpened`. An `Event` datatype
  covers the handlers the widget installs: hamburger click, overlay and close
  button, submenu link, back button, hover, outside click, Escape and resize.
  With it, invariants are proved over any sequence of events. The keyboard
  focus wrap is modelled as two index functions.
- **The menu-data side of `EspritDynamicMenu` (dynamic-menu.js).**
  - menu_model.dfy gives the JSON menu description as datatypes. An absent
    string field is `None`. An empty string is falsy, like an absent one.
  - menu_validation.dfy holds `validateMenuData`. It is a loop method, proved
    equal to a recursive specification of the ordered error list.
  - menu_items.dfy holds the list edits: `findIndex`, the `{...item, ...newData}`
    merge, `push`/`splice` insertion and `splice` removal.
  - menu_render.dfy holds the markup generators.
  - dynamic_menu.dfy holds the class. It keeps the loaded document and the
    container's markup. Every edit regenerates the markup.

The generators are modelled one function each in menu_render.dfy:
- `generateMenu` is `MenuHtml`, with `LogoHtml` for its logo part.
- `generateMenuItems` is `ItemsHtml`.
- `generateMenuItem` is `MenuItemHtml`.
- `generateSimpleItem` is `SimpleItemHtml`.
- `generateMegaItem` is `MegaItemHtml`.
- `generateMegaColumn` is `MegaColumnHtml`.
- `generateDropdownItem` is `DropdownItemHtml`.

The merge `{ ...item, ...newData }` of `updateMenuItem` is `MenuItems.Merged`.
These functions carry no contract of their own. The lemmas in the table
state their properties.

The close button of the mobile header and the overlay each reach two
listeners. Their own listener calls `closeMobileMenu`. The click then bubbles
to the document's outside-click listener, which calls `closeAllMenus`. It
does so because the overlay is appended to the page body, outside the
navigation, and because `closeMobileMenu` has already detached the
button's header. The `CloseClick` event models the pair. The overlay's own
listener exists only on the instance that created the overlay:
`createMobileOverlay` returns early when an overlay is already on the page.
An instance created later, such as the one `initializeMenu` builds, gets no
overlay listener. For that instance an overlay click runs only the
outside-click listener, which is the `OutsideClick` event.

Wrappers (wrappers.dfy) gives `Option` for `null`/`undefined` and `Result`
for a thrown error.

### Notes on the code

- Closing the mobile menu does not close its submenu. `closeMobileMenu` runs
  on the second hamburger click, on the overlay and close buttons, and on a
  resize past the breakpoint. It clears `isMobileMenuOpen` but keeps
  `activeSubmenu`. The code itself treats a submenu that outlives the root
  menu as a fault. When `openMobileMenu` finds an active submenu it logs a
  warning before opening (script.js:253-260) and an error after
  (script.js:293-301). Yet nothing on the closing paths prevents that state,
  and the model allows it too: `RootClosesWithSubmenuActive` shows such a
  trace. `ResizeRule` shows that
  the resize handler leaves the submenu reference as it was. Only
  `ensureMobileMenuClosed` clears both.
- `openMobileSubmenu` does not check that the mobile menu is open. The only
  check is the width test in the link's click handler.
- The validator does not check that each column of a mega item has an
  `items` array. The generator calls `column.items.map`, which throws when
  that array is missing. `ValidationMissesColumnItems` gives a document that
  passes validation but does not render.
- An edit that passes its own checks changes the list first and then calls
  `generateMenu`. When rendering then throws, the edit stays in place and the
  container is left empty. The generator cleared it before rendering.

## Model

| member | source | states |
|---|---|---|
| MegaMenu.FindSubmenu | script.js:396-413 | a mega item opens only its mega panel and a dropdown item its dropdown panel, with the kind taken from the item's class; a found panel implies the item has one of the two classes |
| MegaMenu.NextIndex | script.js:837-841 | the index focused by ArrowRight lies in range, is the next index, and wraps from the last to 0 |
| MegaMenu.PrevIndex | script.js:843-847 | the index focused by ArrowLeft lies in range, is the previous index, and wraps from 0 to the last |
| MegaMenu.WrapIndicesAreInverse | script.js:837-847 | moving forward then back, or back then forward, returns to the same index |
| MegaMenu.ToggleIsInvolution | script.js:226-241 | toggling negates the open flag and toggling twice restores the whole state |
| MegaMenu.CloseMobileIsIdempotent | script.js:347-391 | closing the mobile menu leaves it closed, keeps the submenu reference, and a second close changes nothing |
| MegaMenu.CloseSubmenuIsIdempotent | script.js:530-614 | closing the submenu clears its reference, keeps the open flag, changes nothing when no submenu is active, and is idempotent |
| MegaMenu.ForcedCloseFromAnyState | script.js:633-699 | from any state the mobile menu ends closed with no submenu, the desktop references stay, and repeating it changes nothing |
| MegaMenu.CloseAllMenusIsIdempotent | script.js:189-203 | closing all menus clears both desktop references and is idempotent |
| MegaMenu.OpenSubmenuReplacesActive | script.js:393-480 | with a panel found the previous submenu is replaced by the new one; without one nothing changes; the open flag is never touched |
| MegaMenu.SecondOpenWins | script.js:415-419 | opening a submenu and then another leaves only the second referenced |
| MegaMenu.ShowLeavesOnePanel | script.js:111-153 | on desktop widths showing a mega menu or dropdown references exactly that item and clears the other kind; on mobile widths nothing changes; at most one desktop reference is kept |
| MegaMenu.HideClearsOnlySameItem | script.js:127-165 | hiding clears the reference only on desktop widths and only when it names the same item; the other kind is untouched |
| MegaMenu.ResizeRule | script.js:103-108 | a resize closes the mobile menu exactly when it is open and the width is past 991, and changes nothing else (the submenu reference stays) |
| MegaMenu.StepKeepsDesktopExclusive | script.js:43-108 | every event handler keeps at most one desktop panel reference |
| MegaMenu.RunKeepsDesktopExclusive | script.js:111-203 | after any sequence of events at most one desktop panel reference is held |
| MegaMenu.NoLinkClickNoSubmenu | script.js:205-224 | a submenu reference appears only through a submenu link click |
| MegaMenu.CloseClickClearsDesktopPanels | script.js:69-74 | a mega panel opened on desktop survives a shrink to mobile width, and the overlay click that closes the mobile menu also clears it, because the overlay lies outside the navigation |
| MegaMenu.RootClosesWithSubmenuActive | script.js:347-391 | toggling open, opening a submenu and toggling closed leaves the root closed with the submenu still referenced |
| MegaMenu.EspritMegaMenu.constructor | script.js:34-40 | a new instance has the mobile menu closed and no submenu or desktop reference |
| MegaMenu.EspritMegaMenu.ToggleMobileMenu | script.js:226-241 | the new state is the old one with the open flag negated; the desktop invariant is kept |
| MegaMenu.EspritMegaMenu.CloseMobileMenu | script.js:347-391 | only the open flag changes, to false |
| MegaMenu.EspritMegaMenu.OpenMobileSubmenu | script.js:393-480 | the new state is the old one with the found submenu referenced, or the old one unchanged |
| MegaMenu.EspritMegaMenu.CloseMobileSubmenu | script.js:530-614 | only the submenu reference changes, to none |
| MegaMenu.EspritMegaMenu.CloseAllMobileSubmenus | script.js:616-631 | only the submenu reference changes, to none |
| MegaMenu.EspritMegaMenu.EnsureMobileMenuClosed | script.js:633-699 | the open flag and the submenu reference are cleared and nothing else changes |
| MegaMenu.EspritMegaMenu.CloseAllMenus | script.js:189-203 | both desktop references are cleared and nothing else changes |
| MegaMenu.EspritMegaMenu.ShowMegaMenu | script.js:111-125 | on desktop widths the mega reference names the item and the dropdown reference is cleared; on mobile widths nothing changes |
| MegaMenu.EspritMegaMenu.HideMegaMenu | script.js:127-137 | the mega reference is cleared only on desktop widths when it names the item |
| MegaMenu.EspritMegaMenu.ShowDropdown | script.js:139-153 | on desktop widths the dropdown reference names the item and the mega reference is cleared; on mobile widths nothing changes |
| MegaMenu.EspritMegaMenu.HideDropdown | script.js:155-165 | the dropdown reference is cleared only on desktop widths when it names the item |
| MegaMenu.EspritMegaMenu.OnResize | script.js:103-108 | the mobile menu is closed when it is open and the width is past the breakpoint; otherwise nothing changes |
| MegaMenu.EspritMegaMenu.HandleEvent | script.js:43-108 | each event runs the handler the widget installs for it, an overlay or close-button click also running the document's outside-click listener, and the desktop invariant is kept |
| MenuValidation.ValidateMenuData | dynamic-menu.js:375-411 | the loop with early returns produces exactly the specified ordered error list |
| MenuValidation.ItemErrorsShape | dynamic-menu.js:396-408 | one item yields at most two errors, all carrying its index, and none exactly when its required fields and its type's array are present |
| MenuValidation.ItemsErrorsEmptyIff | dynamic-menu.js:396-408 | the per-item errors are empty exactly when every item is valid |
| MenuValidation.ItemsErrorsOrdered | dynamic-menu.js:396-408 | per-item errors appear in item-index order, name existing items, and number at most two per item |
| MenuValidation.ValidIffWellFormed | dynamic-menu.js:383-410 | the error list is empty exactly when menuData exists, the logo has text and url, every item has id, title and type, every mega item has columns and every dropdown item has items |
| MenuValidation.MissingMenuDataOnly | dynamic-menu.js:378-381 | without menuData the result is that single error |
| MenuValidation.ItemsNotArrayShortCircuits | dynamic-menu.js:386-394 | when items is not an array the result is exactly the logo error, present when the logo lacks text or url, followed by the array error, and no per-item error |
| MenuValidation.ValidationErrorsOrdered | dynamic-menu.js:383-410 | with an items array there are at most 1 + 2·n errors, each the logo error or an error about an existing item; the logo error is reported exactly when the logo is incomplete and comes first, and per-item errors follow in index order |
| MenuValidation.MissingLogoUrlReported | dynamic-menu.js:386-388 | a logo without url is reported |
| MenuItems.FindIndex | dynamic-menu.js:303-306 | the result is the first index whose id matches, or none when no item has that id |
| MenuItems.UpdatedItems | dynamic-menu.js:298-309 | the update fails exactly when the id is absent; otherwise the length is kept, the first matching item gets the new keys over its old ones, and every other index is unchanged |
| MenuItems.InsertedItems | dynamic-menu.js:320-329 | the list grows by one, the new item sits at the end for -1 or at the given position, and removing it gives back the old list in order |
| MenuItems.RemovedAt | dynamic-menu.js:350 | splicing out index i shortens the list by one and shifts the later items down, keeping their order |
| MenuItems.RemovedItems | dynamic-menu.js:340-350 | removal fails exactly when the id is absent; otherwise exactly the first matching item is spliced out |
| MenuItems.RemoveThenReinsert | dynamic-menu.js:340-350 | after removing the first matching item, inserting it back at its index restores the list |
| MenuItems.EmptyPatchIsIdentity | dynamic-menu.js:303-309 | an update with no keys leaves the list unchanged but still fails when the id is absent |
| MenuItems.UpdateIsIdempotent | dynamic-menu.js:303-309 | applying the same id-preserving update twice gives the same list as once |
| MenuRender.ColumnsHtmlOkIff | dynamic-menu.js:156-161 | rendering columns succeeds exactly when every column has an items array |
| MenuRender.ItemHtmlOkIff | dynamic-menu.js:103-115 | an item renders exactly when a mega item has columns each with items, and a dropdown item has items |
| MenuRender.ItemsHtmlOkIff | dynamic-menu.js:90-91 | the item list renders exactly when every item renders |
| MenuRender.MenuHtmlOkIff | dynamic-menu.js:42-74 | generating the menu succeeds exactly when the logo exists, items is an array and every item renders |
| MenuRender.ItemsHtmlCons | dynamic-menu.js:91 | the list's markup is the first item's fragment followed by the rest's |
| MenuRender.ItemsHtmlAppend | dynamic-menu.js:90-91 | the markup of a concatenated list is the in-order concatenation of the parts' markup, and fails if either part fails |
| MenuRender.ItemsHtmlSingle | dynamic-menu.js:91 | a one-item list renders to exactly that item's fragment |
| MenuRender.UnknownTypeRendersSimple | dynamic-menu.js:104-114 | an item of unknown type renders exactly as a simple item |
| MenuRender.ValidatedDocumentRenders | dynamic-menu.js:131-171 | a document the validator accepts renders when each mega column also has its items array |
| MenuRender.ValidationMissesColumnItems | dynamic-menu.js:157-161 | a document with a mega column lacking items passes validation yet fails to render |
| DynamicMenu.EspritDynamicMenu.constructor | dynamic-menu.js:7-11 | a new instance has no menu data loaded |
| DynamicMenu.EspritDynamicMenu.LoadMenuData | dynamic-menu.js:26-29 | an object argument becomes the menu data |
| DynamicMenu.EspritDynamicMenu.GenerateMenu | dynamic-menu.js:42-74 | it fails without change when nothing is loaded; otherwise it returns the menu markup, and the container holds it, or is empty when a generator threw |
| DynamicMenu.EspritDynamicMenu.UpdateMenuItem | dynamic-menu.js:298-315 | it fails without change when not loaded or when no item has the id; otherwise only the first matching item is updated, and the markup is regenerated |
| DynamicMenu.EspritDynamicMenu.AddMenuItem | dynamic-menu.js:320-335 | it fails without change when not loaded; otherwise the item is appended for -1 or inserted at the position, and the markup is regenerated |
| DynamicMenu.EspritDynamicMenu.RemoveMenuItem | dynamic-menu.js:340-356 | it fails without change when not loaded or when no item has the id; otherwise exactly the first matching item is removed, and the markup is regenerated |

## Left out

- DOM effects are not modelled: class lists, inline styles, the overlay
  element, the mobile and submenu headers, body scroll locking, `focus()`.
  They only mirror the logical fields. The browser calls behind them are
  outside the model. `openMobileMenu`, `addMobileMenuHeader`,
  `addSubmenuHeader`, `createMobileOverlay` and `focusSubmenu` have no
  logical effect and are therefore not modelled.
- Timers and animation are not modelled. That covers `requestAnimationFrame`,
  the `setTimeout` clean-ups (350, 300, 50, 100 and 1000 ms),
  `animateMegaMenuEntrance`/`animateDropdownEntrance` with their float
  delay strings, and the RTL transform strings. A delayed call such as the
  back button's `closeMobileSubmenu` is modelled as its own event.
- `loadMenuData` with a URL is not modelled. It fetches over the network and
  parses JSON. Only the object branch is modelled (`LoadMenuData`).
- `exportMenuData` and `getMenuData` are not modelled. The first is a
  `JSON.stringify` library call and the second a plain getter.
- `initializeMenu` is not modelled. Through nested timers it replaces the
  global widget instance with a new `EspritMegaMenu`. `GenerateMenu` returns
  after the markup is set.
- `ensureMobileOverlay` is not modelled. It only appends an overlay element
  with no listener when none exists.
- `enhanceAccessibility` (random ids, ARIA attributes), `fixSubmenuLinks`,
  `smoothScroll`, `addLoadingState` and every console log or diagnostic
  probe are not modelled.
- DynamicMenu.EspritDynamicMenu.AddMenuItem and MenuItems.InsertedItems:
  positions other than -1 and 0..length are excluded by precondition. The
  default -1 is kept. JavaScript's `splice` semantics for
  them are not modelled.
- `loadMenuData` stores the caller's object by reference, and `addMenuItem`
  inserts the caller's `newItem` object itself. The model holds the loaded
  document and the added items as values. A caller that keeps a reference
  therefore does not see the in-place edits of the item array, and that
  sharing is not modelled.
- Viewport widths are integers. The source's thresholds 991 and 991.98 then
  select the same widths.
- Error messages are constructors, not the source's fixed texts. Each
  per-item error keeps its item index.
- JSON values of the wrong kind are not modelled: a number where a string is
  expected, `null` fields, which interpolate as "null" where an absent field
  gives "undefined", and a list element that is not an object. A field read as an array is
  `None` when it is absent or not an array. An id is matched against a string
  argument.
- Keys of an item beyond `id`, `title`, `url`, `type`, `columns` and `items`
  are not modelled, nor are keys of the document beyond `menuData`.
- The indentation and line breaks of the template literals are not modelled.
  Rendering is a function, so it is deterministic by construction and no
  lemma states that separately. No escaping exists, and none is claimed.
- Items and panels are identified by abstract numbers that stand for their
  DOM elements.
