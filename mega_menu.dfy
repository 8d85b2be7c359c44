/** The menu-state machine of the widget (class `EspritMegaMenu` in script.js).

    The class keeps four logical fields: whether the mobile panel is open,
    which mobile submenu is slid in, and which desktop mega panel or
    dropdown is shown. Every DOM, animation, timer and logging effect of
    the source only mirrors these fields and is abstracted away.

    The pure functions below (`Toggled`, `MobileClosed`, ...) give the new
    logical state of each operation; the class methods are proved against
    them and the lemmas state what the source promises about them. */
module MegaMenu {
  import opened Wrappers

  /** Viewports up to this width use the mobile layout. The source tests
      `innerWidth <= 991` (hover handlers) and `innerWidth <= 991.98` /
      `> 991.98` (mobile link clicks, resize); on integer widths both
      thresholds select the same widths. */
  const MobileMaxWidth: int := 991

  /** Identity of a top-level `.esprit-menu__item` element. */
  type ItemId = nat

  /** Identity of a `.esprit-mega-menu` or `.esprit-dropdown` panel element. */
  type PanelId = nat

  datatype Kind = Mega | Dropdown

  /** The mobile submenu reference `{ element, type }`. */
  datatype Submenu = Submenu(panel: PanelId, kind: Kind)

  /** What `openMobileSubmenu` reads off a menu item: its two marker classes
      and the panel each of its two queries finds, if any. */
  datatype ItemView = ItemView(
    hasMega: bool,
    hasDropdown: bool,
    megaPanel: Option<PanelId>,
    dropdownPanel: Option<PanelId>)

  /** The logical state of one widget instance. */
  datatype NavState = NavState(
    mobileOpen: bool,
    submenu: Option<Submenu>,
    megaMenu: Option<ItemId>,
    dropdown: Option<ItemId>)

  /** At most one desktop panel reference is held at a time. */
  predicate DesktopExclusive(s: NavState) {
    !(s.megaMenu.Some? && s.dropdown.Some?)
  }

  /** The state left by the constructor: `setupElements` clears the desktop
      references and the open flag, then `ensureMobileMenuClosed` clears
      the submenu reference. */
  function Initial(): NavState {
    NavState(false, None, None, None)
  }

  // ---------------------------------------------------------------------
  // The submenu lookup of openMobileSubmenu

  /** The submenu an item opens on mobile: the mega panel of a mega item,
      otherwise the dropdown panel of a dropdown item. A mega item whose
      mega panel is missing is not searched for a dropdown. */
  function FindSubmenu(item: ItemView): (r: Option<Submenu>)
    ensures r.Some? ==> item.hasMega || item.hasDropdown
    ensures r.Some? ==> r.value.kind == (if item.hasMega then Mega else Dropdown)
    ensures r.Some? && item.hasMega ==> item.megaPanel == Some(r.value.panel)
    ensures r.Some? && !item.hasMega ==> item.dropdownPanel == Some(r.value.panel)
    ensures item.hasMega && item.megaPanel.Some? ==> r.Some?
    ensures !item.hasMega && item.hasDropdown && item.dropdownPanel.Some? ==> r.Some?
  {
    if item.hasMega then
      match item.megaPanel
      case Some(p) => Some(Submenu(p, Mega))
      case None => None
    else if item.hasDropdown then
      match item.dropdownPanel
      case Some(p) => Some(Submenu(p, Dropdown))
      case None => None
    else
      None
  }

  // ---------------------------------------------------------------------
  // The new state of each operation

  /** toggleMobileMenu: negate the flag; when it becomes false, closeMobileMenu
      runs (opening only touches the DOM). */
  function Toggled(s: NavState): NavState {
    s.(mobileOpen := !s.mobileOpen)
  }

  /** closeMobileMenu: only the open flag changes; the submenu reference is kept. */
  function MobileClosed(s: NavState): NavState {
    s.(mobileOpen := false)
  }

  /** closeMobileSubmenu (and closeAllMobileSubmenus): drop the submenu reference. */
  function SubmenuClosed(s: NavState): NavState {
    s.(submenu := None)
  }

  /** openMobileSubmenu: with a panel found, close the active submenu and
      reference the new one; with none found, nothing changes. */
  function SubmenuOpened(s: NavState, item: ItemView): NavState {
    match FindSubmenu(item)
    case None => s
    case Some(m) => s.(submenu := Some(m))
  }

  /** ensureMobileMenuClosed: the mobile panel and every submenu are closed. */
  function ForcedClosed(s: NavState): NavState {
    s.(mobileOpen := false, submenu := None)
  }

  /** closeAllMenus: both desktop references are cleared. */
  function MenusCleared(s: NavState): NavState {
    s.(megaMenu := None, dropdown := None)
  }

  /** showMegaMenu: skipped on mobile widths, else close all menus and
      reference the item's mega panel. */
  function MegaShown(s: NavState, width: int, item: ItemId): NavState {
    if width <= MobileMaxWidth then s else MenusCleared(s).(megaMenu := Some(item))
  }

  /** hideMegaMenu: skipped on mobile widths, else forget the reference if it names this item. */
  function MegaHidden(s: NavState, width: int, item: ItemId): NavState {
    if width <= MobileMaxWidth then s
    else if s.megaMenu == Some(item) then s.(megaMenu := None)
    else s
  }

  /** showDropdown: skipped on mobile widths, else close all menus and
      reference the item's dropdown. */
  function DropdownShown(s: NavState, width: int, item: ItemId): NavState {
    if width <= MobileMaxWidth then s else MenusCleared(s).(dropdown := Some(item))
  }

  /** hideDropdown: skipped on mobile widths, else forget the reference if it names this item. */
  function DropdownHidden(s: NavState, width: int, item: ItemId): NavState {
    if width <= MobileMaxWidth then s
    else if s.dropdown == Some(item) then s.(dropdown := None)
    else s
  }

  /** The resize handler: past the breakpoint an open mobile menu is closed. */
  function Resized(s: NavState, width: int): NavState {
    if width > MobileMaxWidth && s.mobileOpen then MobileClosed(s) else s
  }

  // ---------------------------------------------------------------------
  // Events, as the handlers installed by bindEvents, setupMobileMenu,
  // createMobileOverlay, addMobileMenuHeader and addSubmenuHeader see them

  datatype Event =
    | ToggleClick                             // hamburger button
    | CloseClick                              // mobile header close button, or the overlay of the
                                              // instance that created it, then the document's
                                              // outside-click listener (see Step); on any other
                                              // instance an overlay click is an OutsideClick
    | SubmenuLinkClick(width: int, view: ItemView) // link of a mega or dropdown item
    | BackClick                               // submenu back button (after its 50 ms delay)
    | MegaEnter(width: int, item: ItemId)
    | MegaLeave(width: int, item: ItemId)
    | DropdownEnter(width: int, item: ItemId)
    | DropdownLeave(width: int, item: ItemId)
    | OutsideClick                            // a click outside the navigation
    | EscapeKey
    | Resize(width: int)

  function Step(s: NavState, e: Event): NavState {
    match e
    case ToggleClick => Toggled(s)
    // The overlay lies outside the navigation, and the header of the close
    // button is detached by closeMobileMenu before the click bubbles up, so
    // the document listener then closes all desktop menus as well.
    case CloseClick => MenusCleared(MobileClosed(s))
    case SubmenuLinkClick(width, item) =>
      if width <= MobileMaxWidth then SubmenuOpened(s, item) else s
    case BackClick => SubmenuClosed(s)
    case MegaEnter(width, item) => MegaShown(s, width, item)
    case MegaLeave(width, item) => MegaHidden(s, width, item)
    case DropdownEnter(width, item) => DropdownShown(s, width, item)
    case DropdownLeave(width, item) => DropdownHidden(s, width, item)
    case OutsideClick => MenusCleared(s)
    case EscapeKey => MenusCleared(s)
    case Resize(width) => Resized(s, width)
  }

  /** The state after handling `events` in order. */
  function Run(s: NavState, events: seq<Event>): NavState
    decreases |events|
  {
    if events == [] then s else Run(Step(s, events[0]), events[1..])
  }

  /** A desktop panel left open while the window shrank is closed by the
      overlay click that closes the mobile menu. */
  lemma CloseClickClearsDesktopPanels()
    ensures Run(Initial(), [MegaEnter(1200, 3), Resize(375)]).megaMenu == Some(3)
    ensures Run(Initial(), [MegaEnter(1200, 3), Resize(375), ToggleClick, CloseClick])
      == NavState(false, None, None, None)
  {
    var s1 := Step(Initial(), MegaEnter(1200, 3));
    var s2 := Step(s1, Resize(375));
    var s3 := Step(s2, ToggleClick);
    assert Run(Initial(), [MegaEnter(1200, 3), Resize(375)]) == Run(s2, []);
    assert Run(Initial(), [MegaEnter(1200, 3), Resize(375), ToggleClick, CloseClick])
      == Run(Step(s3, CloseClick), []);
  }

  // ---------------------------------------------------------------------
  // Keyboard focus wrap (focusNextMenuItem / focusPrevMenuItem)

  /** Index of the item that ArrowRight focuses among `count` items. */
  function NextIndex(current: nat, count: nat): (r: nat)
    requires current < count
    ensures r < count
    ensures current + 1 < count ==> r == current + 1
    ensures current + 1 == count ==> r == 0
  {
    (current + 1) % count
  }

  /** Index of the item that ArrowLeft focuses among `count` items. */
  function PrevIndex(current: nat, count: nat): (r: nat)
    requires current < count
    ensures r < count
    ensures current > 0 ==> r + 1 == current
    ensures current == 0 ==> r == count - 1
  {
    if current == 0 then count - 1 else current - 1
  }

  // ---------------------------------------------------------------------
  // Properties

  lemma ToggleIsInvolution(s: NavState)
    ensures Toggled(s).mobileOpen == !s.mobileOpen
    ensures Toggled(Toggled(s)) == s
  {
  }

  lemma CloseMobileIsIdempotent(s: NavState)
    ensures !MobileClosed(s).mobileOpen
    ensures MobileClosed(s).submenu == s.submenu
    ensures MobileClosed(MobileClosed(s)) == MobileClosed(s)
  {
  }

  lemma CloseSubmenuIsIdempotent(s: NavState)
    ensures SubmenuClosed(s).submenu.None?
    ensures SubmenuClosed(s).mobileOpen == s.mobileOpen
    ensures s.submenu.None? ==> SubmenuClosed(s) == s
    ensures SubmenuClosed(SubmenuClosed(s)) == SubmenuClosed(s)
  {
  }

  lemma ForcedCloseFromAnyState(s: NavState)
    ensures !ForcedClosed(s).mobileOpen && ForcedClosed(s).submenu.None?
    ensures ForcedClosed(s).megaMenu == s.megaMenu && ForcedClosed(s).dropdown == s.dropdown
    ensures ForcedClosed(ForcedClosed(s)) == ForcedClosed(s)
  {
  }

  lemma CloseAllMenusIsIdempotent(s: NavState)
    ensures MenusCleared(s).megaMenu.None? && MenusCleared(s).dropdown.None?
    ensures MenusCleared(MenusCleared(s)) == MenusCleared(s)
  {
  }

  /** Opening a found submenu replaces whatever was active; the open flag is untouched. */
  lemma OpenSubmenuReplacesActive(s: NavState, item: ItemView)
    ensures FindSubmenu(item).Some? ==>
      SubmenuOpened(s, item) == s.(submenu := FindSubmenu(item))
    ensures FindSubmenu(item).None? ==> SubmenuOpened(s, item) == s
    ensures SubmenuOpened(s, item).mobileOpen == s.mobileOpen
  {
  }

  /** Two opens in a row leave only the second submenu referenced. */
  lemma SecondOpenWins(s: NavState, a: ItemView, b: ItemView)
    requires FindSubmenu(b).Some?
    ensures SubmenuOpened(SubmenuOpened(s, a), b) == SubmenuOpened(s, b)
    ensures SubmenuOpened(SubmenuOpened(s, a), b).submenu == FindSubmenu(b)
  {
  }

  /** A shown desktop panel becomes the only desktop reference; on mobile nothing changes. */
  lemma ShowLeavesOnePanel(s: NavState, width: int, item: ItemId)
    ensures width > MobileMaxWidth ==>
      MegaShown(s, width, item).megaMenu == Some(item) && MegaShown(s, width, item).dropdown.None?
    ensures width > MobileMaxWidth ==>
      DropdownShown(s, width, item).dropdown == Some(item) && DropdownShown(s, width, item).megaMenu.None?
    ensures width <= MobileMaxWidth ==>
      MegaShown(s, width, item) == s && DropdownShown(s, width, item) == s
    ensures DesktopExclusive(s) ==>
      DesktopExclusive(MegaShown(s, width, item)) && DesktopExclusive(DropdownShown(s, width, item))
  {
  }

  /** Hiding clears a reference only when it names the same item, and only on desktop widths. */
  lemma HideClearsOnlySameItem(s: NavState, width: int, item: ItemId)
    ensures MegaHidden(s, width, item).megaMenu ==
      (if width > MobileMaxWidth && s.megaMenu == Some(item) then None else s.megaMenu)
    ensures MegaHidden(s, width, item).dropdown == s.dropdown
    ensures DropdownHidden(s, width, item).dropdown ==
      (if width > MobileMaxWidth && s.dropdown == Some(item) then None else s.dropdown)
    ensures DropdownHidden(s, width, item).megaMenu == s.megaMenu
  {
  }

  /** The resize rule closes the mobile menu only past the breakpoint, and nothing else. */
  lemma ResizeRule(s: NavState, width: int)
    ensures Resized(s, width).mobileOpen == (s.mobileOpen && width <= MobileMaxWidth)
    ensures Resized(s, width).submenu == s.submenu
    ensures Resized(s, width).megaMenu == s.megaMenu && Resized(s, width).dropdown == s.dropdown
  {
  }

  lemma StepKeepsDesktopExclusive(s: NavState, e: Event)
    requires DesktopExclusive(s)
    ensures DesktopExclusive(Step(s, e))
  {
  }

  /** No sequence of events ever leaves two desktop panels referenced. */
  lemma {:induction false} RunKeepsDesktopExclusive(s: NavState, events: seq<Event>)
    requires DesktopExclusive(s)
    ensures DesktopExclusive(Run(s, events))
    decreases |events|
  {
    if events != [] {
      StepKeepsDesktopExclusive(s, events[0]);
      RunKeepsDesktopExclusive(Step(s, events[0]), events[1..]);
    }
  }

  /** Any trace of events with no submenu-link click never opens a submenu. */
  lemma {:induction false} NoLinkClickNoSubmenu(s: NavState, events: seq<Event>)
    requires s.submenu.None?
    requires forall k | 0 <= k < |events| :: !events[k].SubmenuLinkClick?
    ensures Run(s, events).submenu.None?
    decreases |events|
  {
    if events != [] {
      NoLinkClickNoSubmenu(Step(s, events[0]), events[1..]);
    }
  }

  /** Closing the mobile menu from an open submenu keeps the submenu
      referenced: toggling the menu open, opening a submenu and toggling the
      menu closed leaves the root closed with a submenu still active. */
  lemma RootClosesWithSubmenuActive()
    ensures Run(Initial(), [ToggleClick, SubmenuLinkClick(375, ItemView(true, false, Some(7), None)), ToggleClick])
         == NavState(false, Some(Submenu(7, Mega)), None, None)
  {
  }

  lemma WrapIndicesAreInverse(i: nat, count: nat)
    requires i < count
    ensures PrevIndex(NextIndex(i, count), count) == i
    ensures NextIndex(PrevIndex(i, count), count) == i
  {
  }

  // ---------------------------------------------------------------------
  // The widget instance

  class EspritMegaMenu {
    var isMobileMenuOpen: bool
    var activeSubmenu: Option<Submenu>
    var activeMegaMenu: Option<ItemId>
    var activeDropdown: Option<ItemId>

    function State(): NavState
      reads this
    {
      NavState(isMobileMenuOpen, activeSubmenu, activeMegaMenu, activeDropdown)
    }

    ghost predicate Valid()
      reads this
    {
      DesktopExclusive(State())
    }

    constructor ()
      ensures Valid() && State() == Initial()
    {
      activeMegaMenu := None;
      activeDropdown := None;
      isMobileMenuOpen := false;
      activeSubmenu := None;
      new;
      EnsureMobileMenuClosed();
    }

    method ToggleMobileMenu()
      requires Valid()
      modifies this
      ensures Valid() && State() == Toggled(old(State()))
    {
      isMobileMenuOpen := !isMobileMenuOpen;
      if !isMobileMenuOpen {
        CloseMobileMenu();
      }
    }

    method CloseMobileMenu()
      requires Valid()
      modifies this
      ensures Valid() && State() == MobileClosed(old(State()))
    {
      isMobileMenuOpen := false;
    }

    method OpenMobileSubmenu(item: ItemView)
      requires Valid()
      modifies this
      ensures Valid() && State() == SubmenuOpened(old(State()), item)
    {
      var submenu := FindSubmenu(item);
      if submenu.Some? {
        if activeSubmenu.Some? {
          CloseMobileSubmenu();
        }
        activeSubmenu := submenu;
      }
    }

    method CloseMobileSubmenu()
      requires Valid()
      modifies this
      ensures Valid() && State() == SubmenuClosed(old(State()))
    {
      if activeSubmenu.Some? {
        activeSubmenu := None;
      }
    }

    method CloseAllMobileSubmenus()
      requires Valid()
      modifies this
      ensures Valid() && State() == SubmenuClosed(old(State()))
    {
      CloseMobileSubmenu();
    }

    method EnsureMobileMenuClosed()
      requires Valid()
      modifies this
      ensures Valid() && State() == ForcedClosed(old(State()))
    {
      CloseAllMobileSubmenus();
      isMobileMenuOpen := false;
      activeSubmenu := None;
    }

    method CloseAllMenus()
      requires Valid()
      modifies this
      ensures Valid() && State() == MenusCleared(old(State()))
    {
      activeMegaMenu := None;
      activeDropdown := None;
    }

    method ShowMegaMenu(width: int, item: ItemId)
      requires Valid()
      modifies this
      ensures Valid() && State() == MegaShown(old(State()), width, item)
    {
      if width <= MobileMaxWidth {
        return;
      }
      CloseAllMenus();
      activeMegaMenu := Some(item);
    }

    method HideMegaMenu(width: int, item: ItemId)
      requires Valid()
      modifies this
      ensures Valid() && State() == MegaHidden(old(State()), width, item)
    {
      if width <= MobileMaxWidth {
        return;
      }
      if activeMegaMenu == Some(item) {
        activeMegaMenu := None;
      }
    }

    method ShowDropdown(width: int, item: ItemId)
      requires Valid()
      modifies this
      ensures Valid() && State() == DropdownShown(old(State()), width, item)
    {
      if width <= MobileMaxWidth {
        return;
      }
      CloseAllMenus();
      activeDropdown := Some(item);
    }

    method HideDropdown(width: int, item: ItemId)
      requires Valid()
      modifies this
      ensures Valid() && State() == DropdownHidden(old(State()), width, item)
    {
      if width <= MobileMaxWidth {
        return;
      }
      if activeDropdown == Some(item) {
        activeDropdown := None;
      }
    }

    method OnResize(width: int)
      requires Valid()
      modifies this
      ensures Valid() && State() == Resized(old(State()), width)
    {
      if width > MobileMaxWidth && isMobileMenuOpen {
        CloseMobileMenu();
      }
    }

    /** Dispatches one event to the handler the source installs for it. */
    method HandleEvent(e: Event)
      requires Valid()
      modifies this
      ensures Valid() && State() == Step(old(State()), e)
    {
      match e
      case ToggleClick => ToggleMobileMenu();
      case CloseClick =>
        CloseMobileMenu();
        CloseAllMenus();
      case SubmenuLinkClick(width, item) =>
        if width <= MobileMaxWidth {
          OpenMobileSubmenu(item);
        }
      case BackClick => CloseMobileSubmenu();
      case MegaEnter(width, item) => ShowMegaMenu(width, item);
      case MegaLeave(width, item) => HideMegaMenu(width, item);
      case DropdownEnter(width, item) => ShowDropdown(width, item);
      case DropdownLeave(width, item) => HideDropdown(width, item);
      case OutsideClick => CloseAllMenus();
      case EscapeKey => CloseAllMenus();
      case Resize(width) => OnResize(width);
    }
  }
}
