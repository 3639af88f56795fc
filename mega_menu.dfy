/**
 * The desktop mega menu of src/components/Navigation/MegaMenu.tsx: what it
 * renders, the Tab focus-wrap decision, and the handlers that ask the
 * parent to close it. DOM queries (`contains`, `relatedTarget`,
 * `querySelectorAll`) arrive as their outcomes; `onClose` and
 * `onMouseEnter` calls are returned as booleans.
 */
module MegaMenu {
  import opened Wrappers
  import opened Text
  import opened MenuItems

  // ------------------------------------------------------------ Tab wrap

  /** What the Tab handler does: leave the browser's default, or prevent it and focus the element at `index`. */
  datatype FocusAction = KeepDefault | FocusAt(index: nat)

  /**
   * The Tab branch of `handleKeyDown` over `n` focusable elements, with
   * `focused` the position of `document.activeElement` among them (`None`
   * when it is outside the menu): Shift+Tab on the first focuses the last,
   * Tab on the last focuses the first.
   */
  function TabWrap(n: nat, focused: Option<nat>, shift: bool): (a: FocusAction)
    ensures a.FocusAt? ==> n > 0 && a.index < n
    ensures n == 0 ==> a == KeepDefault
    ensures focused.None? ==> a == KeepDefault
  {
    if n == 0 then KeepDefault
    else if shift && focused == Some(0) then FocusAt(n - 1)
    else if !shift && focused == Some(n - 1) then FocusAt(0)
    else KeepDefault
  }

  /**
   * Where focus lands after a Tab press that starts on focusable `i`, if the
   * browser's default order is the order of the focusables (the one outside
   * `[0, n)` means focus left the menu).
   */
  function FocusAfterTab(n: nat, i: nat, shift: bool): int
    requires i < n
  {
    match TabWrap(n, Some(i), shift)
    case FocusAt(k) => k
    case KeepDefault => if shift then i - 1 else i + 1
  }

  /** The focus trap: from inside, Tab moves cyclically forward and Shift+Tab cyclically backward, so focus never leaves the menu. */
  lemma TabCyclesWithin(n: nat, i: nat)
    requires i < n
    ensures FocusAfterTab(n, i, false) == (i + 1) % n
    ensures FocusAfterTab(n, i, true) == (i - 1 + n) % n
    ensures 0 <= FocusAfterTab(n, i, false) < n && 0 <= FocusAfterTab(n, i, true) < n
  {
    if i + 1 < n {
      assert FocusAfterTab(n, i, false) == i + 1;
      ModBelow(i + 1, n);
    } else {
      assert FocusAfterTab(n, i, false) == 0;
      ModBelow(0, n);
      ModShift(0, n);
    }
    if i > 0 {
      assert FocusAfterTab(n, i, true) == i - 1;
      ModBelow(i - 1, n);
      ModShift(i - 1, n);
    } else {
      assert FocusAfterTab(n, i, true) == n - 1;
      ModBelow(n - 1, n);
    }
  }

  /** A value below the modulus is its own remainder. */
  lemma ModBelow(a: int, n: int)
    requires 0 <= a < n
    ensures a % n == a
  {
  }

  /** Adding the modulus does not change the remainder. */
  lemma ModShift(a: int, n: int)
    requires 0 <= a < n
    ensures (a + n) % n == a
  {
  }

  /** Every other Tab press, and any press with focus outside the menu, keeps the default order. */
  lemma TabWrapOnlyAtTheEnds(n: nat, focused: Option<nat>, shift: bool)
    ensures TabWrap(n, focused, shift).FocusAt? <==>
              n > 0 && ((shift && focused == Some(0)) || (!shift && focused == Some(n - 1)))
  {
  }

  // ------------------------------------------------------------ rendering

  datatype Layout = ServicesGrid | SingleColumn

  /** `columnContent`: the two-column services grid iff the class name contains `services`. */
  function LayoutFor(className: string): (l: Layout)
    ensures l == ServicesGrid <==> Contains(className, "services")
  {
    if Contains(className, "services") then ServicesGrid else SingleColumn
  }

  /** One rendered link: its column, its position in the column, and the link. */
  datatype RenderedLink = RenderedLink(column: nat, position: nat, link: MenuLink)

  /** What an open mega menu renders. `tabsShown` is the column-tab navigation. */
  datatype MenuView = MenuView(layout: Layout, columnTitles: seq<string>, links: seq<RenderedLink>, tabsShown: bool)

  /** The links of `columns[from..]`, column by column and item by item. */
  function LinksFrom(columns: seq<MenuColumn>, from: nat): (r: seq<RenderedLink>)
    requires from <= |columns|
    decreases |columns| - from
  {
    if from == |columns| then []
    else ColumnLinks(columns[from], from, 0) + LinksFrom(columns, from + 1)
  }

  function ColumnLinks(c: MenuColumn, column: nat, from: nat): (r: seq<RenderedLink>)
    requires from <= |c.items|
    ensures |r| == |c.items| - from
    ensures forall k :: 0 <= k < |r| ==> r[k] == RenderedLink(column, from + k, c.items[from + k])
    decreases |c.items| - from
  {
    if from == |c.items| then [] else [RenderedLink(column, from, c.items[from])] + ColumnLinks(c, column, from + 1)
  }

  /** The number of links in `columns[from..]`. */
  function CountFrom(columns: seq<MenuColumn>, from: nat): nat
    requires from <= |columns|
    decreases |columns| - from
  {
    if from == |columns| then 0 else |columns[from].items| + CountFrom(columns, from + 1)
  }

  /** The render: nothing while closed; while open every column and every link in source order, and never the column tabs. */
  function Render(isOpen: bool, columns: seq<MenuColumn>, className: string): (v: Option<MenuView>)
    ensures v.Some? <==> isOpen
    ensures v.Some? ==> !v.value.tabsShown && v.value.layout == LayoutFor(className)
    ensures v.Some? ==> |v.value.columnTitles| == |columns|
    ensures v.Some? ==> forall i :: 0 <= i < |columns| ==> v.value.columnTitles[i] == columns[i].title
    ensures v.Some? ==> v.value.links == LinksFrom(columns, 0)
  {
    if !isOpen then None
    else Some(MenuView(LayoutFor(className), seq(|columns|, i requires 0 <= i < |columns| => columns[i].title),
                       LinksFrom(columns, 0), false))
  }

  /** The rendered links are exactly the columns' items, column after column, in order. */
  lemma {:induction false} LinksInOrder(columns: seq<MenuColumn>, from: nat, c: nat, k: nat)
    requires from <= c < |columns| && k < |columns[c].items|
    ensures |LinksFrom(columns, from)| == CountFrom(columns, from)
    ensures var p := CountFrom(columns, from) - CountFrom(columns, c) + k;
            0 <= p < |LinksFrom(columns, from)| &&
            LinksFrom(columns, from)[p] == RenderedLink(c, k, columns[c].items[k])
    decreases |columns| - from
  {
    LinksLength(columns, from);
    if from < c {
      LinksInOrder(columns, from + 1, c, k);
      CountMonotone(columns, from + 1, c);
    }
  }

  lemma {:induction false} LinksLength(columns: seq<MenuColumn>, from: nat)
    requires from <= |columns|
    ensures |LinksFrom(columns, from)| == CountFrom(columns, from)
    decreases |columns| - from
  {
    if from < |columns| {
      LinksLength(columns, from + 1);
    }
  }

  lemma {:induction false} CountMonotone(columns: seq<MenuColumn>, from: nat, c: nat)
    requires from <= c <= |columns|
    ensures CountFrom(columns, c) <= CountFrom(columns, from)
    decreases c - from
  {
    if from < c {
      CountMonotone(columns, from + 1, c);
    }
  }

  /** Both layouts render the same columns and links; only the arrangement differs. */
  lemma LayoutsRenderSameLinks(columns: seq<MenuColumn>, a: string, b: string)
    ensures Render(true, columns, a).value.links == Render(true, columns, b).value.links
    ensures Render(true, columns, a).value.columnTitles == Render(true, columns, b).value.columnTitles
  {
  }

  /** The Header's services menu class selects the grid. */
  lemma ServicesClassSelectsGrid()
    ensures LayoutFor("header__mega-menu header__mega-menu--services") == ServicesGrid
  {
    var cls := "header__mega-menu header__mega-menu--services";
    assert cls[|cls| - 8..] == "services";
    assert StartsWith(cls[|cls| - 8..], "services");
    ContainsSuffix(cls, |cls| - 8, "services");
  }

  // ------------------------------------------------------------ state

  class MegaMenuState {
    /** The `isOpen` prop. */
    var isOpen: bool
    var activeColumn: nat
    /** `closeTimeoutRef`: a pending delayed close. No code path of the component arms it. */
    var closeTimerArmed: bool
    /** The document `mousedown`/`keydown`/`mouseleave` listeners. */
    var listenersInstalled: bool

    ghost predicate Valid()
      reads this
    {
      listenersInstalled == isOpen
    }

    constructor (isOpen: bool)
      ensures Valid() && this.isOpen == isOpen && activeColumn == 0 && !closeTimerArmed
    {
      this.isOpen := isOpen;
      activeColumn := 0;
      closeTimerArmed := false;
      listenersInstalled := isOpen;
    }

    /** A new `isOpen` prop: opening installs the listeners and resets the active column; closing removes them and clears the close timer. */
    method SetOpen(open: bool)
      requires Valid()
      modifies this
      ensures Valid() && isOpen == open
      ensures !old(isOpen) && open ==> activeColumn == 0
      ensures old(isOpen) && !open ==> !closeTimerArmed
      ensures old(isOpen) == open ==> activeColumn == old(activeColumn) && closeTimerArmed == old(closeTimerArmed)
    {
      if open == isOpen {
        return;
      }
      if isOpen {
        closeTimerArmed := false;
      }
      isOpen := open;
      listenersInstalled := open;
      if open {
        activeColumn := 0;
      }
    }

    /** `handleClose`: clear the close timer and call `onClose`. */
    method HandleClose() returns (closeRequested: bool)
      requires Valid()
      modifies this`closeTimerArmed
      ensures Valid() && closeRequested && !closeTimerArmed
    {
      closeTimerArmed := false;
      closeRequested := true;
    }

    /** The document `keydown` listener: Escape closes, Tab wraps at the ends; nothing while closed. */
    method DocumentKeyDown(key: string, shift: bool, n: nat, focused: Option<nat>)
      returns (closeRequested: bool, action: FocusAction)
      requires Valid()
      modifies this`closeTimerArmed
      ensures Valid()
      ensures closeRequested <==> isOpen && key == "Escape"
      ensures action == if isOpen && key == "Tab" then TabWrap(n, focused, shift) else KeepDefault
      ensures closeRequested ==> !closeTimerArmed
      ensures !closeRequested ==> closeTimerArmed == old(closeTimerArmed)
    {
      closeRequested, action := false, KeepDefault;
      if !listenersInstalled {
        return;
      }
      if key == "Escape" {
        closeRequested := HandleClose();
      } else if key == "Tab" {
        action := TabWrap(n, focused, shift);
      }
    }

    /** The document `mousedown` listener: a press outside the open menu closes it. */
    method DocumentMouseDown(insideMenu: bool) returns (closeRequested: bool)
      requires Valid()
      modifies this`closeTimerArmed
      ensures Valid()
      ensures closeRequested <==> isOpen && !insideMenu
      ensures !closeRequested ==> closeTimerArmed == old(closeTimerArmed)
    {
      closeRequested := false;
      if listenersInstalled && !insideMenu {
        closeRequested := HandleClose();
      }
    }

    /** The document `mouseleave` listener: leaving the page (no related target) closes the open menu. */
    method DocumentMouseLeave(hasRelatedTarget: bool) returns (closeRequested: bool)
      requires Valid()
      modifies this`closeTimerArmed
      ensures Valid()
      ensures closeRequested <==> isOpen && !hasRelatedTarget
      ensures !closeRequested ==> closeTimerArmed == old(closeTimerArmed)
    {
      closeRequested := false;
      if listenersInstalled && !hasRelatedTarget {
        closeRequested := HandleClose();
      }
    }

    /** `handleMouseLeave` on the rendered menu: leaving it always closes. */
    method MenuMouseLeave() returns (closeRequested: bool)
      requires Valid() && isOpen
      modifies this`closeTimerArmed
      ensures Valid() && closeRequested && !closeTimerArmed
    {
      closeTimerArmed := false;
      closeRequested := true;
    }

    /** A click on the overlay of the rendered menu closes it. */
    method OverlayClick() returns (closeRequested: bool)
      requires Valid() && isOpen
      modifies this`closeTimerArmed
      ensures Valid() && closeRequested && !closeTimerArmed
    {
      closeRequested := HandleClose();
    }

    /** `cancelDelayedClose`: clear any pending close, and call `onMouseEnter` exactly when the parent supplied one. */
    method CancelDelayedClose(hasOnMouseEnter: bool) returns (notifiedParent: bool)
      requires Valid()
      modifies this`closeTimerArmed
      ensures Valid() && !closeTimerArmed
      ensures notifiedParent == hasOnMouseEnter
    {
      closeTimerArmed := false;
      notifiedParent := hasOnMouseEnter;
    }
  }
}
