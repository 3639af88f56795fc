/**
 * The focus and ARIA-attribute manager of
 * src/components/Navigation/AriaStateManager.ts. DOM elements are opaque
 * ids; `document.activeElement` is the field `focused` (`None` when no
 * element of interest has focus). Query results (`querySelector`,
 * `querySelectorAll`, `instanceof HTMLElement`) arrive as inputs.
 */
module AriaStateManager {
  import opened Wrappers

  type Elem = nat

  /** A keydown listener that `trapFocus` attached to `container`, with the first and last focusable it captured. */
  datatype TrapListener = TrapListener(id: nat, container: Elem, first: Elem, last: Elem)

  // ------------------------------------------------------------ index arithmetic

  /** `Array.prototype.indexOf`: the first position holding `e`, or -1. */
  function IndexOf(s: seq<Elem>, e: Option<Elem>): (i: int)
    ensures -1 <= i < |s|
    ensures i >= 0 ==> Some(s[i]) == e && forall j :: 0 <= j < i ==> Some(s[j]) != e
    ensures i == -1 <==> forall j :: 0 <= j < |s| ==> Some(s[j]) != e
  {
    if |s| == 0 then -1
    else if Some(s[0]) == e then 0
    else
      var k := IndexOf(s[1..], e);
      if k == -1 then -1 else k + 1
  }

  /**
   * `focusNextItem`'s target among `n` elements when focus is at `i`
   * (-1 when outside): `(i + 1) % n`, and nothing when `n == 0` (the
   * remainder is NaN).
   */
  function NextTarget(n: nat, i: int): (t: Option<nat>)
    requires -1 <= i < n
    ensures t.Some? <==> n > 0
    ensures t.Some? ==> t.value < n
    ensures n > 0 && i == n - 1 ==> t == Some(0)
    ensures i < n - 1 ==> t == Some(i + 1)
  {
    if n == 0 then None else Some((i + 1) % n)
  }

  /**
   * `focusPreviousItem`'s target: the last element when `i == 0`, else
   * `i - 1`; from outside (`i == -1`) that is index -2, which holds nothing.
   */
  function PrevTarget(n: nat, i: int): (t: Option<nat>)
    requires -1 <= i < n
    ensures t.Some? <==> i >= 0
    ensures t.Some? ==> t.value < n
    ensures i == 0 ==> t == Some(n - 1)
    ensures i > 0 ==> t == Some(i - 1)
  {
    var p := if i == 0 then n - 1 else i - 1;
    if 0 <= p then Some(p) else None
  }

  /** Inside the list, next and previous undo each other. */
  lemma NextPrevInverse(n: nat, i: nat)
    requires i < n
    ensures PrevTarget(n, NextTarget(n, i).value) == Some(i)
    ensures NextTarget(n, PrevTarget(n, i).value) == Some(i)
  {
  }

  // ------------------------------------------------------------ trap listeners

  /** The listeners whose id is not in `ids`, in order. */
  function Without(ls: seq<TrapListener>, ids: set<nat>): (r: seq<TrapListener>)
    ensures forall l :: l in r <==> l in ls && l.id !in ids
    ensures |r| <= |ls|
  {
    if |ls| == 0 then []
    else if ls[0].id in ids then Without(ls[1..], ids)
    else [ls[0]] + Without(ls[1..], ids)
  }

  lemma {:induction false} WithoutNothing(ls: seq<TrapListener>)
    ensures Without(ls, {}) == ls
  {
    if |ls| > 0 {
      WithoutNothing(ls[1..]);
      assert ls == [ls[0]] + ls[1..];
    }
  }

  /** A release that names only the second of two listeners keeps the first. */
  lemma KeepsOtherListener(l1: TrapListener, l2: TrapListener)
    requires l1.id != l2.id
    ensures Without([l1, l2], {l2.id}) == [l1]
  {
    assert [l1, l2][1..] == [l2];
    assert [l2][1..] == [];
  }

  lemma {:induction false} WithoutUnion(ls: seq<TrapListener>, a: set<nat>, b: set<nat>)
    ensures Without(Without(ls, a), b) == Without(ls, a + b)
  {
    if |ls| > 0 {
      WithoutUnion(ls[1..], a, b);
      if ls[0].id !in a {
        assert Without(ls, a) == [ls[0]] + Without(ls[1..], a);
        assert Without(ls, a)[1..] == Without(ls[1..], a);
      }
    }
  }

  /** The stored handler ids of the containers among `menus`. */
  function HandlerIds(stored: map<Elem, nat>, menus: seq<Elem>): set<nat>
  {
    set m | m in menus && m in stored :: stored[m]
  }

  /** Releasing one more menu: its stored handler, if any, joins the removed ids, and it leaves the store. */
  lemma ReleaseStep(stored0: map<Elem, nat>, menus: seq<Elem>, menu: Elem)
    ensures var now := stored0 - set m | m in menus;
            (menu in now ==> HandlerIds(stored0, menus + [menu]) == HandlerIds(stored0, menus) + {now[menu]}) &&
            (menu !in now ==> HandlerIds(stored0, menus + [menu]) == HandlerIds(stored0, menus)) &&
            (stored0 - set m | m in menus + [menu]) == now - {menu}
  {
  }

  /** One trap listener's reaction to a key on its container. */
  function TrapStep(l: TrapListener, container: Elem, focused: Option<Elem>, key: string, shift: bool): (f: Option<Elem>)
    ensures f != focused ==> l.container == container && key == "Tab"
    ensures f != focused ==> (shift && focused == Some(l.first) && f == Some(l.last)) ||
                              (!shift && focused == Some(l.last) && f == Some(l.first))
  {
    if l.container != container || key != "Tab" then focused
    else if shift && focused == Some(l.first) then Some(l.last)
    else if !shift && focused == Some(l.last) then Some(l.first)
    else focused
  }

  /** The focus after every listener in `ls` has reacted to the key, in attachment order. */
  function FireTraps(ls: seq<TrapListener>, container: Elem, focused: Option<Elem>, key: string, shift: bool): Option<Elem>
  {
    if |ls| == 0 then focused
    else FireTraps(ls[1..], container, TrapStep(ls[0], container, focused, key, shift), key, shift)
  }

  /** Keys other than Tab, and keys on another element, leave focus alone. */
  lemma {:induction false} FireTrapsOnlyTab(ls: seq<TrapListener>, container: Elem, focused: Option<Elem>, key: string, shift: bool)
    requires key != "Tab" || forall l :: l in ls ==> l.container != container
    ensures FireTraps(ls, container, focused, key, shift) == focused
  {
    if |ls| > 0 {
      assert ls[0] in ls;
      FireTrapsOnlyTab(ls[1..], container, focused, key, shift);
    }
  }

  /** The string a boolean's `toString` gives. */
  function BoolString(b: bool): (s: string)
    ensures s == "true" || s == "false"
    ensures s == "true" <==> b
  {
    if b then "true" else "false"
  }

  /** The attributes `updateNavigationState` writes: the hamburger's `aria-expanded` and the menu's `aria-hidden`. */
  predicate NavigationKey(k: (Elem, string), hamburger: Option<Elem>, navMenu: Option<Elem>)
  {
    (hamburger.Some? && k == (hamburger.value, "aria-expanded")) || (navMenu.Some? && k == (navMenu.value, "aria-hidden"))
  }

  class AriaState {
    /** The element focused before the trap was set (`activeElement`). */
    var activeElement: Option<Elem>
    var focusTrapElements: seq<Elem>
    /** `document.activeElement`. */
    var focused: Option<Elem>
    /** Trap keydown listeners attached to containers, in attachment order. */
    var listeners: seq<TrapListener>
    /** `_focusTrapHandler`: the id of the listener stored on each container. */
    var storedHandler: map<Elem, nat>
    var nextId: nat
    /** ARIA attributes by element and attribute name. */
    var attributes: map<(Elem, string), string>

    ghost predicate Valid()
      reads this
    {
      (forall l :: l in listeners ==> l.id < nextId) &&
      (forall m :: m in storedHandler ==> storedHandler[m] < nextId)
    }

    /** The constructor also installs the document keydown listener, modelled by `DocumentKeyDown`. */
    constructor (focused: Option<Elem>)
      ensures Valid() && this.focused == focused
      ensures activeElement == None && focusTrapElements == [] && listeners == [] && storedHandler == map[] && attributes == map[]
    {
      activeElement := None;
      focusTrapElements := [];
      this.focused := focused;
      listeners := [];
      storedHandler := map[];
      nextId := 0;
      attributes := map[];
    }

    /** `isMenuOpen`: the first `.nav-menu` (if any) reads `aria-hidden="false"` now. */
    function IsMenuOpen(navMenu: Option<Elem>): (b: bool)
      reads this
      ensures b ==> navMenu.Some? && (navMenu.value, "aria-hidden") in attributes &&
                    attributes[(navMenu.value, "aria-hidden")] == "false"
      ensures (navMenu.Some? && (navMenu.value, "aria-hidden") in attributes &&
               attributes[(navMenu.value, "aria-hidden")] == BoolString(false)) ==> b
    {
      navMenu.Some? && (navMenu.value, "aria-hidden") in attributes && attributes[(navMenu.value, "aria-hidden")] == "false"
    }

    /** `trapFocus`: with no focusables nothing changes; otherwise record the focus, focus the first, and attach a listener. */
    method TrapFocus(container: Elem, focusables: seq<Elem>)
      requires Valid()
      modifies this
      ensures Valid() && attributes == old(attributes)
      ensures |focusables| == 0 ==> unchanged(this)
      ensures |focusables| > 0 ==>
                focusTrapElements == focusables && activeElement == old(focused) && focused == Some(focusables[0]) &&
                listeners == old(listeners) + [TrapListener(old(nextId), container, focusables[0], focusables[|focusables| - 1])] &&
                storedHandler == old(storedHandler)[container := old(nextId)]
    {
      if |focusables| == 0 {
        return;
      }
      focusTrapElements := focusables;
      activeElement := focused;
      focused := Some(focusables[0]);
      listeners := listeners + [TrapListener(nextId, container, focusables[0], focusables[|focusables| - 1])];
      storedHandler := storedHandler[container := nextId];
      nextId := nextId + 1;
    }

    /**
     * `releaseFocus`: detach the stored listener of every `.nav-menu`, refocus
     * the recorded element if it is an HTML element, then forget the list and
     * the record.
     */
    method ReleaseFocus(navMenus: seq<Elem>, recordedIsHtml: bool)
      requires Valid()
      modifies this
      ensures Valid() && attributes == old(attributes)
      ensures listeners == Without(old(listeners), HandlerIds(old(storedHandler), navMenus))
      ensures storedHandler == old(storedHandler) - set m | m in navMenus
      ensures focused == if old(activeElement).Some? && recordedIsHtml then old(activeElement) else old(focused)
      ensures focusTrapElements == [] && activeElement == None
    {
      ghost var ls0, stored0 := listeners, storedHandler;
      WithoutNothing(ls0);
      assert HandlerIds(stored0, navMenus[..0]) == {};
      for i := 0 to |navMenus|
        invariant Valid() && attributes == old(attributes)
        invariant storedHandler == stored0 - set m | m in navMenus[..i]
        invariant listeners == Without(ls0, HandlerIds(stored0, navMenus[..i]))
        invariant focused == old(focused) && activeElement == old(activeElement)
      {
        var menu := navMenus[i];
        assert navMenus[..i + 1] == navMenus[..i] + [menu];
        ReleaseStep(stored0, navMenus[..i], menu);
        if menu in storedHandler {
          var h := storedHandler[menu];
          WithoutUnion(ls0, HandlerIds(stored0, navMenus[..i]), {h});
          listeners := Without(listeners, {h});
          storedHandler := storedHandler - {menu};
        }
      }
      assert navMenus[..|navMenus|] == navMenus;
      if activeElement.Some? && recordedIsHtml {
        focused := activeElement;
      }
      focusTrapElements := [];
      activeElement := None;
    }

    /** A key on `container`: every trap listener attached there reacts, in attachment order. */
    method ContainerKeyDown(container: Elem, key: string, shift: bool)
      requires Valid()
      modifies this`focused
      ensures Valid()
      ensures focused == FireTraps(listeners, container, old(focused), key, shift)
    {
      var i := 0;
      while i < |listeners|
        invariant 0 <= i <= |listeners|
        invariant FireTraps(listeners[i..], container, focused, key, shift) == FireTraps(listeners, container, old(focused), key, shift)
      {
        assert listeners[i..][1..] == listeners[i + 1..];
        focused := TrapStep(listeners[i], container, focused, key, shift);
        i := i + 1;
      }
    }

    /**
     * The document keydown listener: Escape clicks the hamburger if there is
     * one; the arrows, Home and End move focus through the trapped list, but
     * only while the menu's `aria-hidden` reads `"false"`.
     */
    method DocumentKeyDown(key: string, navMenu: Option<Elem>, hamburgerPresent: bool) returns (hamburgerClicked: bool)
      requires Valid()
      modifies this`focused
      ensures Valid()
      ensures hamburgerClicked <==> key == "Escape" && hamburgerPresent
      ensures !IsMenuOpen(navMenu) ==> focused == old(focused)
      ensures IsMenuOpen(navMenu) && key == "ArrowDown" ==>
                focused == match NextTarget(|focusTrapElements|, IndexOf(focusTrapElements, old(focused)))
                           case Some(k) => Some(focusTrapElements[k])
                           case None => old(focused)
      ensures IsMenuOpen(navMenu) && key == "ArrowUp" ==>
                focused == match PrevTarget(|focusTrapElements|, IndexOf(focusTrapElements, old(focused)))
                           case Some(k) => Some(focusTrapElements[k])
                           case None => old(focused)
      ensures IsMenuOpen(navMenu) && key == "Home" ==>
                focused == if |focusTrapElements| > 0 then Some(focusTrapElements[0]) else old(focused)
      ensures IsMenuOpen(navMenu) && key == "End" ==>
                focused == if |focusTrapElements| > 0 then Some(focusTrapElements[|focusTrapElements| - 1]) else old(focused)
      ensures key !in {"ArrowDown", "ArrowUp", "Home", "End"} ==> focused == old(focused)
    {
      hamburgerClicked := false;
      var n := |focusTrapElements|;
      if key == "Escape" {
        hamburgerClicked := hamburgerPresent;
      } else if key == "ArrowDown" && IsMenuOpen(navMenu) {
        var t := NextTarget(n, IndexOf(focusTrapElements, focused));
        if t.Some? {
          focused := Some(focusTrapElements[t.value]);
        }
      } else if key == "ArrowUp" && IsMenuOpen(navMenu) {
        var t := PrevTarget(n, IndexOf(focusTrapElements, focused));
        if t.Some? {
          focused := Some(focusTrapElements[t.value]);
        }
      } else if key == "Home" && IsMenuOpen(navMenu) {
        if n > 0 {
          focused := Some(focusTrapElements[0]);
        }
      } else if key == "End" && IsMenuOpen(navMenu) {
        if n > 0 {
          focused := Some(focusTrapElements[n - 1]);
        }
      }
    }

    /**
     * `updateNavigationState`: `aria-expanded` on the hamburger and
     * `aria-hidden` on the menu, each only if present; with a menu, trap on
     * open and release on close.
     */
    method UpdateNavigationState(isOpen: bool, hamburger: Option<Elem>, navMenu: Option<Elem>,
                                 focusables: seq<Elem>, navMenus: seq<Elem>, recordedIsHtml: bool)
      requires Valid()
      modifies this
      ensures Valid()
      ensures hamburger.Some? ==> (hamburger.value, "aria-expanded") in attributes &&
                                  attributes[(hamburger.value, "aria-expanded")] == BoolString(isOpen)
      ensures navMenu.Some? ==> IsMenuOpen(navMenu) == isOpen
      ensures forall k :: k in old(attributes) && !NavigationKey(k, hamburger, navMenu) ==>
                k in attributes && attributes[k] == old(attributes)[k]
      ensures navMenu.None? || (isOpen && |focusables| == 0) ==>
                focused == old(focused) && activeElement == old(activeElement) && focusTrapElements == old(focusTrapElements) &&
                listeners == old(listeners) && storedHandler == old(storedHandler)
      ensures navMenu.Some? && isOpen && |focusables| > 0 ==>
                activeElement == old(focused) && focused == Some(focusables[0]) && focusTrapElements == focusables
      ensures navMenu.Some? && isOpen && |focusables| > 0 ==>
                listeners == old(listeners) + [TrapListener(old(nextId), navMenu.value, focusables[0], focusables[|focusables| - 1])] &&
                storedHandler == old(storedHandler)[navMenu.value := old(nextId)]
      ensures navMenu.Some? && !isOpen ==> focusTrapElements == [] && activeElement == None
      ensures navMenu.Some? && !isOpen ==>
                listeners == Without(old(listeners), HandlerIds(old(storedHandler), navMenus)) &&
                storedHandler == old(storedHandler) - set m | m in navMenus
      ensures navMenu.Some? && !isOpen ==>
                focused == if old(activeElement).Some? && recordedIsHtml then old(activeElement) else old(focused)
    {
      if hamburger.Some? {
        attributes := attributes[(hamburger.value, "aria-expanded") := BoolString(isOpen)];
      }
      if navMenu.Some? {
        attributes := attributes[(navMenu.value, "aria-hidden") := BoolString(!isOpen)];
        if isOpen {
          TrapFocus(navMenu.value, focusables);
        } else {
          ReleaseFocus(navMenus, recordedIsHtml);
        }
      }
    }

    /**
     * An attribute written by someone other than this manager: the menu
     * component renders `aria-hidden` on its own element on every render.
     */
    method ExternalSetAttribute(e: Elem, name: string, value: string)
      requires Valid()
      modifies this`attributes
      ensures Valid() && attributes == old(attributes)[(e, name) := value]
      ensures name == "aria-hidden" ==> IsMenuOpen(Some(e)) == (value == "false")
    {
      attributes := attributes[(e, name) := value];
    }

    /** `updateDropdownState`: `aria-expanded` and `aria-hidden` on the panel and `aria-expanded` on its trigger, skipping absent ones. */
    method UpdateDropdownState(isOpen: bool, dropdown: Option<Elem>, trigger: Option<Elem>)
      requires Valid()
      modifies this`attributes
      ensures Valid()
      ensures dropdown.Some? ==> (dropdown.value, "aria-expanded") in attributes && (dropdown.value, "aria-hidden") in attributes
      ensures dropdown.Some? ==> attributes[(dropdown.value, "aria-expanded")] == BoolString(isOpen) &&
                                 attributes[(dropdown.value, "aria-hidden")] == BoolString(!isOpen)
      ensures trigger.Some? ==> (trigger.value, "aria-expanded") in attributes &&
                                attributes[(trigger.value, "aria-expanded")] == BoolString(isOpen)
      ensures forall k :: k in old(attributes) ==> k in attributes
      ensures forall k :: k in attributes && k !in old(attributes) ==>
                (dropdown.Some? && k.0 == dropdown.value) || (trigger.Some? && k.0 == trigger.value)
      ensures forall k :: k in old(attributes) && (dropdown.None? || k.0 != dropdown.value) && (trigger.None? || k.0 != trigger.value) ==>
                attributes[k] == old(attributes)[k]
    {
      if dropdown.Some? {
        attributes := attributes[(dropdown.value, "aria-expanded") := BoolString(isOpen)];
        attributes := attributes[(dropdown.value, "aria-hidden") := BoolString(!isOpen)];
      }
      if trigger.Some? {
        attributes := attributes[(trigger.value, "aria-expanded") := BoolString(isOpen)];
      }
    }
  }

  /** Trapping a menu and then releasing it puts focus back where it was. */
  method TrapThenRelease(a: AriaState, menu: Elem, focusables: seq<Elem>, navMenus: seq<Elem>)
    requires a.Valid() && a.focused.Some? && |focusables| > 0 && menu in navMenus
    modifies a
    ensures a.Valid() && a.focused == old(a.focused)
    ensures menu !in a.storedHandler && a.focusTrapElements == []
  {
    a.TrapFocus(menu, focusables);
    a.ReleaseFocus(navMenus, true);
  }

  /**
   * Trapping the same menu twice overwrites the stored handler and the
   * recorded focus: a release then detaches only the second listener and
   * restores focus to the menu's first element.
   */
  method TrapTwiceThenRelease(a: AriaState, menu: Elem, focusables: seq<Elem>)
    requires a.Valid() && |focusables| > 0 && a.listeners == [] && a.storedHandler == map[]
    modifies a
    ensures |a.listeners| == 1 && a.listeners[0].container == menu
    ensures a.focused == Some(focusables[0])
  {
    a.TrapFocus(menu, focusables);
    ghost var l1 := a.listeners[0];
    a.TrapFocus(menu, focusables);
    ghost var l2 := a.listeners[1];
    assert a.listeners == [l1, l2] && a.storedHandler == map[menu := l2.id];
    assert menu in [menu];
    assert HandlerIds(a.storedHandler, [menu]) == {l2.id};
    a.ReleaseFocus([menu], true);
    KeepsOtherListener(l1, l2);
  }
}
