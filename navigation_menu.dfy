/**
 * The mobile drill-down menu of src/components/Navigation/NavigationMenu.tsx:
 * a `currentPanel` (`"main"` or the slug of a dropdown item's label) and an
 * `isAnimating` lock set by each panel change and cleared by a timer
 * 300 ms (drill-down) or 120 ms (back) later. The timers are counted and
 * delivered by explicit `AnimationEnds` events. What the menu asks of its
 * parent (`onClose`) and of the browser (`window.location.href = ...`) is
 * returned as a list of effects.
 *
 * The Escape listener is a closure over the render in which its effect last
 * ran. That effect re-runs when `isOpen`, `onClose` or `currentPanel`
 * changes, and the parent passes a new `onClose` on each of its renders, so
 * the listener always sees the current panel but only the `isAnimating` of
 * its last refresh, kept here as `escapeSeesAnimating`.
 */
module NavigationMenu {
  import opened Wrappers
  import opened Text
  import opened MenuItems

  const MainPanel := "main"

  datatype MenuEffect = CloseRequested | NavigateTo(href: string)

  /** The panel id of a dropdown item: `item.label.toLowerCase().replace(/\s+/g, '-')`. */
  function PanelId(item: MenuItem): string
  {
    Slug(item.name)
  }

  /** A panel that the menu can show for these items. */
  ghost predicate KnownPanel(items: seq<MenuItem>, panel: string)
  {
    panel == MainPanel || exists item :: item in items && item.hasDropdown && PanelId(item) == panel
  }

  /** `handleLinkClick`: close the whole menu first, then navigate. */
  function LinkEffects(href: string): seq<MenuEffect>
  {
    [CloseRequested, NavigateTo(href)]
  }

  class MobileMenu {
    const items: seq<MenuItem>
    /** The `isOpen` prop. */
    var isOpen: bool
    var currentPanel: string
    var isAnimating: bool
    /** Animation-end timers armed and not yet fired. */
    var pendingAnimationEnds: nat
    /** The `isAnimating` captured by the installed Escape listener. */
    var escapeSeesAnimating: bool

    ghost predicate Valid()
      reads this
    {
      && (isAnimating ==> pendingAnimationEnds > 0)
      && KnownPanel(items, currentPanel)
    }

    /** The first render: on the main panel, not animating. */
    constructor (items: seq<MenuItem>, isOpen: bool)
      ensures Valid() && this.items == items && this.isOpen == isOpen
      ensures currentPanel == MainPanel && !isAnimating && pendingAnimationEnds == 0 && !escapeSeesAnimating
    {
      this.items := items;
      this.isOpen := isOpen;
      currentPanel := MainPanel;
      isAnimating := false;
      pendingAnimationEnds := 0;
      escapeSeesAnimating := false;
    }

    /** A submenu panel is shown iff the current panel is its item's id. */
    predicate SubmenuActive(item: MenuItem)
      reads this
    {
      currentPanel == PanelId(item)
    }

    /** The tab index of a submenu link: 0 on the shown panel, -1 elsewhere. */
    function SubmenuLinkTabIndex(item: MenuItem): (t: int)
      reads this
      ensures t == 0 <==> SubmenuActive(item)
      ensures t == -1 <==> !SubmenuActive(item)
    {
      if currentPanel == PanelId(item) then 0 else -1
    }

    /**
     * A new `isOpen` prop. When it changes to false, the reset effect puts
     * the menu back on the main panel and clears the animation lock. The
     * parent rendered with a new `onClose`, so the listener is refreshed.
     */
    method SetOpen(open: bool)
      requires Valid()
      modifies this
      ensures Valid() && isOpen == open
      ensures old(isOpen) && !open ==> currentPanel == MainPanel && !isAnimating
      ensures !(old(isOpen) && !open) ==> currentPanel == old(currentPanel) && isAnimating == old(isAnimating)
      ensures pendingAnimationEnds == old(pendingAnimationEnds) && escapeSeesAnimating == isAnimating
    {
      var changed := open != isOpen;
      isOpen := open;
      if changed && !open {
        currentPanel := MainPanel;
        isAnimating := false;
      }
      escapeSeesAnimating := isAnimating;
    }

    /** The parent renders again without changing `isOpen`: its new `onClose` refreshes the listener. */
    method ParentRenders()
      requires Valid()
      modifies this`escapeSeesAnimating
      ensures Valid() && escapeSeesAnimating == isAnimating
    {
      escapeSeesAnimating := isAnimating;
    }

    /** A panel change re-runs the listener effect, which captures the new lock. */
    method ShowPanel(panel: string)
      requires Valid() && KnownPanel(items, panel)
      modifies this
      ensures Valid() && isOpen == old(isOpen)
      ensures currentPanel == panel && isAnimating && pendingAnimationEnds == old(pendingAnimationEnds) + 1
      ensures escapeSeesAnimating == if panel != old(currentPanel) then true else old(escapeSeesAnimating)
    {
      if panel != currentPanel {
        escapeSeesAnimating := true;
      }
      isAnimating := true;
      currentPanel := panel;
      pendingAnimationEnds := pendingAnimationEnds + 1;
    }

    /** `handleDrilldownClick`: ignored while animating; otherwise show the item's panel and start a 300 ms lock. */
    method DrilldownClick(item: MenuItem)
      requires Valid() && item in items && item.hasDropdown
      modifies this
      ensures Valid() && isOpen == old(isOpen)
      ensures old(isAnimating) ==>
                currentPanel == old(currentPanel) && isAnimating && pendingAnimationEnds == old(pendingAnimationEnds)
      ensures !old(isAnimating) ==>
                currentPanel == PanelId(item) && isAnimating && pendingAnimationEnds == old(pendingAnimationEnds) + 1
      ensures escapeSeesAnimating ==
                if !old(isAnimating) && PanelId(item) != old(currentPanel) then true else old(escapeSeesAnimating)
    {
      if isAnimating {
        return;
      }
      ShowPanel(PanelId(item));
    }

    /** `goBack`: ignored while animating; otherwise show the main panel and start a 120 ms lock. */
    method GoBack()
      requires Valid()
      modifies this
      ensures Valid() && isOpen == old(isOpen)
      ensures old(isAnimating) ==>
                currentPanel == old(currentPanel) && isAnimating && pendingAnimationEnds == old(pendingAnimationEnds)
      ensures !old(isAnimating) ==>
                currentPanel == MainPanel && isAnimating && pendingAnimationEnds == old(pendingAnimationEnds) + 1
      ensures escapeSeesAnimating ==
                if !old(isAnimating) && old(currentPanel) != MainPanel then true else old(escapeSeesAnimating)
    {
      if isAnimating {
        return;
      }
      ShowPanel(MainPanel);
    }

    /** An animation timer fires: the lock is released and the panel is left alone. */
    method AnimationEnds()
      requires Valid() && pendingAnimationEnds > 0
      modifies this
      ensures Valid() && isOpen == old(isOpen)
      ensures !isAnimating && currentPanel == old(currentPanel)
      ensures pendingAnimationEnds == old(pendingAnimationEnds) - 1
      ensures escapeSeesAnimating == old(escapeSeesAnimating)
    {
      isAnimating := false;
      pendingAnimationEnds := pendingAnimationEnds - 1;
    }

    /**
     * The document `keydown` listener, installed only while open: Escape on
     * a submenu runs the captured `goBack`, which tests the captured lock
     * `escapeSeesAnimating`; Escape on the main panel asks the parent to
     * close.
     */
    method KeyDown(key: string) returns (effects: seq<MenuEffect>)
      requires Valid()
      modifies this
      ensures Valid() && isOpen == old(isOpen)
      ensures old(isOpen) && key == "Escape" && old(currentPanel) == MainPanel ==>
                effects == [CloseRequested] && currentPanel == old(currentPanel) && isAnimating == old(isAnimating) &&
                pendingAnimationEnds == old(pendingAnimationEnds) && escapeSeesAnimating == old(escapeSeesAnimating)
      ensures old(isOpen) && key == "Escape" && old(currentPanel) != MainPanel ==> effects == []
      ensures old(isOpen) && key == "Escape" && old(currentPanel) != MainPanel && old(escapeSeesAnimating) ==>
                currentPanel == old(currentPanel) && isAnimating == old(isAnimating) &&
                pendingAnimationEnds == old(pendingAnimationEnds) && escapeSeesAnimating
      ensures old(isOpen) && key == "Escape" && old(currentPanel) != MainPanel && !old(escapeSeesAnimating) ==>
                currentPanel == MainPanel && isAnimating && pendingAnimationEnds == old(pendingAnimationEnds) + 1 &&
                escapeSeesAnimating
      ensures !(old(isOpen) && key == "Escape") ==>
                effects == [] && currentPanel == old(currentPanel) && isAnimating == old(isAnimating) &&
                pendingAnimationEnds == old(pendingAnimationEnds) && escapeSeesAnimating == old(escapeSeesAnimating)
    {
      effects := [];
      if !isOpen || key != "Escape" {
        return;
      }
      if currentPanel != MainPanel {
        if !escapeSeesAnimating {
          ShowPanel(MainPanel);
        }
      } else {
        effects := [CloseRequested];
      }
    }

    /**
     * The listener with `isAnimating` among its effect's dependencies: it
     * tests the current lock, so Escape on a submenu goes back exactly when
     * a click on the back button would.
     */
    method KeyDownFixed(key: string) returns (effects: seq<MenuEffect>)
      requires Valid()
      modifies this
      ensures Valid() && isOpen == old(isOpen)
      ensures old(isOpen) && key == "Escape" && old(currentPanel) == MainPanel ==>
                effects == [CloseRequested] && currentPanel == old(currentPanel) &&
                isAnimating == old(isAnimating) && pendingAnimationEnds == old(pendingAnimationEnds)
      ensures old(isOpen) && key == "Escape" && old(currentPanel) != MainPanel ==> effects == []
      ensures old(isOpen) && key == "Escape" && old(currentPanel) != MainPanel && old(isAnimating) ==>
                currentPanel == old(currentPanel) && isAnimating && pendingAnimationEnds == old(pendingAnimationEnds)
      ensures old(isOpen) && key == "Escape" && old(currentPanel) != MainPanel && !old(isAnimating) ==>
                currentPanel == MainPanel && isAnimating && pendingAnimationEnds == old(pendingAnimationEnds) + 1
      ensures !(old(isOpen) && key == "Escape") ==>
                effects == [] && currentPanel == old(currentPanel) &&
                isAnimating == old(isAnimating) && pendingAnimationEnds == old(pendingAnimationEnds)
    {
      effects := [];
      if !isOpen || key != "Escape" {
        return;
      }
      if currentPanel != MainPanel {
        GoBack();
      } else {
        effects := [CloseRequested];
      }
    }

    /** A top-level leaf link: closes and navigates when it has an href, does nothing otherwise. */
    method TopLevelLinkClick(item: MenuItem) returns (effects: seq<MenuEffect>)
      requires Valid() && item in items && !item.hasDropdown
      ensures item.href.Some? && item.href.value != "" ==> effects == [CloseRequested, NavigateTo(item.href.value)]
      ensures !(item.href.Some? && item.href.value != "") ==> effects == []
    {
      if item.href.Some? && item.href.value != "" {
        effects := LinkEffects(item.href.value);
      } else {
        effects := [];
      }
    }

    /** A submenu link: always closes the menu and navigates to the link's href. */
    method SubmenuLinkClick(link: MenuLink) returns (effects: seq<MenuEffect>)
      requires Valid()
      ensures effects == [CloseRequested, NavigateTo(link.href)]
    {
      effects := LinkEffects(link.href);
    }
  }

  /** Closing and reopening the menu always starts again on the main panel. */
  method CloseThenReopen(m: MobileMenu)
    requires m.Valid() && m.isOpen
    modifies m
    ensures m.Valid() && m.isOpen && m.currentPanel == MainPanel && !m.isAnimating
  {
    m.SetOpen(false);
    m.SetOpen(true);
  }

  /**
   * Drill down, let the animation end, press Escape: the listener still
   * holds the lock of the drill-down render, so Escape does nothing and the
   * submenu stays shown.
   */
  method EscapeAfterDrilldown(m: MobileMenu, item: MenuItem) returns (effects: seq<MenuEffect>)
    requires m.Valid() && m.isOpen && m.currentPanel == MainPanel && !m.isAnimating
    requires item in m.items && item.hasDropdown && PanelId(item) != MainPanel
    modifies m
    ensures m.Valid() && effects == []
    ensures m.currentPanel == PanelId(item) && !m.isAnimating
  {
    m.DrilldownClick(item);
    m.AnimationEnds();
    effects := m.KeyDown("Escape");
  }

  /** The same steps with the corrected listener go back to the main panel. */
  method EscapeAfterDrilldownFixed(m: MobileMenu, item: MenuItem) returns (effects: seq<MenuEffect>)
    requires m.Valid() && m.isOpen && m.currentPanel == MainPanel && !m.isAnimating
    requires item in m.items && item.hasDropdown && PanelId(item) != MainPanel
    modifies m
    ensures m.Valid() && effects == []
    ensures m.currentPanel == MainPanel && m.isAnimating
  {
    m.DrilldownClick(item);
    m.AnimationEnds();
    effects := m.KeyDownFixed("Escape");
  }

  /** The slug turns the Header's two dropdown labels into the panel ids `our-company` and `services`. */
  lemma HeaderPanelIds()
    ensures Slug("Our Company") == "our-company"
    ensures Slug("Services") == "services"
  {
    CompanyPanelId();
    ServicesPanelId();
  }

  lemma CompanyPanelId()
    ensures Slug("Our Company") == "our-company"
  {
    var our, company := "our", "company";
    forall i | 0 <= i < |our| ensures LowerChar("Our"[i]) == our[i] {
      if i == 0 { assert "Our"[0] == 'O'; } else { assert "Our"[i] == our[i]; }
    }
    LowerOf("Our", our);
    forall i | 0 <= i < |company| ensures LowerChar("Company"[i]) == company[i] {
      if i == 0 { assert "Company"[0] == 'C'; } else { assert "Company"[i] == company[i]; }
    }
    LowerOf("Company", company);
    SlugOfTwoWords("Our", "Company", our, company);
    CompanyWords();
  }

  /** The label and the panel id of "Our Company", word by word. */
  lemma CompanyWords()
    ensures "Our" + " " + "Company" == "Our Company"
    ensures "our" + "-" + "company" == "our-company"
  {
  }

  /** Two words joined by one space slug to their lowered forms joined by one dash. */
  lemma SlugOfTwoWords(a: string, b: string, la: string, lb: string)
    requires Lower(a) == la && Lower(b) == lb
    requires forall i :: 0 <= i < |la| ==> !IsSpace(la[i])
    requires forall i :: 0 <= i < |lb| ==> !IsSpace(lb[i])
    ensures Slug(a + " " + b) == la + "-" + lb
  {
    LowerConcat(a, " ");
    LowerConcat(a + " ", b);
    LowerOf(" ", " ");
    CollapseOneSpace(la, lb);
  }

  lemma ServicesPanelId()
    ensures Slug("Services") == "services"
  {
    var lowered := "services";
    forall i | 0 <= i < |lowered| ensures LowerChar("Services"[i]) == lowered[i] {
      if i == 0 { assert "Services"[0] == 'S'; }
      else { assert "Services"[i] == lowered[i]; }
    }
    LowerOf("Services", lowered);
    assert forall i :: 0 <= i < |lowered| ==> !IsSpace(lowered[i]);
  }

  /** Submenu panels whose ids differ are never shown together, and none is shown on the main panel unless its id is `main`. */
  lemma AtMostOnePanelShown(m: MobileMenu, a: MenuItem, b: MenuItem)
    requires m.SubmenuActive(a) && m.SubmenuActive(b)
    ensures PanelId(a) == PanelId(b)
    ensures m.currentPanel == MainPanel ==> PanelId(a) == MainPanel
  {
  }
}
