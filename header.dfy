/**
 * The Header of src/components/Navigation/Header.tsx: it owns the active
 * desktop dropdown, the mobile-menu flag, the scrolled flag, the single
 * pending hover-intent timer and the document body's `overflow` style, and
 * updates them from one event handler per DOM event. The 200 ms hover timer
 * is a pending label that an explicit `HoverTimerFires` event delivers.
 */
module Header {
  import opened Wrappers
  import opened Text
  import opened MenuItems

  function Link(title: string, description: string, href: string): MenuLink
  {
    MenuLink(title, Some(description), href)
  }

  /** The Header's own English item list, in source order. */
  const Items: seq<MenuItem> := [
    MenuItem("Home", Some("/"), false, None),
    MenuItem("Our Company", None, true, Some(CompanyDropdown)),
    MenuItem("Services", None, true, Some(ServicesDropdown)),
    MenuItem("Projects", Some("/projects"), false, None),
    MenuItem("E-learning", Some("/e-learning"), false, None),
    MenuItem("News", Some("/news"), false, None)
  ]

  const CompanyDropdown := Dropdown("Our Company", [
    MenuColumn("About Us", [
      Link("Company Overview", "Learn about our mission and values", "/ourcompany/overview"),
      Link("Our History", "Discover our journey and milestones", "/about/history"),
      Link("Leadership Team", "Meet our executive leadership", "/about/leadership")
    ]),
    MenuColumn("Our Team", [
      Link("Expert Consultants", "Meet our industry experts", "/team/consultants"),
      Link("Advisory Board", "Our strategic advisors", "/team/advisory"),
      Link("Global Network", "Worldwide expertise and presence", "/team/network")
    ]),
    MenuColumn("Our Vision", [
      Link("Mission Statement", "Our commitment to excellence", "/vision/mission"),
      Link("Strategic Goals", "Our roadmap for the future", "/vision/goals"),
      Link("Sustainability", "Environmental and social responsibility", "/vision/sustainability")
    ])
  ])

  const ServicesDropdown := Dropdown("Our Services", [
    MenuColumn("Services", [
      Link("Consulting services in the public sector",
           "Strategic advisory and consulting for public institutions", "/services/public-sector-consulting"),
      Link("Technology and information technology",
           "IT strategy, digital transformation, and technology solutions", "/services/technology"),
      Link("Investment project management",
           "End-to-end project oversight and delivery", "/services/investment-management"),
      Link("Strategic and operational planning",
           "Long-term strategic roadmap and operational optimization", "/services/strategic-planning")
    ]),
    MenuColumn("Services", [
      Link("Energy studies", "Comprehensive energy sector analysis and studies", "/services/energy-studies"),
      Link("Quality Management Systems",
           "ISO and quality system implementation and certification", "/services/quality-management"),
      Link("Feasibility Studies",
           "Thorough project viability and feasibility assessment", "/services/feasibility-studies"),
      Link("ESG Strategy & Implementation",
           "Environmental, Social, and Governance strategy and implementation", "/services/esg-strategy")
    ])
  ])

  /** The scroll offset above which the header takes its scrolled style. */
  const ScrollThreshold := 50
  /** The viewport width from which the desktop layout applies. */
  const DesktopBreakpoint := 1180

  /** `document.body.style.overflow` as the Header writes it. */
  datatype Overflow = Hidden | Unset

  /** The hover handler arms a timer only for an item that has a dropdown. */
  predicate OpensDropdown(name: string)
  {
    var item := FindItem(Items, name);
    item.Some? && item.value.hasDropdown
  }

  /** `handleDropdownToggle`: the same label closes its dropdown, any other label opens its own. */
  function ToggledDropdown(active: Option<string>, name: string): Option<string>
  {
    if active == Some(name) then None else Some(name)
  }

  /**
   * Toggling the same label twice restores the active dropdown when it was
   * closed or was that label; from another open label it ends closed.
   */
  lemma ToggleTwice(active: Option<string>, name: string)
    ensures active == None || active == Some(name) ==>
              ToggledDropdown(ToggledDropdown(active, name), name) == active
    ensures active.Some? && active != Some(name) ==>
              ToggledDropdown(ToggledDropdown(active, name), name) == None
  {
  }

  /** The body overflow the scroll-lock effect writes for a mobile-menu flag. */
  function OverflowFor(mobileOpen: bool): (o: Overflow)
    ensures o == Hidden <==> mobileOpen
  {
    if mobileOpen then Hidden else Unset
  }

  class HeaderState {
    var isMobileMenuOpen: bool
    var activeDropdown: Option<string>
    var isScrolled: bool
    /** `hoverTimeoutRef`: the label whose 200 ms hover-intent timer is still pending. */
    var hoverTimer: Option<string>
    /** `document.body.style.overflow` */
    var bodyOverflow: Overflow
    var mounted: bool

    ghost predicate Valid()
      reads this
    {
      && (mounted ==> bodyOverflow == OverflowFor(isMobileMenuOpen))
      && (!mounted ==> bodyOverflow == Unset && hoverTimer == None)
      && (hoverTimer.Some? ==> OpensDropdown(hoverTimer.value))
    }

    /** Mounting: the initial state, after the scroll-lock effect has written `unset`. */
    constructor ()
      ensures Valid() && mounted
      ensures !isMobileMenuOpen && activeDropdown == None && !isScrolled
      ensures hoverTimer == None && bodyOverflow == Unset
    {
      isMobileMenuOpen := false;
      activeDropdown := None;
      isScrolled := false;
      hoverTimer := None;
      bodyOverflow := Unset;
      mounted := true;
    }

    /** Mega menu `i` is rendered open iff the active dropdown is its label. */
    predicate MegaMenuOpen(i: nat)
      requires i < |Items|
      reads this
    {
      Items[i].hasDropdown && Items[i].dropdownContent.Some? && activeDropdown == Some(Items[i].name)
    }

    /**
     * `setIsMobileMenuOpen(b)` with the two effects keyed on it: when the
     * flag changes, the listener effect's cleanup clears the hover timer and
     * the scroll-lock effect writes the body overflow.
     */
    method SetMobileMenuOpen(b: bool)
      requires Valid() && mounted
      modifies this
      ensures Valid() && mounted
      ensures isMobileMenuOpen == b
      ensures hoverTimer == if b != old(isMobileMenuOpen) then None else old(hoverTimer)
      ensures activeDropdown == old(activeDropdown) && isScrolled == old(isScrolled)
    {
      if b != isMobileMenuOpen {
        isMobileMenuOpen := b;
        hoverTimer := None;
        bodyOverflow := OverflowFor(b);
      }
    }

    /** `handleScroll`: scrolled exactly when the offset is strictly above 50. */
    method Scroll(scrollY: int)
      requires Valid() && mounted
      modifies this
      ensures Valid() && mounted
      ensures isScrolled == (scrollY > ScrollThreshold)
      ensures isMobileMenuOpen == old(isMobileMenuOpen) && activeDropdown == old(activeDropdown)
      ensures hoverTimer == old(hoverTimer) && bodyOverflow == old(bodyOverflow)
    {
      isScrolled := scrollY > ScrollThreshold;
    }

    /** `handleResize`: reaching the desktop width with the mobile menu open closes it and the dropdown. */
    method Resize(innerWidth: int)
      requires Valid() && mounted
      modifies this
      ensures Valid() && mounted
      ensures innerWidth >= DesktopBreakpoint && old(isMobileMenuOpen) ==>
                !isMobileMenuOpen && activeDropdown == None && hoverTimer == None && bodyOverflow == Unset
      ensures !(innerWidth >= DesktopBreakpoint && old(isMobileMenuOpen)) ==>
                isMobileMenuOpen == old(isMobileMenuOpen) && activeDropdown == old(activeDropdown) &&
                hoverTimer == old(hoverTimer) && bodyOverflow == old(bodyOverflow)
      ensures isScrolled == old(isScrolled)
    {
      if innerWidth >= DesktopBreakpoint && isMobileMenuOpen {
        SetMobileMenuOpen(false);
        activeDropdown := None;
      }
    }

    /** `handleMobileMenuToggle`: flips the mobile menu and always clears the active dropdown. */
    method MobileMenuToggle()
      requires Valid() && mounted
      modifies this
      ensures Valid() && mounted
      ensures isMobileMenuOpen == !old(isMobileMenuOpen) && activeDropdown == None
      ensures hoverTimer == None && bodyOverflow == OverflowFor(isMobileMenuOpen)
      ensures isScrolled == old(isScrolled)
    {
      SetMobileMenuOpen(!isMobileMenuOpen);
      activeDropdown := None;
    }

    /** `handleMobileMenuClose`: the mobile menu closed and no dropdown active. */
    method MobileMenuClose()
      requires Valid() && mounted
      modifies this
      ensures Valid() && mounted
      ensures !isMobileMenuOpen && activeDropdown == None && bodyOverflow == Unset
      ensures hoverTimer == if old(isMobileMenuOpen) then None else old(hoverTimer)
      ensures isScrolled == old(isScrolled)
    {
      SetMobileMenuOpen(false);
      activeDropdown := None;
    }

    /** `handleDropdownToggle` */
    method DropdownToggle(name: string)
      requires Valid() && mounted
      modifies this`activeDropdown
      ensures Valid() && mounted
      ensures activeDropdown == ToggledDropdown(old(activeDropdown), name)
    {
      activeDropdown := ToggledDropdown(activeDropdown, name);
    }

    /** `handleDropdownClose`, the mega menus' `onClose`. */
    method DropdownClose()
      requires Valid() && mounted
      modifies this`activeDropdown
      ensures Valid() && mounted
      ensures activeDropdown == None
    {
      activeDropdown := None;
    }

    /**
     * `handleMouseLeave` on the header. The DOM queries arrive as their
     * outcomes: whether the mouse went into the mega menu, or into another
     * nav item.
     */
    method HeaderMouseLeave(intoMegaMenu: bool, intoNavItem: bool)
      requires Valid() && mounted
      modifies this`hoverTimer, this`activeDropdown
      ensures Valid() && mounted
      ensures intoMegaMenu || intoNavItem ==>
                hoverTimer == old(hoverTimer) && activeDropdown == old(activeDropdown)
      ensures !intoMegaMenu && !intoNavItem ==> hoverTimer == None && activeDropdown == None
    {
      if intoMegaMenu || intoNavItem {
        return;
      }
      hoverTimer := None;
      activeDropdown := None;
    }

    /** `handleDocumentMouseLeave`: leaving the page cancels the hover timer and closes the dropdown. */
    method DocumentMouseLeave()
      requires Valid() && mounted
      modifies this`hoverTimer, this`activeDropdown
      ensures Valid() && mounted
      ensures hoverTimer == None && activeDropdown == None
    {
      hoverTimer := None;
      activeDropdown := None;
    }

    /**
     * `handleNavItemMouseEnter`: cancel any pending hover timer; for an item
     * with a dropdown arm a new one for its label, otherwise close the
     * dropdown at once.
     */
    method NavItemMouseEnter(name: string)
      requires Valid() && mounted
      modifies this`hoverTimer, this`activeDropdown
      ensures Valid() && mounted
      ensures OpensDropdown(name) ==> hoverTimer == Some(name) && activeDropdown == old(activeDropdown)
      ensures !OpensDropdown(name) ==> hoverTimer == None && activeDropdown == None
    {
      hoverTimer := None;
      var item := FindItem(Items, name);
      if item.Some? && item.value.hasDropdown {
        hoverTimer := Some(name);
      } else {
        activeDropdown := None;
      }
    }

    /** The pending hover-intent timer elapses and opens its label's dropdown. */
    method HoverTimerFires()
      requires Valid() && mounted && hoverTimer.Some?
      modifies this`hoverTimer, this`activeDropdown
      ensures Valid() && mounted
      ensures activeDropdown == old(hoverTimer) && hoverTimer == None
    {
      activeDropdown := hoverTimer;
      hoverTimer := None;
    }

    /** `handleMegaMenuMouseEnter`: cancels the pending timer and keeps the active dropdown. */
    method MegaMenuMouseEnter()
      requires Valid() && mounted
      modifies this`hoverTimer
      ensures Valid() && mounted
      ensures hoverTimer == None
    {
      hoverTimer := None;
    }

    /** `handleNavItemMouseLeave` deliberately does nothing. */
    method NavItemMouseLeave()
      requires Valid() && mounted
      ensures Valid() && mounted
    {
    }

    /** Unmounting: the effects' cleanups clear the hover timer and write `unset`. */
    method Unmount()
      requires Valid() && mounted
      modifies this
      ensures Valid() && !mounted
      ensures bodyOverflow == Unset && hoverTimer == None
      ensures isMobileMenuOpen == old(isMobileMenuOpen) && activeDropdown == old(activeDropdown)
    {
      mounted := false;
      hoverTimer := None;
      bodyOverflow := Unset;
    }
  }

  /** Only the two dropdown items open a dropdown on hover. */
  lemma DropdownLabels(name: string)
    ensures OpensDropdown(name) <==> name == "Our Company" || name == "Services"
  {
    FindItemFirst(Items, name);
    if name == "Our Company" {
      assert Items[1].name == name;
    } else if name == "Services" {
      assert Items[2].name == name;
    } else if FindItem(Items, name).Some? {
      var i :| 0 <= i < |Items| && Items[i].name == name;
    }
  }

  /** The Header's labels are pairwise distinct. */
  lemma LabelsDistinct()
    ensures forall i, j :: 0 <= i < j < |Items| ==> Items[i].name != Items[j].name
  {
  }

  /** Since the labels are distinct, at most one mega menu is open at a time. */
  lemma AtMostOneMegaMenuOpen(h: HeaderState, i: nat, j: nat)
    requires i < |Items| && j < |Items|
    requires h.MegaMenuOpen(i) && h.MegaMenuOpen(j)
    ensures i == j
  {
    LabelsDistinct();
  }

  /**
   * Hover intent: entering A and then B before A's timer fires leaves only
   * B's timer pending, so A can no longer open; a timer that then fires
   * opens B.
   */
  method EnterAThenB(h: HeaderState, a: string, b: string)
    requires h.Valid() && h.mounted
    modifies h
    ensures h.Valid() && h.mounted
    ensures h.hoverTimer == (if OpensDropdown(b) then Some(b) else None)
  {
    h.NavItemMouseEnter(a);
    h.NavItemMouseEnter(b);
  }

  /**
   * The resize scenario: a mobile menu open at a narrow width with a
   * dropdown active closes, clears the dropdown and unlocks the body when
   * the viewport reaches 1280 px.
   */
  method ResizeToDesktop(h: HeaderState)
    requires h.Valid() && h.mounted && h.isMobileMenuOpen
    modifies h
    ensures h.Valid() && !h.isMobileMenuOpen && h.activeDropdown == None && h.bodyOverflow == Unset
  {
    h.Resize(1000);
    h.Resize(1280);
  }
}
