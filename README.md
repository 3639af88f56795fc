# Client-side navigation of a bilingual (Greek/English) site, in Dafny

This project models the navigation subsystem of a bilingual marketing web site
and proves properties of that model. The site serves Greek under bare paths and
English under an `/en` prefix. The subsystem has ten parts, one module each:

- **Language** (`language.dfy`): path rewriting. It detects the language from
  the `/en` prefix, adds or removes the prefix, switches a path between the two
  languages, and gives the per-language prefix.
- **NavigationData** (`navigation_data.dfy`): the constant bilingual navigation
  table, and its projection to localized labels, titles, descriptions and hrefs.
- **Header** (`header.dfy`): the header state machine. It holds the active
  desktop dropdown, the mobile-menu flag, the scrolled flag, the one pending
  200 ms hover-intent timer, and the body `overflow` style.
- **NavigationMenu** (`navigation_menu.dfy`): the mobile drill-down panel
  machine. It has a current panel and an animation lock, and it resets when
  the menu closes.
- **MegaMenu** (`mega_menu.dfy`): the desktop mega menu. It covers the close
  triggers, the Tab focus-wrap rule, the reset of the active column on open,
  the layout choice and the order in which columns and links render.
- **AriaStateManager** (`aria_state_manager.dfy`): the focus trap (record,
  trap, release), arrow/Home/End focus movement and the ARIA attribute writes.
- **NavigationStateManager** (`navigation_state_manager.dfy`): the overlay
  state machine. It has closed, opening and open states, a transition lock,
  a merged configuration and a map of CSS custom properties.
- **LifecycleManager** (`lifecycle_manager.dfy`): the tracker of listeners,
  observers, timers and animation frames, with its bulk `cleanup`.
- **SearchInterface** (`search_interface.dfy`): the case-insensitive suggestion
  filter, the debounce, and keyboard selection.
- **ErrorBoundary** (`error_boundary.dfy`): the classifier of navigation
  errors, the once-only fallback to basic navigation, and the fallback
  stylesheet.

`Text` (`text.dfy`) holds the string helpers: prefix and substring tests,
ASCII lowercasing and the whitespace-to-dash slug. `Wrappers` holds `Option`.

Every component that updates state in place is a class with one method per
event. Browser timers are explicit events. A pending timer is a field that is
armed and cancelled, and a `...Fires` method delivers the timer's callback.
Each side effect is one of two things:

- a value the method returns (a close request, a navigation target, a
  focus action);
- an entry appended to an effect log (each listener removal, observer
  disconnect, timer clear or frame cancel).

The following DOM query outcomes are method inputs:

- whether `relatedTarget` lies inside the mega menu;
- whether the focused element is inside the results;
- whether the recorded element is an HTMLElement;
- the list of focusable elements.

## Model

| member | source | states |
|---|---|---|
| Text.ContainsAt | src/components/Search/SearchInterface.tsx:108-113 | `Contains(s, sub)` holds iff `sub` occurs at some position of `s` (the meaning of `String.includes`) |
| Text.Lower | src/components/Search/SearchInterface.tsx:109-117 | lowercasing keeps the length, maps each character through ASCII `toLowerCase`, and leaves no upper-case letter |
| Text.LowerConcat | src/components/Search/SearchInterface.tsx:109-117 | lowercasing distributes over concatenation |
| Text.CollapseSpaces | src/components/Navigation/Header.tsx:409 | after `replace(/\s+/g, '-')` no whitespace remains, and a string without whitespace is unchanged |
| Text.DropSpacesRun | src/components/Navigation/Header.tsx:409 | a whitespace run is consumed up to the first character that is not whitespace |
| Text.CollapseRun | src/components/Navigation/Header.tsx:409 | a whitespace-free word followed by any non-empty whitespace run becomes the word and one dash, and the rest is collapsed the same way |
| Text.CollapseOneSpace | src/components/Navigation/Header.tsx:409 | two whitespace-free words joined by one space become the words joined by one dash |
| Text.Slug | src/components/Navigation/NavigationMenu.tsx:164-165 | a panel slug contains neither whitespace nor upper-case letters |
| Text.SlugOfLower | src/components/Navigation/NavigationMenu.tsx:164-165 | collapsing whitespace keeps a lower-case string lower-case |
| Text.DropSpacesIsSuffix | src/components/Navigation/Header.tsx:409 | skipping a run of whitespace leaves a suffix of the input |
| Language.GetLanguageFromPath | src/utils/language.ts:6-11 | the language is English exactly when the path starts with `/en` (so `/english` counts too), and Greek otherwise |
| Language.EnglishWordIsEnglish | src/utils/language.ts:6-11 | `/english` and `/en` are English; `/` and the empty path are Greek |
| Language.AddLanguageToPath | src/utils/language.ts:13-21 | Greek leaves the path unchanged; English prefixes `/en` to a rooted path and `/en/` to any other path, so an English result always starts with `/en/` |
| Language.RemoveLanguageFromPath | src/utils/language.ts:23-28 | a path starting with `/en` loses exactly those three characters; any other path is unchanged |
| Language.RemoveAfterAdd | src/utils/language.ts:13-28 | removing after adding English gives back a rooted path, and gives `/` + the path for an unrooted one |
| Language.AddIsPrefix | src/utils/language.ts:13-21 | for a rooted path, adding a language is the same as prepending `getLanguagePrefix`, which is `/en` for English and empty for Greek |
| Language.SwitchRoot | src/utils/language.ts:30-36 | `/` and `/en/` (stripped path `/`) switch to `/en` in English and to `/` in Greek |
| Language.SwitchOrdinaryPath | src/utils/language.ts:30-39 | a rooted path that is not `/` and has no `/en` prefix: English prefixes `/en`, Greek leaves it unchanged, Greek strips `/en` from the English form, and switching twice to one language equals switching once |
| Language.SwitchBareEnPrefix | src/utils/language.ts:30-39 | `/en` becomes `/en/` in English and the empty string in Greek, and English switching is not idempotent on it |
| Language.SwitchRootNotIdempotent | src/utils/language.ts:30-39 | switching `/` to English gives `/en`, and switching that to English again gives `/en/` |
| Language.SwitchLanguageFixed | src/utils/language.ts:30-39 | the corrected switch never returns the empty path; its English results start with `/en`; it agrees with the original whenever the stripped path is non-empty |
| Language.SwitchFixedIdempotentEn | src/utils/language.ts:30-39 | the corrected switch to English is idempotent on every path |
| Language.SwitchFixedBareEnPrefix | src/utils/language.ts:30-39 | the corrected switch maps `/en` to `/` in Greek and to `/en` in English, and maps `/` to `/en` in English |
| MenuItems.FindItem | src/components/Navigation/Header.tsx:290 | `navigationItems.find` returns an item of the list that has the requested label |
| MenuItems.FindItemFirst | src/components/Navigation/Header.tsx:290 | `find` succeeds iff some item has the label, and then it returns the first such item |
| NavigationData.ProjectEntries | src/utils/navigation.ts:200-239 | the projection keeps the number of entries and projects each entry in place |
| NavigationData.ProjectEntry | src/utils/navigation.ts:201-236 | each projected entry has its label from the chosen language, keeps `labelEl`, `labelEn`, `external` and `hasDropdown`, and has an href as its path, href or absence says; its dropdown has the same columns and items in the same order with localized titles and descriptions |
| NavigationData.ProjectColumns | src/utils/navigation.ts:217-234 | dropdown columns keep their count and order, and each is projected in place |
| NavigationData.ProjectSubItems | src/utils/navigation.ts:220-233 | column items keep their count and order, and each is projected in place |
| NavigationData.GetNavigationItems | src/utils/navigation.ts:200-239 | both languages give six items, item `i` being the projection of table entry `i` |
| NavigationData.SameShapeInBothLanguages | src/utils/navigation.ts:200-216 | the Greek and English item lists agree on length, both labels, `hasDropdown`, `external`, href presence and dropdown presence |
| NavigationData.TablePathsRooted | src/utils/navigation.ts:32-191 | every path in the table, on entries and on sub-items, starts with `/` |
| NavigationData.RootedByFirstChar | src/utils/navigation.ts:32-191 | a path whose first character is `/` is rooted |
| NavigationData.ColumnRootedByFirstChars | src/utils/navigation.ts:32-191 | a column whose item paths all begin with `/` is rooted |
| NavigationData.CreateUrlIsAddLanguage | src/utils/navigation.ts:193-198 | on a rooted path, `createUrl` agrees with `addLanguageToPath` in both languages |
| NavigationData.HrefsUseLanguageResolver | src/utils/navigation.ts:210-233 | every table entry with a path, and every sub-item, gets the href `addLanguageToPath(path, l)` |
| NavigationData.EntryHrefsUseLanguageResolver | src/utils/navigation.ts:210-233 | the same fact for any entry whose paths are rooted |
| NavigationData.HomeHref | src/utils/navigation.ts:33-37 | Home links to `/` in Greek and to `/en/` in English |
| NavigationData.ELearningIsExternal | src/utils/navigation.ts:180-185 | in both languages, E-learning keeps its absolute href and is marked external |
| NavigationData.DropdownParents | src/utils/navigation.ts:38-41 | an item has dropdown content iff it has `hasDropdown: true`, which holds exactly for the second and third entries; such items get no href |
| Header.OverflowFor | src/components/Navigation/Header.tsx:241-252 | the body overflow is `hidden` exactly when the mobile menu is open |
| Header.ToggleTwice | src/components/Navigation/Header.tsx:254-256 | toggling one label twice restores the active dropdown when it was none or that label, and otherwise leaves none |
| Header.HeaderState.constructor | src/components/Navigation/Header.tsx:38-40 | a new header has the mobile menu closed, no active dropdown, not scrolled, no pending timer |
| Header.HeaderState.SetMobileMenuOpen | src/components/Navigation/Header.tsx:219-252 | setting the mobile flag re-runs both effects: a change cancels the pending hover timer, and the overflow follows the new flag |
| Header.HeaderState.Scroll | src/components/Navigation/Header.tsx:194-197 | scrolled is set iff `scrollY > 50` (strict), and nothing else changes |
| Header.HeaderState.Resize | src/components/Navigation/Header.tsx:208-213 | a width of at least 1180 with the mobile menu open closes it, clears the dropdown, cancels the timer and unsets the overflow; any other resize changes nothing |
| Header.HeaderState.MobileMenuToggle | src/components/Navigation/Header.tsx:230-233 | the mobile flag flips, the active dropdown clears, the overflow follows the new flag |
| Header.HeaderState.MobileMenuClose | src/components/Navigation/Header.tsx:235-238 | the mobile menu closes, the dropdown clears, the overflow is `unset` |
| Header.HeaderState.DropdownToggle | src/components/Navigation/Header.tsx:254-256 | the active dropdown becomes none if it was this label, and this label otherwise |
| Header.HeaderState.DropdownClose | src/components/Navigation/Header.tsx:258-260 | the active dropdown becomes none |
| Header.HeaderState.HeaderMouseLeave | src/components/Navigation/Header.tsx:262-282 | leaving into the mega menu or a nav item changes nothing; any other leave cancels the timer and clears the dropdown |
| Header.HeaderState.DocumentMouseLeave | src/components/Navigation/Header.tsx:200-205 | leaving the document always cancels the timer and clears the dropdown |
| Header.HeaderState.NavItemMouseEnter | src/components/Navigation/Header.tsx:284-302 | entering a dropdown item replaces any pending timer with one for that label, without touching the active dropdown; entering any other item cancels the timer and clears the dropdown |
| Header.HeaderState.HoverTimerFires | src/components/Navigation/Header.tsx:295-297 | the pending timer opens the dropdown of the label it carries |
| Header.HeaderState.MegaMenuMouseEnter | src/components/Navigation/Header.tsx:304-309 | entering the mega menu cancels the pending timer |
| Header.HeaderState.NavItemMouseLeave | src/components/Navigation/Header.tsx:311-314 | leaving a nav item keeps the header valid |
| Header.HeaderState.Unmount | src/components/Navigation/Header.tsx:219-251 | unmounting unsets the overflow and cancels the timer |
| Header.DropdownLabels | src/components/Navigation/Header.tsx:46-191 | the labels that open a dropdown are exactly "Our Company" and "Services" |
| Header.LabelsDistinct | src/components/Navigation/Header.tsx:46-191 | the header's item labels are pairwise distinct |
| Header.AtMostOneMegaMenuOpen | src/components/Navigation/Header.tsx:400-412 | mega menu `i` is open iff the active dropdown is its label, so two open mega menus are the same one |
| Header.EnterAThenB | src/components/Navigation/Header.tsx:284-302 | after entering A and then B, the only pending open is B's, and only when B has a dropdown |
| Header.ResizeToDesktop | src/components/Navigation/Header.tsx:208-213 | resizing to 1180 closes an open mobile menu, clears the dropdown and unsets the overflow |
| NavigationMenu.MobileMenu.constructor | src/components/Navigation/NavigationMenu.tsx:36-37 | the menu starts on the main panel, not animating |
| NavigationMenu.MobileMenu.SubmenuLinkTabIndex | src/components/Navigation/NavigationMenu.tsx:164-165 | a submenu link has tabIndex 0 iff its panel is the current one, and -1 otherwise |
| NavigationMenu.MobileMenu.SetOpen | src/components/Navigation/NavigationMenu.tsx:61-66 | closing resets the panel to main and clears the animation flag; opening keeps both; the parent's render refreshes the Escape listener's captured lock |
| NavigationMenu.MobileMenu.DrilldownClick | src/components/Navigation/NavigationMenu.tsx:68-79 | a drill-down while animating is ignored; otherwise the panel becomes the item's slug and an animation end is scheduled, and the Escape listener captures the set lock when the panel changed |
| NavigationMenu.MobileMenu.GoBack | src/components/Navigation/NavigationMenu.tsx:81-91 | going back while animating is ignored; otherwise the panel becomes main and an animation end is scheduled, and the Escape listener captures the set lock when the panel changed |
| NavigationMenu.MobileMenu.AnimationEnds | src/components/Navigation/NavigationMenu.tsx:76-78 | an animation end clears the lock and never changes the panel |
| NavigationMenu.MobileMenu.ParentRenders | src/components/Navigation/NavigationMenu.tsx:40-58 | a parent render passes a new `onClose`, so the Escape listener is re-created and captures the current animation lock |
| NavigationMenu.MobileMenu.ShowPanel | src/components/Navigation/NavigationMenu.tsx:71-78 | a panel change shows the new panel, sets the lock and schedules its end; the listener captures the lock only if the panel actually changed |
| NavigationMenu.MobileMenu.KeyDown | src/components/Navigation/NavigationMenu.tsx:40-58 | Escape while open asks to close on the main panel; on a submenu it goes back unless the lock the listener captured is set, whatever the current lock; any other key, or any key while closed, changes nothing |
| NavigationMenu.MobileMenu.KeyDownFixed | src/components/Navigation/NavigationMenu.tsx:40-58 | with the lock among the effect's dependencies, Escape on a submenu goes back exactly when the current lock is clear |
| NavigationMenu.EscapeAfterDrilldown | src/components/Navigation/NavigationMenu.tsx:40-79 | drilling down, letting the animation end and pressing Escape leaves the submenu shown and requests nothing |
| NavigationMenu.EscapeAfterDrilldownFixed | src/components/Navigation/NavigationMenu.tsx:40-79 | with the corrected listener the same steps go back to the main panel |
| NavigationMenu.MobileMenu.TopLevelLinkClick | src/components/Navigation/NavigationMenu.tsx:146-149 | a top-level leaf with a non-empty href closes and then navigates there; one without an href does nothing |
| NavigationMenu.MobileMenu.SubmenuLinkClick | src/components/Navigation/NavigationMenu.tsx:201-204 | a submenu link closes and then navigates to its href |
| NavigationMenu.CloseThenReopen | src/components/Navigation/NavigationMenu.tsx:61-66 | after closing and reopening, the menu is on the main panel and not animating |
| NavigationMenu.CompanyPanelId | src/components/Navigation/NavigationMenu.tsx:164-165 | the panel of "Our Company" is `our-company` |
| NavigationMenu.ServicesPanelId | src/components/Navigation/NavigationMenu.tsx:164-165 | the panel of "Services" is `services` |
| NavigationMenu.HeaderPanelIds | src/components/Navigation/NavigationMenu.tsx:164-165 | the two dropdown items of the header get the panels `our-company` and `services` |
| NavigationMenu.AtMostOnePanelShown | src/components/Navigation/NavigationMenu.tsx:161-216 | two active submenus share one panel id, and none is active on the main panel unless its slug is `main` |
| MegaMenu.TabWrap | src/components/Navigation/MegaMenu.tsx:84-101 | a focus override names an index within the focusables; there is none with no focusables or with focus outside them |
| MegaMenu.TabWrapOnlyAtTheEnds | src/components/Navigation/MegaMenu.tsx:84-101 | Tab wraps iff focus is on the last element, and Shift+Tab wraps iff focus is on the first; every other case keeps the default order |
| MegaMenu.TabCyclesWithin | src/components/Navigation/MegaMenu.tsx:84-101 | with the browser's default order included, Tab moves to `(i+1) mod n` and Shift+Tab to `(i-1) mod n`, always inside the menu |
| MegaMenu.LayoutFor | src/components/Navigation/MegaMenu.tsx:151-153 | the services grid is chosen iff the class name contains `services` |
| MegaMenu.ServicesClassSelectsGrid | src/components/Navigation/MegaMenu.tsx:151-153 | the class the header gives the Services menu selects the grid |
| MegaMenu.ColumnLinks | src/components/Navigation/MegaMenu.tsx:151-234 | a column renders each of its links once, in order, tagged with column and position |
| MegaMenu.Render | src/components/Navigation/MegaMenu.tsx:236-263 | a menu renders iff it is open; the column tabs never render; the layout follows the class name; every column title renders, at its column's position, and the links are every column's items in source order (see LinksInOrder) |
| MegaMenu.LinksInOrder | src/components/Navigation/MegaMenu.tsx:151-234 | link `k` of column `c` is rendered at the position after all links of earlier columns, so links render column by column in source order |
| MegaMenu.LinksLength | src/components/Navigation/MegaMenu.tsx:151-234 | the number of rendered links is the total number of column items |
| MegaMenu.CountMonotone | src/components/Navigation/MegaMenu.tsx:151-234 | the link count from a later column is at most the count from an earlier one |
| MegaMenu.LayoutsRenderSameLinks | src/components/Navigation/MegaMenu.tsx:151-234 | both layouts render the same links and column titles |
| MegaMenu.MegaMenuState.constructor | src/components/Navigation/MegaMenu.tsx:34 | a new menu shows column 0, has no close timer, and installs document listeners iff open |
| MegaMenu.MegaMenuState.SetOpen | src/components/Navigation/MegaMenu.tsx:72-141 | opening resets the active column to 0; closing removes the listeners and clears the close timer; document listeners exist exactly while open |
| MegaMenu.MegaMenuState.HandleClose | src/components/Navigation/MegaMenu.tsx:44-49 | closing clears the close timer and asks the parent to close |
| MegaMenu.MegaMenuState.DocumentKeyDown | src/components/Navigation/MegaMenu.tsx:81-103 | Escape while open asks to close; Tab while open applies the wrap rule; nothing happens while closed |
| MegaMenu.MegaMenuState.DocumentMouseDown | src/components/Navigation/MegaMenu.tsx:75-79 | a mousedown asks to close iff the menu is open and the target is outside it |
| MegaMenu.MegaMenuState.DocumentMouseLeave | src/components/Navigation/MegaMenu.tsx:105-110 | leaving the document asks to close iff the menu is open and there is no related target |
| MegaMenu.MegaMenuState.MenuMouseLeave | src/components/Navigation/MegaMenu.tsx:52-58 | leaving the menu element always asks to close |
| MegaMenu.MegaMenuState.OverlayClick | src/components/Navigation/MegaMenu.tsx:248 | a click on the overlay asks to close |
| MegaMenu.MegaMenuState.CancelDelayedClose | src/components/Navigation/MegaMenu.tsx:61-69 | the close timer is cleared, and the parent is notified exactly when it supplied `onMouseEnter` |
| AriaStateManager.IndexOf | src/components/Navigation/AriaStateManager.ts:129-141 | `indexOf` gives the first position holding the focused element, and -1 exactly when none does |
| AriaStateManager.NextTarget | src/components/Navigation/AriaStateManager.ts:129-133 | next focus exists iff the list is non-empty; it is `i+1`, wrapping from the last to the first, and focus outside the list (-1) goes to the first |
| AriaStateManager.PrevTarget | src/components/Navigation/AriaStateManager.ts:135-141 | previous focus exists iff the current element is in the list; it is `i-1`, wrapping from the first to the last; outside the list nothing is focused |
| AriaStateManager.NextPrevInverse | src/components/Navigation/AriaStateManager.ts:129-141 | on a listed element, previous undoes next and next undoes previous |
| AriaStateManager.Without | src/components/Navigation/AriaStateManager.ts:71-88 | removing handlers keeps exactly the listeners whose id is not removed |
| AriaStateManager.WithoutNothing | src/components/Navigation/AriaStateManager.ts:71-88 | removing no handler keeps every listener |
| AriaStateManager.WithoutUnion | src/components/Navigation/AriaStateManager.ts:71-88 | removing two sets of handlers one after the other is removing their union |
| AriaStateManager.KeepsOtherListener | src/components/Navigation/AriaStateManager.ts:71-88 | removing one of two handlers keeps the other |
| AriaStateManager.TrapStep | src/components/Navigation/AriaStateManager.ts:52-66 | a trap listener moves focus only on Tab in its container: Shift+Tab from the first goes to the last, and Tab from the last goes to the first |
| AriaStateManager.FireTrapsOnlyTab | src/components/Navigation/AriaStateManager.ts:52-66 | a key other than Tab, or a container with no trap, leaves focus where it is |
| AriaStateManager.BoolString | src/components/Navigation/AriaStateManager.ts:15-32 | an attribute value is `"true"` iff the flag holds, and `"false"` otherwise |
| AriaStateManager.AriaState.constructor | src/components/Navigation/AriaStateManager.ts:8-13 | a new manager has no recorded element, no trap list, no listeners and no attributes written |
| AriaStateManager.AriaState.IsMenuOpen | src/components/Navigation/AriaStateManager.ts:124-127 | the menu counts as open exactly when it exists and its `aria-hidden` currently reads `"false"` |
| AriaStateManager.AriaState.TrapFocus | src/components/Navigation/AriaStateManager.ts:34-69 | with no focusables nothing changes; otherwise it stores the list, records the focused element, focuses the first element and adds one trap listener for the container |
| AriaStateManager.AriaState.ReleaseFocus | src/components/Navigation/AriaStateManager.ts:71-88 | it removes the stored handler of every listed menu, refocuses the recorded element if it is an HTMLElement, and clears the list and the record |
| AriaStateManager.AriaState.ContainerKeyDown | src/components/Navigation/AriaStateManager.ts:52-66 | a keydown runs every installed trap listener in order |
| AriaStateManager.AriaState.DocumentKeyDown | src/components/Navigation/AriaStateManager.ts:90-122 | arrows, Home and End move focus only while the menu is open, to the next, previous, first or last element; Escape clicks the hamburger whenever it exists |
| AriaStateManager.AriaState.UpdateNavigationState | src/components/Navigation/AriaStateManager.ts:15-32 | the trigger's `aria-expanded` and the menu's `aria-hidden` follow the flag, each only if present; other attributes are kept; with a menu, opening with focusables records the focus, focuses the first element, adds one trap listener for the menu and stores its id, opening with no focusables changes no focus or listener, and closing removes the stored handler of every listed menu and restores the recorded focus; without a menu no focus or listener changes |
| AriaStateManager.AriaState.ExternalSetAttribute | src/components/Navigation/NavigationMenu.tsx:100-108 | an attribute written by the menu component's own render replaces only that attribute; writing `aria-hidden="false"` makes `isMenuOpen` true and any other value makes it false |
| AriaStateManager.AriaState.UpdateDropdownState | src/components/Navigation/AriaStateManager.ts:164-176 | the panel gets `aria-expanded` and the negated `aria-hidden`, and the trigger gets `aria-expanded`, each only if present; no other element's attributes change |
| AriaStateManager.TrapThenRelease | src/components/Navigation/AriaStateManager.ts:34-88 | trapping and then releasing restores the prior focus and forgets the menu's handler |
| AriaStateManager.TrapTwiceThenRelease | src/components/Navigation/AriaStateManager.ts:34-88 | trapping one menu twice and releasing it leaves the first listener installed, because only the last handler is remembered |
| NavigationStateManager.MergeOverrides | src/components/Navigation/NavigationStateManager.ts:36-50 | each supplied config field replaces the default, and absent fields keep it; merging nothing is the identity, and merging twice is merging once |
| NavigationStateManager.Digit | src/components/Navigation/NavigationStateManager.ts:52-67 | a decimal digit character stands for its value |
| NavigationStateManager.NatToDecimal | src/components/Navigation/NavigationStateManager.ts:52-67 | a duration prints as a non-empty string of digits without leading zeros |
| NavigationStateManager.DecimalRoundTrip | src/components/Navigation/NavigationStateManager.ts:52-67 | reading back the printed digits gives the duration |
| NavigationStateManager.Millis | src/components/Navigation/NavigationStateManager.ts:52-67 | `duration + "ms"` ends in `ms` after digits that read back as the duration |
| NavigationStateManager.SetAll | src/components/Navigation/NavigationStateManager.ts:92-114 | writing CSS properties keeps every property already present |
| NavigationStateManager.SetAllShows | src/components/Navigation/NavigationStateManager.ts:92-114 | a written property holds the value written last for it |
| NavigationStateManager.SetAllKeeps | src/components/Navigation/NavigationStateManager.ts:92-114 | a property not written keeps its value |
| NavigationStateManager.StatePropertiesWritten | src/components/Navigation/NavigationStateManager.ts:92-114 | `open` writes the five open values and `closed` the five closed values; any other state writes nothing; properties outside the five are kept |
| NavigationStateManager.OpenShown | src/components/Navigation/NavigationStateManager.ts:92-114 | after writing the `open` state, the five open values show |
| NavigationStateManager.InitialIsClosed | src/components/Navigation/NavigationStateManager.ts:52-67 | the initial CSS shows the closed values, the duration in `ms`, and the menu easing |
| NavigationStateManager.StateManager.constructor | src/components/Navigation/NavigationStateManager.ts:32-50 | a new manager is closed and unlocked; its config is the merge of the defaults and the supplied fields; its CSS is initialized only when a document exists |
| NavigationStateManager.StateManager.IsOpen | src/components/Navigation/NavigationStateManager.ts:120-122 | open iff the current state is `open` |
| NavigationStateManager.StateManager.IsTransitioning | src/components/Navigation/NavigationStateManager.ts:124-126 | transitioning iff the lock is held |
| NavigationStateManager.StateManager.TransitionTo | src/components/Navigation/NavigationStateManager.ts:69-90 | a transition starts iff the lock is free and the target differs; starting takes the lock, sets the state to `opening` whatever the target, and writes the target's CSS; otherwise nothing changes |
| NavigationStateManager.StateManager.CompleteTransition | src/components/Navigation/NavigationStateManager.ts:82-88 | completion sets the state to the target and releases the lock |
| NavigationStateManager.StateManager.Toggle | src/components/Navigation/NavigationStateManager.ts:128-132 | toggling targets `closed` when open and `open` otherwise, under the same lock rule |
| NavigationStateManager.StateManager.OpenMenu | src/components/Navigation/NavigationStateManager.ts:138-140 | `open` is the transition to `open`, and it is a no-op when already open or locked |
| NavigationStateManager.StateManager.CloseMenu | src/components/Navigation/NavigationStateManager.ts:134-136 | `close` is the transition to `closed`, and it is a no-op when already closed or locked |
| NavigationStateManager.ToggleMidTransition | src/components/Navigation/NavigationStateManager.ts:69-74 | a toggle during a transition is swallowed by the lock |
| NavigationStateManager.OpenFromClosed | src/components/Navigation/NavigationStateManager.ts:69-140 | open and then completion leave the overlay open, unlocked and showing the open CSS |
| LifecycleManager.TailDistinct | src/components/Performance/NavigationLifecycleManager.ts:7-12 | the rest of a listener map with distinct keys has distinct keys and lacks the first key |
| LifecycleManager.ConsDistinct | src/components/Performance/NavigationLifecycleManager.ts:7-12 | prepending a new key keeps the keys distinct |
| LifecycleManager.Lookup | src/components/Performance/NavigationLifecycleManager.ts:7-12 | an element's list is found iff the element is a key, and it is that key's list |
| LifecycleManager.AddRecord | src/components/Performance/NavigationLifecycleManager.ts:17-30 | adding appends one record to the element's list, creating the list if absent; other elements' lists are unchanged |
| LifecycleManager.RemoveKey | src/components/Performance/NavigationLifecycleManager.ts:68-76 | deleting an element forgets its list and keeps every other list |
| LifecycleManager.Insert | src/components/Performance/NavigationLifecycleManager.ts:32-42 | set insertion adds exactly the id, and re-adding is a no-op |
| LifecycleManager.Delete | src/components/Performance/NavigationLifecycleManager.ts:78-86 | set deletion removes exactly the id, and an absent id is a no-op |
| LifecycleManager.Detach | src/components/Performance/NavigationLifecycleManager.ts:68-76 | detaching an element removes each of its records once, in order |
| LifecycleManager.Disconnects | src/components/Performance/NavigationLifecycleManager.ts:56-57 | cleanup disconnects each observer once, in order |
| LifecycleManager.ClearTimeouts | src/components/Performance/NavigationLifecycleManager.ts:59-60 | cleanup clears each timer once, in order |
| LifecycleManager.CancelFrames | src/components/Performance/NavigationLifecycleManager.ts:62-63 | cleanup cancels each frame once, in order |
| LifecycleManager.DetachAllComplete | src/components/Performance/NavigationLifecycleManager.ts:44-54 | cleanup removes every recorded listener, and removes only recorded listeners, one removal per record |
| LifecycleManager.CleanupEffectCount | src/components/Performance/NavigationLifecycleManager.ts:44-66 | cleanup performs one effect per record, observer, timer and frame, and none when all are empty |
| LifecycleManager.Tracker.constructor | src/components/Performance/NavigationLifecycleManager.ts:7-15 | a new tracker tracks nothing |
| LifecycleManager.Tracker.AddEventListener | src/components/Performance/NavigationLifecycleManager.ts:17-30 | registering attaches the listener and appends its record to the element's list |
| LifecycleManager.Tracker.AddObserver | src/components/Performance/NavigationLifecycleManager.ts:32-34 | the observer is inserted into its set |
| LifecycleManager.Tracker.AddTimer | src/components/Performance/NavigationLifecycleManager.ts:36-38 | the timer is inserted into its set |
| LifecycleManager.Tracker.AddAnimationFrame | src/components/Performance/NavigationLifecycleManager.ts:40-42 | the frame is inserted into its set |
| LifecycleManager.Tracker.Cleanup | src/components/Performance/NavigationLifecycleManager.ts:44-66 | cleanup performs the detach, disconnect, clear and cancel effects of everything tracked, and leaves all four collections empty |
| LifecycleManager.Tracker.DetachListeners | src/components/Performance/NavigationLifecycleManager.ts:45-54 | the listener loop logs one removal per record |
| LifecycleManager.Tracker.DisconnectObservers | src/components/Performance/NavigationLifecycleManager.ts:56-57 | the observer loop logs one disconnect per observer |
| LifecycleManager.Tracker.ClearTimers | src/components/Performance/NavigationLifecycleManager.ts:59-60 | the timer loop logs one clear per timer |
| LifecycleManager.Tracker.CancelAnimationFrames | src/components/Performance/NavigationLifecycleManager.ts:62-63 | the frame loop logs one cancel per frame |
| LifecycleManager.Tracker.RemoveElementListeners | src/components/Performance/NavigationLifecycleManager.ts:68-76 | an unknown element is a no-op; a known one has exactly its records detached and its list forgotten |
| LifecycleManager.Tracker.RemoveTimer | src/components/Performance/NavigationLifecycleManager.ts:78-81 | the timer is cleared even if untracked, and only that id leaves the set |
| LifecycleManager.Tracker.RemoveAnimationFrame | src/components/Performance/NavigationLifecycleManager.ts:83-86 | the frame is cancelled even if untracked, and only that id leaves the set |
| LifecycleManager.CleanupTwice | src/components/Performance/NavigationLifecycleManager.ts:44-66 | a second cleanup performs no further effect |
| SearchInterface.SourceOf | src/components/Search/SearchInterface.tsx:36-75 | the source is the supplied list when it is non-empty, and otherwise the six defaults |
| SearchInterface.Filter | src/components/Search/SearchInterface.tsx:109-117 | every result is a source suggestion that matches the query |
| SearchInterface.FilterComplete | src/components/Search/SearchInterface.tsx:109-117 | every matching source suggestion is a result |
| SearchInterface.FilterKeepsOrder | src/components/Search/SearchInterface.tsx:109-117 | the results are a subsequence of the source, in source order |
| SearchInterface.LowerTwice | src/components/Search/SearchInterface.tsx:109-117 | lowercasing is idempotent |
| SearchInterface.FilterIgnoresCase | src/components/Search/SearchInterface.tsx:109-117 | filtering by a query equals filtering by its lower-case form |
| SearchInterface.ArrowDown | src/components/Search/SearchInterface.tsx:142-147 | ArrowDown steps to the next index, and wraps to 0 from the last |
| SearchInterface.ArrowUp | src/components/Search/SearchInterface.tsx:148-153 | ArrowUp steps to the previous index, and wraps to the last from 0 or -1 |
| SearchInterface.ArrowsStayInRange | src/components/Search/SearchInterface.tsx:142-153 | with at least one result, both arrows land on a valid index |
| SearchInterface.ArrowsInverse | src/components/Search/SearchInterface.tsx:142-153 | on a valid index, ArrowUp undoes ArrowDown and ArrowDown undoes ArrowUp |
| SearchInterface.ArrowsOnNoResults | src/components/Search/SearchInterface.tsx:142-153 | with no results, ArrowDown gives 0 and ArrowUp gives -1, neither a real entry |
| SearchInterface.SearchState.constructor | src/components/Search/SearchInterface.tsx:24-28 | a new search is collapsed with an empty query, no results, no selection, not loading |
| SearchInterface.SearchState.ResultsShown | src/components/Search/SearchInterface.tsx:230 | results show only while expanded |
| SearchInterface.SearchState.SetQuery | src/components/Search/SearchInterface.tsx:86-107 | an unchanged query changes nothing; an empty one clears results and selection at once; a non-empty one sets loading and arms the debounce for that query |
| SearchInterface.SearchState.DebounceFires | src/components/Search/SearchInterface.tsx:94-101 | the debounce replaces the results with the filter of the query, resets the selection and clears loading |
| SearchInterface.SearchState.Focus | src/components/Search/SearchInterface.tsx:123-128 | focus expands the search |
| SearchInterface.SearchState.Blur | src/components/Search/SearchInterface.tsx:130-138 | blur schedules one deferred check |
| SearchInterface.SearchState.BlurFires | src/components/Search/SearchInterface.tsx:131-137 | the deferred check collapses and clears the selection unless focus went into the results |
| SearchInterface.SearchState.SuggestionClick | src/components/Search/SearchInterface.tsx:171-175 | a click navigates to the suggestion's href, collapses and clears the query |
| SearchInterface.SearchState.HoverSuggestion | src/components/Search/SearchInterface.tsx:253 | hovering selects that suggestion |
| SearchInterface.SearchState.Submit | src/components/Search/SearchInterface.tsx:177-188 | submitting an empty query does nothing; a non-empty query collapses |
| SearchInterface.SearchState.KeyDown | src/components/Search/SearchInterface.tsx:140-169 | arrows move the selection; Enter navigates iff the selection is a real entry, and otherwise submits; Escape collapses, clears and blurs; other keys change nothing |
| SearchInterface.ClearWhileLoading | src/components/Search/SearchInterface.tsx:86-93 | clearing the query during a pending search leaves loading set with nothing shown |
| SearchInterface.TypeAndWait | src/components/Search/SearchInterface.tsx:86-117 | typing a query and letting the debounce fire shows exactly the matching source suggestions |
| ErrorBoundary.ErrorMessage | src/components/Error/NavigationErrorBoundary.ts:39 | the message is the error's message if truthy, else the event's if truthy, else empty |
| ErrorBoundary.ErrorStack | src/components/Error/NavigationErrorBoundary.ts:40 | a non-empty stack is the error object's stack |
| ErrorBoundary.EmptyEventIsNotNavigation | src/components/Error/NavigationErrorBoundary.ts:38-50 | an event with no message, stack or filename is not a navigation error |
| ErrorBoundary.NothingInEmpty | src/components/Error/NavigationErrorBoundary.ts:38-50 | the empty string contains no non-empty keyword |
| ErrorBoundary.ErrorMessageWins | src/components/Error/NavigationErrorBoundary.ts:38-50 | when the error object has a message, the event's own message is ignored |
| ErrorBoundary.ObjectReasonAsEvent | src/components/Error/NavigationErrorBoundary.ts:57-60 | a rejection with a message is classified as an event carrying only that error |
| ErrorBoundary.HamburgerOnlyInErrors | src/components/Error/NavigationErrorBoundary.ts:52-61 | a string reason mentioning only `hamburger` is not navigation, but an error object with that message is |
| ErrorBoundary.StackIsCaseSensitive | src/components/Error/NavigationErrorBoundary.ts:38-50 | a stack mentioning `Navigation` classifies the error as navigation |
| ErrorBoundary.FallbackClasses | src/components/Error/NavigationErrorBoundary.ts:162-178 | each missing capability adds its own root class, present capabilities add none, and no other class is added |
| ErrorBoundary.OneClassPerMissingCapability | src/components/Error/NavigationErrorBoundary.ts:162-178 | the number of classes added is the number of missing capabilities |
| ErrorBoundary.Boundary.constructor | src/components/Error/NavigationErrorBoundary.ts:6-20 | a new boundary is inactive and has no fallback style; it applies the capability classes, announces nothing, and attaches two window listeners |
| ErrorBoundary.Boundary.ApplyCapabilityFallbacks | src/components/Error/NavigationErrorBoundary.ts:162-178 | the root gains the fallback classes |
| ErrorBoundary.Boundary.InjectFallbackStyles | src/components/Error/NavigationErrorBoundary.ts:80-118 | a style element exists afterwards, and a second injection adds none |
| ErrorBoundary.Boundary.FallbackToBasicNavigation | src/components/Error/NavigationErrorBoundary.ts:63-78 | the first call marks every navigation container, injects the styles and announces once; later calls change nothing |
| ErrorBoundary.Boundary.HandleError | src/components/Error/NavigationErrorBoundary.ts:22-28 | an error is handled iff it is a navigation error; handling activates the fallback; an unhandled error changes nothing |
| ErrorBoundary.Boundary.HandlePromiseRejection | src/components/Error/NavigationErrorBoundary.ts:30-36 | a rejection is handled iff it is a navigation rejection; handling activates the fallback; an unhandled one changes nothing |
| ErrorBoundary.Boundary.Cleanup | src/components/Error/NavigationErrorBoundary.ts:196-206 | cleanup removes the fallback style and leaves the window listeners attached |
| ErrorBoundary.ErrorAfterCleanup | src/components/Error/NavigationErrorBoundary.ts:22-28 | after cleanup, a further navigation error does not re-inject the styles, because the fallback is already active |

## Left out

- Wall-clock time: every `setTimeout` is an explicit event that the caller delivers. This covers the 200 ms hover intent, the 300/120 ms drill-down animation, the 300 ms debounce, the 150 ms blur, the transition duration and the announcement timeouts. Ordering by delay between timers is not modelled.
- NavigationMenu.MobileMenu.AnimationEnds: the model counts pending animation ends; the source runs them as independent timers and does not cancel a stale one when the menu closes.
- DOM queries (`querySelector`, `contains`, `closest`, `relatedTarget`, `instanceof HTMLElement`, the focusable selector) are inputs to the methods. Elements are plain identifiers.
- Text.Lower: lowercases ASCII `A`-`Z` only, and whitespace is ASCII whitespace only; every label in the tables is ASCII.
- NavigationStateManager.MergeConfig: an explicitly supplied `undefined` field and non-integer durations are not modelled; a duration is an unbounded natural number, so the CSS text the source prints in exponent form for durations of 1e21 ms or more, and the inexact values above 2^53, are not modelled.
- AriaStateManager.AriaState.IsMenuOpen: reports whatever `aria-hidden` was last written to the menu, by `UpdateNavigationState` or by `ExternalSetAttribute`; the model does not tie one manager instance to the mobile menu's own state, since the only manager the components create (src/components/Search/SearchInterface.tsx:78) never calls `updateNavigationState`.
- ErrorBoundary.Boundary.constructor: only a boundary built in a browser is modelled; without a document the source's constructor throws in capability detection (src/components/Error/NavigationErrorBoundary.ts:12), so the window guards of setup and cleanup are not modelled.
- NavigationStateManager.StateManager.TransitionTo: the transition timer is the separate `CompleteTransition` event; the returned Promise is not modelled.
- ErrorBoundary.ErrorStack: states only where a non-empty stack comes from; a stack that is present but empty is not distinguished from an absent one.
- ErrorBoundary: capability detection is an input; `announceToScreenReader` is a counter; error reporting and console output are not modelled. The window listeners are never removed by cleanup, because fresh `.bind` calls create new handlers; the model keeps them attached.
- SearchInterface: the console output of `handleSearch` and the screen-reader announcement on focus are not modelled; its collapse is.
- MegaMenu: the title prop, the blur handling of items, the unused column-change handler and description rendering are presentation only. Its close timer is never armed by the source, so `CancelDelayedClose` only ever clears an empty timer.
- Navigation: `window.location` assignments are returned as `NavigateTo` effects. `onClose` calls are returned as close requests.
- Header: the header hard-codes its own English item list and passes `currentLanguage="en"` to the language switcher. The model keeps the header independent of `getNavigationItems`.
- The performance monitor, the language switcher, the language provider, the dynamic layout, the hamburger button, the page files and the build configuration are not part of this model. They are clocks, routing, context and markup.

## Findings

| source | as written | input that shows it | evidently intended | confidence | as-written member | corrected member |
|---|---|---|---|---|---|---|
| src/utils/language.ts:30-39 | the root rule only fires when the stripped path is exactly `/`, so a bare `/en` strips to the empty path | `switchLanguage("/en", "el")` gives `""`; `switchLanguage("/", "en")` gives `/en`, and switching that to English again gives `/en/` | an empty stripped path is the root too: `/en` switches to `/` in Greek and stays `/en` in English, and switching to English is idempotent | not executed | Language.SwitchRootNotIdempotent | Language.SwitchLanguageFixed |
| src/components/Navigation/NavigationMenu.tsx:40-58 | the Escape listener's effect lists `isOpen`, `onClose` and `currentPanel` but not `isAnimating`, so the `goBack` it calls still sees the lock of the drill-down render | with the menu open on the main panel: drill down into "Our Company", let the 300 ms timer fire, then press Escape (with no header render in between): nothing happens and the submenu stays shown | Escape on a submenu goes back whenever the back button would, that is whenever the current lock is clear | not executed | NavigationMenu.EscapeAfterDrilldown | NavigationMenu.EscapeAfterDrilldownFixed |
