/**
 * The error classifier and degraded mode of
 * src/components/Error/NavigationErrorBoundary.ts. JavaScript's `undefined`
 * is `None`, and `a || b` on strings picks the first non-empty one. The
 * window listeners are counted, not called; capability detection arrives as
 * its four results.
 */
module ErrorBoundary {
  import opened Wrappers
  import opened Text

  /** An `Error` object: its message and stack, either possibly absent. */
  datatype ErrorObj = ErrorObj(message: Option<string>, stack: Option<string>)

  /** The fields of an `ErrorEvent` the classifier reads. */
  datatype ErrorEvent = ErrorEvent(error: Option<ErrorObj>, message: Option<string>, filename: Option<string>)

  /** The `reason` of an unhandled rejection. */
  datatype Reason = StringReason(text: string) | ObjectReason(error: ErrorObj) | OtherReason

  /** A string is truthy when present and non-empty. */
  predicate Truthy(s: Option<string>)
  {
    s.Some? && s.value != ""
  }

  /** `event.error?.message || event.message || ''`. */
  function ErrorMessage(ev: ErrorEvent): (m: string)
    ensures ev.error.Some? && Truthy(ev.error.value.message) ==> m == ev.error.value.message.value
    ensures !(ev.error.Some? && Truthy(ev.error.value.message)) && Truthy(ev.message) ==> m == ev.message.value
    ensures m == "" <==> !(ev.error.Some? && Truthy(ev.error.value.message)) && !Truthy(ev.message)
  {
    if ev.error.Some? && Truthy(ev.error.value.message) then ev.error.value.message.value
    else if Truthy(ev.message) then ev.message.value
    else ""
  }

  /** `event.error?.stack || ''`. */
  function ErrorStack(ev: ErrorEvent): (s: string)
    ensures s != "" ==> ev.error.Some? && ev.error.value.stack == Some(s)
  {
    if ev.error.Some? && Truthy(ev.error.value.stack) then ev.error.value.stack.value else ""
  }

  /** `isNavigationError`: a navigation word in the message, `Navigation` in the stack, or a navigation file; case-sensitive. */
  predicate IsNavigationError(ev: ErrorEvent)
  {
    Contains(ErrorMessage(ev), "navigation") || Contains(ErrorMessage(ev), "menu") || Contains(ErrorMessage(ev), "hamburger") ||
    Contains(ErrorStack(ev), "Navigation") ||
    (ev.filename.Some? && (Contains(ev.filename.value, "navigation") || Contains(ev.filename.value, "menu")))
  }

  /** `isNavigationPromiseRejection`. */
  predicate IsNavigationRejection(r: Reason)
  {
    match r
    case StringReason(text) => Contains(text, "navigation") || Contains(text, "menu")
    case ObjectReason(e) => Truthy(e.message) && IsNavigationError(ErrorEvent(Some(e), None, None))
    case OtherReason => false
  }

  /** An event with no message, no stack and no file is never a navigation error. */
  lemma EmptyEventIsNotNavigation(error: Option<ErrorObj>)
    requires error.None? || (!Truthy(error.value.message) && !Truthy(error.value.stack))
    ensures !IsNavigationError(ErrorEvent(error, None, None))
  {
    assert ErrorMessage(ErrorEvent(error, None, None)) == "";
    assert ErrorStack(ErrorEvent(error, None, None)) == "";
    NothingInEmpty("navigation");
    NothingInEmpty("menu");
    NothingInEmpty("hamburger");
    NothingInEmpty("Navigation");
  }

  lemma NothingInEmpty(sub: string)
    requires sub != ""
    ensures !Contains("", sub)
  {
  }

  /** A non-empty error message hides the event's own message. */
  lemma ErrorMessageWins(e: ErrorObj, eventMessage: string)
    requires Truthy(e.message) && e.stack.None?
    ensures IsNavigationError(ErrorEvent(Some(e), Some(eventMessage), None)) <==>
            IsNavigationError(ErrorEvent(Some(e), None, None))
  {
  }

  /** A rejection whose object has a message is judged as an event carrying only that error. */
  lemma ObjectReasonAsEvent(e: ErrorObj)
    requires Truthy(e.message)
    ensures IsNavigationRejection(ObjectReason(e)) <==> IsNavigationError(ErrorEvent(Some(e), None, None))
  {
  }

  /** `hamburger` counts in an error message but not in a string rejection reason. */
  lemma HamburgerOnlyInErrors()
    ensures !IsNavigationRejection(StringReason("hamburger"))
    ensures IsNavigationRejection(ObjectReason(ErrorObj(Some("hamburger"), None)))
  {
    var h := "hamburger";
    ContainsAt(h, "navigation");
    forall i | 0 <= i < |h| - 1
      ensures !(h[i] == "menu"[0] && h[i + 1] == "menu"[1])
    {
      assert h[i] != 'm' || i == 2;
    }
    NoPairNoContains(h, "menu");
    assert StartsWith(h, "hamburger");
  }

  /** A string in which the first two characters of `sub` never appear side by side does not contain `sub`. */
  lemma {:induction false} NoPairNoContains(s: string, sub: string)
    requires |sub| >= 2
    requires forall i :: 0 <= i < |s| - 1 ==> !(s[i] == sub[0] && s[i + 1] == sub[1])
    ensures !Contains(s, sub)
    decreases |s|
  {
    if |s| > 0 {
      assert !StartsWith(s, sub) by {
        if |sub| <= |s| { assert s[..|sub|][0] == s[0] && s[..|sub|][1] == s[1]; }
      }
      var t := s[1..];
      forall j | 0 <= j < |t| - 1
        ensures !(t[j] == sub[0] && t[j + 1] == sub[1])
      {
        assert t[j] == s[j + 1] && t[j + 1] == s[(j + 1) + 1];
      }
      NoPairNoContains(s[1..], sub);
    }
  }

  /** The stack test is case-sensitive: `navigation` in lower case there does not count. */
  lemma StackIsCaseSensitive()
    ensures IsNavigationError(ErrorEvent(Some(ErrorObj(None, Some("Navigation"))), None, None))
  {
    assert StartsWith("Navigation", "Navigation");
  }

  // ------------------------------------------------------------ capabilities

  datatype Capabilities = Capabilities(cssAnimations: bool, touch: bool, intersectionObserver: bool, customProperties: bool)

  /** The root classes `applyCapabilityFallbacks` adds: one per missing capability. */
  function FallbackClasses(c: Capabilities): (r: set<string>)
    ensures "no-css-animations" in r <==> !c.cssAnimations
    ensures "no-touch" in r <==> !c.touch
    ensures "no-intersection-observer" in r <==> !c.intersectionObserver
    ensures "no-custom-properties" in r <==> !c.customProperties
    ensures r <= {"no-css-animations", "no-touch", "no-intersection-observer", "no-custom-properties"}
  {
    (if c.cssAnimations then {} else {"no-css-animations"}) +
    (if c.touch then {} else {"no-touch"}) +
    (if c.intersectionObserver then {} else {"no-intersection-observer"}) +
    (if c.customProperties then {} else {"no-custom-properties"})
  }

  /** The number of missing capabilities. */
  function Missing(c: Capabilities): nat
  {
    (if c.cssAnimations then 0 else 1) + (if c.touch then 0 else 1) +
    (if c.intersectionObserver then 0 else 1) + (if c.customProperties then 0 else 1)
  }

  /** Exactly one class per missing capability. */
  lemma OneClassPerMissingCapability(c: Capabilities)
    ensures |FallbackClasses(c)| == Missing(c)
  {
    var a: set<string> := if c.cssAnimations then {} else {"no-css-animations"};
    var b: set<string> := if c.touch then {} else {"no-touch"};
    var d: set<string> := if c.intersectionObserver then {} else {"no-intersection-observer"};
    var e: set<string> := if c.customProperties then {} else {"no-custom-properties"};
    assert a !! b && (a + b) !! d && (a + b + d) !! e;
  }

  // ------------------------------------------------------------ boundary

  type Elem = nat

  class Boundary {
    var isFallbackActive: bool
    /** `fallbackStyles`: whether the boundary holds its style element. */
    var fallbackStyles: bool
    /** Fallback style elements in the document head. */
    var headStyles: nat
    /** Elements carrying the `fallback-mode` class. */
    var fallbackElements: set<Elem>
    /** Classes on the document root. */
    var rootClasses: set<string>
    /** Screen-reader announcements made. */
    var announcements: nat
    /** Listeners attached to the window. */
    var windowListeners: nat

    ghost predicate Valid()
      reads this
    {
      headStyles == (if fallbackStyles then 1 else 0) &&
      (fallbackStyles ==> isFallbackActive)
    }

    /**
     * Attach the two window listeners and apply the capability fallbacks.
     * Capability detection needs a document, so a boundary only exists in a browser.
     */
    constructor (caps: Capabilities)
      ensures Valid() && !isFallbackActive && !fallbackStyles && fallbackElements == {}
      ensures rootClasses == FallbackClasses(caps) && announcements == 0
      ensures windowListeners == 2
    {
      isFallbackActive := false;
      fallbackStyles := false;
      headStyles := 0;
      fallbackElements := {};
      rootClasses := FallbackClasses(caps);
      announcements := 0;
      windowListeners := 2;
    }

    /** `applyCapabilityFallbacks`: add one root class per missing capability. */
    method ApplyCapabilityFallbacks(caps: Capabilities)
      requires Valid()
      modifies this`rootClasses
      ensures Valid() && rootClasses == old(rootClasses) + FallbackClasses(caps)
    {
      rootClasses := rootClasses + FallbackClasses(caps);
    }

    /** `injectFallbackStyles`: append the style element unless the boundary already holds one. */
    method InjectFallbackStyles()
      requires isFallbackActive && Valid()
      modifies this`fallbackStyles, this`headStyles
      ensures Valid() && fallbackStyles && headStyles == 1
      ensures old(fallbackStyles) ==> headStyles == old(headStyles)
    {
      if fallbackStyles {
        return;
      }
      fallbackStyles := true;
      headStyles := headStyles + 1;
    }

    /**
     * `fallbackToBasicNavigation`: the first call marks every nav container,
     * injects the styles and announces the switch; later calls do nothing.
     */
    method FallbackToBasicNavigation(navContainers: seq<Elem>)
      requires Valid()
      modifies this
      ensures Valid() && isFallbackActive
      ensures old(isFallbackActive) ==> unchanged(this)
      ensures !old(isFallbackActive) ==>
                fallbackElements == old(fallbackElements) + set e | e in navContainers &&
                fallbackStyles && headStyles == 1 && announcements == old(announcements) + 1
      ensures rootClasses == old(rootClasses) && windowListeners == old(windowListeners)
    {
      if isFallbackActive {
        return;
      }
      isFallbackActive := true;
      for i := 0 to |navContainers|
        invariant fallbackElements == old(fallbackElements) + set e | e in navContainers[..i]
        invariant Valid() && isFallbackActive && unchanged(this`fallbackStyles, this`headStyles, this`announcements)
        invariant rootClasses == old(rootClasses) && windowListeners == old(windowListeners)
      {
        assert navContainers[..i + 1] == navContainers[..i] + [navContainers[i]];
        fallbackElements := fallbackElements + {navContainers[i]};
      }
      assert navContainers[..|navContainers|] == navContainers;
      InjectFallbackStyles();
      announcements := announcements + 1;
    }

    /** The window `error` listener: degrade on a navigation error; report whether it did. */
    method HandleError(ev: ErrorEvent, navContainers: seq<Elem>) returns (handled: bool)
      requires Valid()
      modifies this
      ensures Valid()
      ensures handled == IsNavigationError(ev)
      ensures handled ==> isFallbackActive
      ensures !handled || old(isFallbackActive) ==> unchanged(this)
    {
      handled := IsNavigationError(ev);
      if handled {
        FallbackToBasicNavigation(navContainers);
      }
    }

    /** The window `unhandledrejection` listener. */
    method HandlePromiseRejection(r: Reason, navContainers: seq<Elem>) returns (handled: bool)
      requires Valid()
      modifies this
      ensures Valid()
      ensures handled == IsNavigationRejection(r)
      ensures handled ==> isFallbackActive
      ensures !handled || old(isFallbackActive) ==> unchanged(this)
    {
      handled := IsNavigationRejection(r);
      if handled {
        FallbackToBasicNavigation(navContainers);
      }
    }

    /**
     * `cleanup`: remove the style element. The listeners stay attached,
     * because the handlers it passes for removal are fresh bindings.
     */
    method Cleanup()
      requires Valid()
      modifies this`fallbackStyles, this`headStyles
      ensures Valid() && windowListeners == old(windowListeners)
      ensures !fallbackStyles && headStyles == 0
    {
      if fallbackStyles {
        headStyles := headStyles - 1;
        fallbackStyles := false;
      }
    }
  }

  /** After a cleanup, a further navigation error leaves the page without fallback styles: the mode is still marked active. */
  method ErrorAfterCleanup(b: Boundary, ev: ErrorEvent, navContainers: seq<Elem>)
    requires b.Valid() && b.isFallbackActive && IsNavigationError(ev)
    modifies b
    ensures b.Valid() && b.headStyles == 0 && b.isFallbackActive
  {
    b.Cleanup();
    var handled := b.HandleError(ev, navContainers);
  }
}
