/**
 * The overlay state machine of
 * src/components/Navigation/NavigationStateManager.ts: a string state, a
 * transition lock, and the CSS custom properties it writes on the document
 * root. The completion timer of a transition is the explicit event
 * `CompleteTransition`; a transition's promise resolves at once exactly when
 * `TransitionTo` reports that it did not start.
 */
module NavigationStateManager {
  import opened Wrappers

  const Closed := "closed"
  const Opening := "opening"
  const Open := "open"

  // ------------------------------------------------------------ configuration

  datatype Easing = Easing(menu: string, hamburger: string, search: string, dropdown: string)

  /** Durations in whole milliseconds. */
  datatype Config = Config(transitionDuration: nat, staggerDelay: nat, easing: Easing)

  /** The fields a caller may supply; an absent one keeps the default. */
  datatype PartialConfig = PartialConfig(transitionDuration: Option<nat>, staggerDelay: Option<nat>, easing: Option<Easing>)

  const DefaultConfig := Config(300, 100, Easing(
    "cubic-bezier(0.25, 0.46, 0.45, 0.94)",
    "cubic-bezier(0.68, -0.55, 0.265, 1.55)",
    "cubic-bezier(0.0, 0.0, 0.58, 1.0)",
    "cubic-bezier(0.25, 0.1, 0.25, 1.0)"))

  function Override<T>(supplied: Option<T>, default: T): T
  {
    if supplied.Some? then supplied.value else default
  }

  /** The object spread `{...defaults, ...config}`: a supplied field wins; `easing` is replaced as a whole. */
  function MergeConfig(defaults: Config, p: PartialConfig): (c: Config)
  {
    Config(Override(p.transitionDuration, defaults.transitionDuration),
           Override(p.staggerDelay, defaults.staggerDelay),
           Override(p.easing, defaults.easing))
  }

  /** A field the caller supplies is the one used, an absent one is the default, and merging again with the same fields changes nothing. */
  lemma MergeOverrides(d: Config, p: PartialConfig)
    ensures MergeConfig(d, p).transitionDuration == if p.transitionDuration.Some? then p.transitionDuration.value else d.transitionDuration
    ensures MergeConfig(d, p).staggerDelay == if p.staggerDelay.Some? then p.staggerDelay.value else d.staggerDelay
    ensures MergeConfig(d, p).easing == if p.easing.Some? then p.easing.value else d.easing
    ensures MergeConfig(d, PartialConfig(None, None, None)) == d
    ensures MergeConfig(MergeConfig(d, p), p) == MergeConfig(d, p)
  {
  }

  // ------------------------------------------------------------ decimal rendering

  function Digit(d: nat): (c: char)
    requires d < 10
    ensures '0' <= c <= '9' && c as int - '0' as int == d
  {
    ('0' as int + d) as char
  }

  predicate AllDigits(s: string)
  {
    forall i :: 0 <= i < |s| ==> '0' <= s[i] <= '9'
  }

  /** A number in a template literal: its decimal digits, without leading zeros. */
  function NatToDecimal(n: nat): (s: string)
    ensures |s| >= 1 && AllDigits(s)
    ensures |s| > 1 ==> s[0] != '0'
    decreases n
  {
    if n < 10 then [Digit(n)] else NatToDecimal(n / 10) + [Digit(n % 10)]
  }

  /** The number a string of decimal digits denotes. */
  function DecimalValue(s: string): nat
    requires AllDigits(s)
  {
    if |s| == 0 then 0 else DecimalValue(s[..|s| - 1]) * 10 + (s[|s| - 1] as int - '0' as int)
  }

  /** Rendering a duration and reading it back gives the duration. */
  lemma {:induction false} DecimalRoundTrip(n: nat)
    ensures DecimalValue(NatToDecimal(n)) == n
    decreases n
  {
    if n >= 10 {
      var s := NatToDecimal(n);
      assert s[..|s| - 1] == NatToDecimal(n / 10);
      DecimalRoundTrip(n / 10);
    }
  }

  /** `${duration}ms`. */
  function Millis(n: nat): (s: string)
    ensures |s| >= 3 && s[|s| - 2..] == "ms" && AllDigits(s[..|s| - 2])
    ensures DecimalValue(s[..|s| - 2]) == n
  {
    DecimalRoundTrip(n);
    var s := NatToDecimal(n) + "ms";
    assert s[..|s| - 2] == NatToDecimal(n);
    s
  }

  // ------------------------------------------------------------ CSS properties

  /** The five properties a state change writes. */
  const StateProperties := ["--nav-state", "--hamburger-rotation", "--menu-opacity", "--overlay-display", "--scroll-lock"]
  const OpenValues := ["open", "45deg", "1", "block", "hidden"]
  const ClosedValues := ["closed", "0deg", "0", "none", "auto"]

  function SetAll(css: map<string, string>, keys: seq<string>, values: seq<string>): (r: map<string, string>)
    requires |keys| == |values|
    ensures forall k :: k in css ==> k in r
    decreases |keys|
  {
    if |keys| == 0 then css else SetAll(css[keys[0] := values[0]], keys[1..], values[1..])
  }

  /** `updateCSSProperties(state)`: the open set, the closed set, or nothing for any other state. */
  function WithStateProperties(css: map<string, string>, state: string): (r: map<string, string>)
  {
    if state == Open then SetAll(css, StateProperties, OpenValues)
    else if state == Closed then SetAll(css, StateProperties, ClosedValues)
    else css
  }

  /** The properties `initializeCSSProperties` writes in the closed state. */
  function InitialCSS(c: Config): (css: map<string, string>)
  {
    map["--nav-state" := Closed, "--hamburger-rotation" := "0deg", "--menu-opacity" := "0",
        "--overlay-display" := "none", "--scroll-lock" := "auto",
        "--transition-duration" := Millis(c.transitionDuration), "--stagger-delay" := Millis(c.staggerDelay),
        "--easing-menu" := c.easing.menu, "--easing-hamburger" := c.easing.hamburger,
        "--easing-search" := c.easing.search, "--easing-dropdown" := c.easing.dropdown]
  }

  /** The state properties of `css` read `values`. */
  predicate Shows(css: map<string, string>, values: seq<string>)
    requires |values| == |StateProperties|
  {
    forall i :: 0 <= i < |StateProperties| ==> StateProperties[i] in css && css[StateProperties[i]] == values[i]
  }

  lemma {:induction false} SetAllShows(css: map<string, string>, keys: seq<string>, values: seq<string>, i: nat)
    requires |keys| == |values| && i < |keys|
    requires forall j :: i < j < |keys| ==> keys[j] != keys[i]
    ensures keys[i] in SetAll(css, keys, values) && SetAll(css, keys, values)[keys[i]] == values[i]
    decreases |keys|
  {
    if i > 0 {
      SetAllShows(css[keys[0] := values[0]], keys[1..], values[1..], i - 1);
    } else {
      SetAllKeeps(css[keys[0] := values[0]], keys[1..], values[1..], keys[0]);
    }
  }

  lemma {:induction false} SetAllKeeps(css: map<string, string>, keys: seq<string>, values: seq<string>, k: string)
    requires |keys| == |values| && k !in keys && k in css
    ensures k in SetAll(css, keys, values) && SetAll(css, keys, values)[k] == css[k]
    decreases |keys|
  {
    if |keys| > 0 {
      SetAllKeeps(css[keys[0] := values[0]], keys[1..], values[1..], k);
    }
  }

  /** After an update to `open` or `closed` the root shows exactly that state's values; other properties are kept. */
  lemma StatePropertiesWritten(css: map<string, string>, state: string)
    ensures state == Open ==> Shows(WithStateProperties(css, state), OpenValues)
    ensures state == Closed ==> Shows(WithStateProperties(css, state), ClosedValues)
    ensures state != Open && state != Closed ==> WithStateProperties(css, state) == css
    ensures forall k :: k in css && k !in StateProperties ==>
              k in WithStateProperties(css, state) && WithStateProperties(css, state)[k] == css[k]
  {
    if state == Open || state == Closed {
      var values := if state == Open then OpenValues else ClosedValues;
      forall i | 0 <= i < |StateProperties|
        ensures StateProperties[i] in WithStateProperties(css, state) && WithStateProperties(css, state)[StateProperties[i]] == values[i]
      {
        SetAllShows(css, StateProperties, values, i);
      }
      forall k | k in css && k !in StateProperties
        ensures k in WithStateProperties(css, state) && WithStateProperties(css, state)[k] == css[k]
      {
        SetAllKeeps(css, StateProperties, values, k);
      }
    }
  }

  /** After an update to `open` the root shows the open values. */
  lemma OpenShown(css: map<string, string>)
    ensures Shows(WithStateProperties(css, Open), OpenValues)
  {
    StatePropertiesWritten(css, Open);
  }

  /** The initial properties are the closed set, with the configured durations and easings. */
  lemma InitialIsClosed(c: Config)
    ensures Shows(InitialCSS(c), ClosedValues)
    ensures DecimalValue(InitialCSS(c)["--transition-duration"][..|InitialCSS(c)["--transition-duration"]| - 2]) == c.transitionDuration
    ensures InitialCSS(c)["--easing-menu"] == c.easing.menu
  {
  }

  // ------------------------------------------------------------ state machine

  class StateManager {
    var currentState: string
    var transitionLock: bool
    const config: Config
    /** The custom properties on the document root. */
    var css: map<string, string>
    /** The target of the scheduled completion of the running transition. */
    var pendingTarget: Option<string>
    /** Whether a document exists (`typeof document !== 'undefined'`). */
    const hasDocument: bool

    ghost predicate Valid()
      reads this
    {
      (transitionLock <==> pendingTarget.Some?) &&
      (transitionLock ==> currentState == Opening)
    }

    constructor (p: PartialConfig, hasDocument: bool)
      ensures Valid() && currentState == Closed && !transitionLock
      ensures config == MergeConfig(DefaultConfig, p)
      ensures css == if hasDocument then InitialCSS(MergeConfig(DefaultConfig, p)) else map[]
    {
      currentState := Closed;
      transitionLock := false;
      config := MergeConfig(DefaultConfig, p);
      pendingTarget := None;
      this.hasDocument := hasDocument;
      css := if hasDocument then InitialCSS(MergeConfig(DefaultConfig, p)) else map[];
    }

    function IsOpen(): (b: bool)
      reads this
      ensures b <==> currentState == Open
    {
      currentState == Open
    }

    function IsTransitioning(): (b: bool)
      reads this
      ensures b <==> transitionLock
    {
      transitionLock
    }

    /**
     * The synchronous part of `transitionTo`: nothing while locked or when
     * already in the target; otherwise take the lock, show `opening` (for
     * any target), write the target's properties and schedule completion.
     */
    method TransitionTo(newState: string) returns (started: bool)
      requires Valid()
      modifies this
      ensures Valid()
      ensures started <==> !old(transitionLock) && old(currentState) != newState
      ensures !started ==> currentState == old(currentState) && transitionLock == old(transitionLock) &&
                           css == old(css) && pendingTarget == old(pendingTarget)
      ensures started ==> currentState == Opening && transitionLock && pendingTarget == Some(newState)
      ensures started ==> css == if hasDocument then WithStateProperties(old(css), newState) else old(css)
    {
      if transitionLock || currentState == newState {
        return false;
      }
      transitionLock := true;
      currentState := Opening;
      if hasDocument {
        css := WithStateProperties(css, newState);
      }
      pendingTarget := Some(newState);
      started := true;
    }

    /** The completion timer: enter the target and release the lock. */
    method CompleteTransition()
      requires Valid() && pendingTarget.Some?
      modifies this
      ensures Valid() && !transitionLock && currentState == old(pendingTarget).value && css == old(css)
    {
      currentState := pendingTarget.value;
      transitionLock := false;
      pendingTarget := None;
    }

    /** `toggle`: close when open, otherwise open. */
    method Toggle() returns (started: bool)
      requires Valid()
      modifies this
      ensures Valid()
      ensures started <==> !old(transitionLock) && old(currentState) != (if old(currentState) == Open then Closed else Open)
      ensures started ==> pendingTarget == Some(if old(currentState) == Open then Closed else Open) &&
                          currentState == Opening && transitionLock
      ensures started ==> css == if hasDocument then WithStateProperties(old(css), pendingTarget.value) else old(css)
      ensures !started ==> currentState == old(currentState) && transitionLock == old(transitionLock) &&
                           css == old(css) && pendingTarget == old(pendingTarget)
    {
      started := TransitionTo(if IsOpen() then Closed else Open);
    }

    method OpenMenu() returns (started: bool)
      requires Valid()
      modifies this
      ensures Valid()
      ensures started <==> !old(transitionLock) && old(currentState) != Open
      ensures started ==> pendingTarget == Some(Open) && currentState == Opening && transitionLock
      ensures started ==> css == if hasDocument then WithStateProperties(old(css), Open) else old(css)
      ensures !started ==> currentState == old(currentState) && css == old(css)
    {
      started := TransitionTo(Open);
    }

    method CloseMenu() returns (started: bool)
      requires Valid()
      modifies this
      ensures Valid()
      ensures started <==> !old(transitionLock) && old(currentState) != Closed
      ensures started ==> pendingTarget == Some(Closed) && currentState == Opening && transitionLock
      ensures started ==> css == if hasDocument then WithStateProperties(old(css), Closed) else old(css)
      ensures !started ==> currentState == old(currentState) && css == old(css)
    {
      started := TransitionTo(Closed);
    }
  }

  /** A toggle during a transition aims at `open` (the state reads `opening`) and is swallowed by the lock. */
  method ToggleMidTransition(m: StateManager) returns (started: bool)
    requires m.Valid() && m.transitionLock
    modifies m
    ensures !started && m.currentState == Opening && m.pendingTarget == old(m.pendingTarget)
  {
    started := m.Toggle();
  }

  /** Opening from closed and letting the transition complete leaves the overlay open with the open properties shown. */
  method OpenFromClosed(m: StateManager)
    requires m.Valid() && m.currentState == Closed && !m.transitionLock && m.hasDocument
    modifies m
    ensures m.Valid() && m.IsOpen() && !m.IsTransitioning() && Shows(m.css, OpenValues)
  {
    ghost var before := m.css;
    OpenShown(before);
    var started := m.OpenMenu();
    assert m.css == WithStateProperties(before, Open);
    m.CompleteTransition();
  }
}
