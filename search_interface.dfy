/**
 * The search box of src/components/Search/SearchInterface.tsx: the
 * case-insensitive suggestion filter, the arrow-key selection arithmetic and
 * the state its handlers and its debounced query effect update. The 300 ms
 * debounce and the 150 ms blur delay are explicit events; an assignment to
 * `window.location.href` is returned as `navigate`.
 */
module SearchInterface {
  import opened Wrappers
  import opened Text

  datatype Suggestion = Suggestion(title: string, description: Option<string>, href: string, category: string)

  const DefaultSuggestions := [
    Suggestion("Public Sector Consulting", Some("Strategic advisory for government institutions"), "/services/public-sector", "Services"),
    Suggestion("Digital Transformation", Some("Modernize your technology infrastructure"), "/services/technology/digital-transformation", "Services"),
    Suggestion("ESG Strategy Implementation", Some("Environmental, Social, and Governance consulting"), "/services/specialized/esg-strategy", "Services"),
    Suggestion("About Our Team", Some("Meet our expert consultants"), "/team", "Company"),
    Suggestion("Recent Projects", Some("View our latest case studies"), "/projects", "Projects"),
    Suggestion("E-learning Platform", Some("Professional development courses"), "/e-learning", "Services")
  ]

  /** The suggestions searched: the supplied ones, or the six defaults when none are supplied. */
  function SourceOf(supplied: seq<Suggestion>): (r: seq<Suggestion>)
    ensures |supplied| > 0 ==> r == supplied
    ensures |supplied| == 0 ==> r == DefaultSuggestions && |r| == 6
  {
    if |supplied| > 0 then supplied else DefaultSuggestions
  }

  // ------------------------------------------------------------ filter

  /** The `performSearch` test: the lowercased title, description or category contains the lowercased query. */
  predicate Matches(s: Suggestion, q: string)
  {
    Contains(Lower(s.title), Lower(q)) ||
    (s.description.Some? && Contains(Lower(s.description.value), Lower(q))) ||
    Contains(Lower(s.category), Lower(q))
  }

  /** `Array.prototype.filter` with `Matches`. */
  function Filter(src: seq<Suggestion>, q: string): (r: seq<Suggestion>)
    ensures |r| <= |src|
    ensures forall s :: s in r ==> s in src && Matches(s, q)
  {
    if |src| == 0 then []
    else if Matches(src[0], q) then [src[0]] + Filter(src[1..], q)
    else Filter(src[1..], q)
  }

  /** Every matching suggestion is kept. */
  lemma {:induction false} FilterComplete(src: seq<Suggestion>, q: string, s: Suggestion)
    requires s in src && Matches(s, q)
    ensures s in Filter(src, q)
  {
    if src[0] != s {
      FilterComplete(src[1..], q, s);
    }
  }

  /** `a` is `b` with some elements dropped, order kept. */
  predicate Subsequence(a: seq<Suggestion>, b: seq<Suggestion>)
    decreases |b|
  {
    |a| == 0 || (|b| > 0 && ((a[0] == b[0] && Subsequence(a[1..], b[1..])) || Subsequence(a, b[1..])))
  }

  /** The results keep the source order. */
  lemma {:induction false} FilterKeepsOrder(src: seq<Suggestion>, q: string)
    ensures Subsequence(Filter(src, q), src)
  {
    if |src| > 0 {
      FilterKeepsOrder(src[1..], q);
      var r := Filter(src, q);
      if Matches(src[0], q) {
        assert r[0] == src[0] && r[1..] == Filter(src[1..], q);
      }
    }
  }

  lemma LowerTwice(s: string)
    ensures Lower(Lower(s)) == Lower(s)
  {
    LowerOf(Lower(s), Lower(s));
  }

  /** The query's case does not matter. */
  lemma {:induction false} FilterIgnoresCase(src: seq<Suggestion>, q: string)
    ensures Filter(src, q) == Filter(src, Lower(q))
  {
    LowerTwice(q);
    if |src| > 0 {
      FilterIgnoresCase(src[1..], q);
    }
  }

  // ------------------------------------------------------------ selection arithmetic

  /** ArrowDown: the next index, wrapping from the last (or beyond) to 0. */
  function ArrowDown(prev: int, len: nat): (r: int)
    ensures -1 <= prev < len - 1 ==> r == prev + 1
    ensures prev >= len - 1 ==> r == 0
  {
    if prev < len - 1 then prev + 1 else 0
  }

  /** ArrowUp: the previous index, wrapping from 0 (or nothing selected) to the last. */
  function ArrowUp(prev: int, len: nat): (r: int)
    ensures prev > 0 ==> r == prev - 1
    ensures prev <= 0 ==> r == len - 1
  {
    if prev > 0 then prev - 1 else len - 1
  }

  /** With at least one result and a selection in `[-1, len)`, both keys select an existing result. */
  lemma ArrowsStayInRange(prev: int, len: nat)
    requires len >= 1 && -1 <= prev < len
    ensures 0 <= ArrowDown(prev, len) < len
    ensures 0 <= ArrowUp(prev, len) < len
  {
  }

  /** On an existing result, ArrowUp undoes ArrowDown and vice versa. */
  lemma ArrowsInverse(prev: int, len: nat)
    requires 0 <= prev < len
    ensures ArrowUp(ArrowDown(prev, len), len) == prev
    ensures ArrowDown(ArrowUp(prev, len), len) == prev
  {
  }

  /** With no results ArrowDown selects index 0, which holds nothing, and ArrowUp selects -1. */
  lemma ArrowsOnNoResults(prev: int)
    requires -1 <= prev <= 0
    ensures ArrowDown(prev, 0) == 0 && ArrowUp(prev, 0) == -1
  {
  }

  // ------------------------------------------------------------ state

  class SearchState {
    const source: seq<Suggestion>
    var query: string
    var filtered: seq<Suggestion>
    var selectedIndex: int
    var isExpanded: bool
    var isLoading: bool
    /** The pending debounced search, with the query it captured. */
    var debounce: Option<string>
    /** Blur delays armed and not yet fired. */
    var pendingBlurs: nat

    ghost predicate Valid()
      reads this
    {
      -1 <= selectedIndex && (selectedIndex < |filtered| || selectedIndex == 0) &&
      (debounce.Some? ==> debounce.value == query && query != "" && isLoading) &&
      (query == "" ==> filtered == []) &&
      (forall s :: s in filtered ==> s in source)
    }

    constructor (supplied: seq<Suggestion>)
      ensures Valid() && source == SourceOf(supplied)
      ensures query == "" && filtered == [] && selectedIndex == -1 && !isExpanded && !isLoading && debounce == None
    {
      source := SourceOf(supplied);
      query, filtered, selectedIndex := "", [], -1;
      isExpanded, isLoading := false, false;
      debounce, pendingBlurs := None, 0;
    }

    /** The results panel is rendered. */
    function ResultsShown(): (b: bool)
      reads this
      ensures b ==> isExpanded
    {
      isExpanded && (|query| > 0 || |filtered| > 0)
    }

    /**
     * A new input value, with the query effect it triggers: the pending
     * search is cancelled; a non-empty query starts loading and arms a new
     * one; an empty query clears the results and the selection at once, but
     * leaves `isLoading` as it was.
     */
    method SetQuery(q: string)
      requires Valid()
      modifies this
      ensures Valid() && query == q
      ensures q == old(query) ==> unchanged(this)
      ensures q != old(query) && q != "" ==>
                isLoading && debounce == Some(q) && filtered == old(filtered) && selectedIndex == old(selectedIndex)
      ensures q != old(query) && q == "" ==>
                filtered == [] && selectedIndex == -1 && debounce == None && isLoading == old(isLoading)
      ensures isExpanded == old(isExpanded) && pendingBlurs == old(pendingBlurs)
    {
      if q == query {
        return;
      }
      query := q;
      if |q| > 0 {
        isLoading := true;
        debounce := Some(q);
      } else {
        filtered, selectedIndex := [], -1;
        debounce := None;
      }
    }

    /** The debounce timer: search the captured query, clear the selection, stop loading. */
    method DebounceFires()
      requires Valid() && debounce.Some?
      modifies this
      ensures Valid()
      ensures filtered == Filter(source, old(query)) && selectedIndex == -1 && !isLoading && debounce == None
      ensures query == old(query) && isExpanded == old(isExpanded) && pendingBlurs == old(pendingBlurs)
    {
      filtered := Filter(source, debounce.value);
      selectedIndex := -1;
      isLoading := false;
      debounce := None;
    }

    method Focus()
      requires Valid()
      modifies this`isExpanded
      ensures Valid() && isExpanded
    {
      isExpanded := true;
    }

    /** Blur arms a delayed check. */
    method Blur()
      requires Valid()
      modifies this`pendingBlurs
      ensures Valid() && pendingBlurs == old(pendingBlurs) + 1
    {
      pendingBlurs := pendingBlurs + 1;
    }

    /** A blur delay fires: unless focus is now inside the results, collapse and clear the selection. */
    method BlurFires(focusInResults: bool)
      requires Valid() && pendingBlurs > 0
      modifies this`pendingBlurs, this`isExpanded, this`selectedIndex
      ensures Valid() && pendingBlurs == old(pendingBlurs) - 1
      ensures focusInResults ==> isExpanded == old(isExpanded) && selectedIndex == old(selectedIndex)
      ensures !focusInResults ==> !isExpanded && selectedIndex == -1
    {
      pendingBlurs := pendingBlurs - 1;
      if !focusInResults {
        isExpanded := false;
        selectedIndex := -1;
      }
    }

    /** `handleSuggestionClick`: navigate to the suggestion, collapse and clear the query. */
    method SuggestionClick(i: nat) returns (navigate: Option<string>)
      requires Valid() && i < |filtered|
      modifies this
      ensures Valid()
      ensures navigate == Some(old(filtered)[i].href)
      ensures !isExpanded && query == "" && filtered == [] && selectedIndex == -1
      ensures isLoading == old(isLoading) && pendingBlurs == old(pendingBlurs)
    {
      navigate := Some(filtered[i].href);
      isExpanded := false;
      SetQuery("");
    }

    /** The mouse over result `i` selects it. */
    method HoverSuggestion(i: nat)
      requires Valid() && i < |filtered|
      modifies this`selectedIndex
      ensures Valid() && selectedIndex == i
    {
      selectedIndex := i;
    }

    /** `handleSubmit`: a non-empty query collapses the box; an empty one does nothing. */
    method Submit()
      requires Valid()
      modifies this`isExpanded
      ensures Valid()
      ensures isExpanded == (old(isExpanded) && query == "")
    {
      if query != "" {
        isExpanded := false;
      }
    }

    /**
     * `handleKeyDown` on the input: the arrows move the selection; Enter
     * opens the selected result if it exists, else searches a non-empty
     * query; Escape collapses, clears the query and the selection, and blurs
     * the input.
     */
    method KeyDown(key: string) returns (navigate: Option<string>)
      requires Valid()
      modifies this
      ensures Valid()
      ensures key == "ArrowDown" ==> selectedIndex == ArrowDown(old(selectedIndex), |old(filtered)|) && query == old(query)
      ensures key == "ArrowUp" ==> selectedIndex == ArrowUp(old(selectedIndex), |old(filtered)|) && query == old(query)
      ensures key in {"ArrowDown", "ArrowUp"} ==>
                filtered == old(filtered) && isExpanded == old(isExpanded) && isLoading == old(isLoading) &&
                debounce == old(debounce) && pendingBlurs == old(pendingBlurs)
      ensures navigate.Some? <==> key == "Enter" && 0 <= old(selectedIndex) < |old(filtered)|
      ensures navigate.Some? ==> navigate.value == old(filtered)[old(selectedIndex)].href && !isExpanded && query == ""
      ensures navigate.Some? ==> filtered == [] && selectedIndex == -1 && isLoading == old(isLoading) && pendingBlurs == old(pendingBlurs)
      ensures key == "Enter" && navigate.None? ==> isExpanded == (old(isExpanded) && old(query) == "") && query == old(query)
      ensures key == "Enter" && navigate.None? ==>
                selectedIndex == old(selectedIndex) && filtered == old(filtered) && isLoading == old(isLoading) &&
                debounce == old(debounce) && pendingBlurs == old(pendingBlurs)
      ensures key == "Escape" ==> !isExpanded && query == "" && selectedIndex == -1 && pendingBlurs == old(pendingBlurs) + 1
      ensures key == "Escape" ==> isLoading == old(isLoading)
      ensures key !in {"ArrowDown", "ArrowUp", "Enter", "Escape"} ==> unchanged(this)
    {
      navigate := None;
      if key == "ArrowDown" {
        selectedIndex := ArrowDown(selectedIndex, |filtered|);
      } else if key == "ArrowUp" {
        selectedIndex := ArrowUp(selectedIndex, |filtered|);
      } else if key == "Enter" {
        if 0 <= selectedIndex < |filtered| {
          navigate := SuggestionClick(selectedIndex);
        } else if query != "" {
          isExpanded := false;
        }
      } else if key == "Escape" {
        isExpanded := false;
        SetQuery("");
        selectedIndex := -1;
        pendingBlurs := pendingBlurs + 1;
      }
    }
  }

  /** Clearing the query while a search is pending cancels it but leaves the box marked as loading. */
  method ClearWhileLoading(s: SearchState)
    requires s.Valid() && s.debounce.Some?
    modifies s
    ensures s.Valid() && s.isLoading && s.debounce == None && s.filtered == [] && !s.ResultsShown()
  {
    s.SetQuery("");
  }

  /** Typing a query and letting the debounce fire shows exactly the matching suggestions, none selected. */
  method TypeAndWait(s: SearchState, q: string)
    requires s.Valid() && q != "" && q != s.query
    modifies s
    ensures s.Valid() && !s.isLoading && s.selectedIndex == -1
    ensures forall x :: x in s.filtered <==> x in s.source && Matches(x, q)
  {
    s.SetQuery(q);
    s.DebounceFires();
    forall x | x in s.source && Matches(x, q)
      ensures x in s.filtered
    {
      FilterComplete(s.source, q, x);
    }
  }
}
