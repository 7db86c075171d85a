/** The decisions the tag search screen makes itself: the suggestions offered for the
    query, the selected-tag list that picking and chip taps change, the request for the
    full tag list, and the badge a result shows under each sort type. */
module SearchScreen {
  import opened Wrappers
  import opened Text
  import opened Tags
  import opened SearchModel
  import opened SearchUrls
  import opened TagStore
  import Explore

  // ---- suggestions ----

  /** `allTags.filter { it.containsTag(query) }`. */
  function Matching(tags: seq<SearchTag>, query: string): (r: seq<SearchTag>)
    ensures |r| <= |tags|
    ensures forall t :: t in r <==> t in tags && ContainsTag(t, query)
    decreases |tags|
  {
    if tags == [] then []
    else
      var init := Matching(tags[..|tags| - 1], query);
      var last := tags[|tags| - 1];
      assert tags == tags[..|tags| - 1] + [last];
      if ContainsTag(last, query) then init + [last] else init
  }

  /** `suggestions.filter { !selectedTags.contains(it) }`. */
  function Unselected(tags: seq<SearchTag>, selected: seq<SearchTag>): (r: seq<SearchTag>)
    ensures |r| <= |tags|
    ensures forall t :: t in r <==> t in tags && t !in selected
    decreases |tags|
  {
    if tags == [] then []
    else
      var init := Unselected(tags[..|tags| - 1], selected);
      var last := tags[|tags| - 1];
      assert tags == tags[..|tags| - 1] + [last];
      if last !in selected then init + [last] else init
  }

  /** The offered suggestions: the matching tags for a non-blank query, all tags for a
      blank one, without those already selected. */
  function Suggestions(allTags: seq<SearchTag>, query: string, selected: seq<SearchTag>): seq<SearchTag> {
    Unselected(if !IsBlank(query) then Matching(allTags, query) else allTags, selected)
  }

  /** A tag is suggested exactly when it is known, not selected, and contains the query;
      a blank query lets every tag through. */
  lemma {:induction false} SuggestionsIff(allTags: seq<SearchTag>, query: string, selected: seq<SearchTag>, t: SearchTag)
    ensures t in Suggestions(allTags, query, selected) <==>
              t in allTags && t !in selected && ContainsTag(t, query)
  {
    if IsBlank(query) {
      BlankKeywordMatchesAll(t, query);
    }
  }

  /** Nothing selected and a blank query: every tag is suggested, in list order. */
  lemma {:induction false} BlankQuerySuggestsAll(allTags: seq<SearchTag>, query: string)
    requires IsBlank(query)
    ensures Suggestions(allTags, query, []) == allTags
    decreases |allTags|
  {
    if allTags != [] {
      BlankQuerySuggestsAll(allTags[..|allTags| - 1], query);
      assert allTags[..|allTags| - 1] + [allTags[|allTags| - 1]] == allTags;
    }
  }

  /** Matching keeps the order of the tag list: it distributes over concatenation. */
  lemma {:induction false} MatchingAppend(a: seq<SearchTag>, b: seq<SearchTag>, query: string)
    ensures Matching(a + b, query) == Matching(a, query) + Matching(b, query)
    decreases |b|
  {
    if b == [] {
      assert a + b == a;
    } else {
      var b0 := b[..|b| - 1];
      assert (a + b)[..|a + b| - 1] == a + b0;
      assert (a + b)[|a + b| - 1] == b[|b| - 1];
      MatchingAppend(a, b0, query);
    }
  }

  // ---- the selected tags ----

  /** The position of the first `t` from `i` on, or `|s|` when there is none. */
  function FirstFrom(s: seq<SearchTag>, t: SearchTag, i: nat): (n: nat)
    requires i <= |s|
    ensures i <= n <= |s|
    ensures n < |s| ==> s[n] == t
    ensures forall j :: i <= j < n ==> s[j] != t
    decreases |s| - i
  {
    if i == |s| || s[i] == t then i else FirstFrom(s, t, i + 1)
  }

  /** Kotlin's `list - element`: the first occurrence is removed. */
  function RemoveFirst(s: seq<SearchTag>, t: SearchTag): seq<SearchTag> {
    var n := FirstFrom(s, t, 0);
    if n < |s| then s[..n] + s[n + 1..] else s
  }

  /** Removal takes out exactly one occurrence of a selected tag and nothing else, and
      leaves a list without that tag alone. */
  lemma {:induction false} RemoveFirstEffect(s: seq<SearchTag>, t: SearchTag)
    ensures t in s ==> multiset(RemoveFirst(s, t)) == multiset(s) - multiset{t}
    ensures t !in s ==> RemoveFirst(s, t) == s
  {
    var n := FirstFrom(s, t, 0);
    if n < |s| {
      assert s == s[..n] + [s[n]] + s[n + 1..];
      assert multiset(s) == multiset(s[..n]) + multiset{t} + multiset(s[n + 1..]);
    } else {
      assert t !in s;
    }
  }

  /** No tag is listed twice. */
  predicate Distinct(s: seq<SearchTag>) {
    forall i, j :: 0 <= i < j < |s| ==> s[i] != s[j]
  }

  /** Removing from a list without repeats takes the tag out entirely. */
  lemma {:induction false} RemoveFirstDistinct(s: seq<SearchTag>, t: SearchTag)
    requires Distinct(s)
    ensures t !in RemoveFirst(s, t) && Distinct(RemoveFirst(s, t))
  {
    var n := FirstFrom(s, t, 0);
    var r := RemoveFirst(s, t);
    if n < |s| {
      assert |r| == |s| - 1;
      assert forall k :: 0 <= k < |r| ==> r[k] == if k < n then s[k] else s[k + 1];
      forall k | 0 <= k < |r|
        ensures r[k] != t
      {
        if k >= n {
          assert s[n] != s[k + 1];
        }
      }
      forall i, j | 0 <= i < j < |r|
        ensures r[i] != r[j]
      {
        var i' := if i < n then i else i + 1;
        var j' := if j < n then j else j + 1;
        assert r[i] == s[i'] && r[j] == s[j'] && i' < j';
      }
    } else {
      assert r == s;
    }
  }

  /** Picking a suggestion never repeats a tag, the picked tag is then no longer offered,
      and tapping its chip gives back the former selection. */
  lemma {:induction false} PickSuggestion(allTags: seq<SearchTag>, query: string, selected: seq<SearchTag>, t: SearchTag)
    requires Distinct(selected) && t in Suggestions(allTags, query, selected)
    ensures Distinct(selected + [t])
    ensures forall q :: t !in Suggestions(allTags, q, selected + [t])
    ensures RemoveFirst(selected + [t], t) == selected
  {
    SuggestionsIff(allTags, query, selected, t);
    forall q
      ensures t !in Suggestions(allTags, q, selected + [t])
    {
      SuggestionsIff(allTags, q, selected + [t], t);
    }
    AppendAbsentRemoved(selected, t);
  }

  lemma {:induction false} AppendAbsentRemoved(s: seq<SearchTag>, t: SearchTag)
    requires t !in s
    ensures RemoveFirst(s + [t], t) == s
  {
    var u := s + [t];
    var n := FirstFrom(u, t, 0);
    if n < |s| {
      assert false;
    }
    assert u[|s|] == t;
    assert n == |s| && u[..n] == s && u[n + 1..] == [];
  }

  /** The tag search panel: the selected tags and the query typed so far. */
  class TagSearchPanel {
    var selectedTags: seq<SearchTag>
    var query: string

    /** Nothing selected, nothing typed. */
    constructor ()
      ensures selectedTags == [] && query == ""
    {
      selectedTags := [];
      query := "";
    }

    /** The suggestions for the current query and selection. */
    function SuggestionsOf(allTags: seq<SearchTag>): seq<SearchTag>
      reads this
    {
      Suggestions(allTags, query, selectedTags)
    }

    /** Picking a suggestion: it is appended to the selection and the query is cleared. */
    method Pick(t: SearchTag)
      modifies this
      ensures selectedTags == old(selectedTags) + [t] && query == ""
    {
      selectedTags := selectedTags + [t];
      query := "";
    }

    /** Tapping a selected tag's chip removes it from the selection. */
    method RemoveChip(t: SearchTag)
      modifies this
      ensures selectedTags == RemoveFirst(old(selectedTags), t) && query == old(query)
    {
      selectedTags := RemoveFirst(selectedTags, t);
    }

    /** Opening the filter: the full tag list is requested only while it is empty. */
    method OpenFilter(vm: Explore.ExploreViewModel) returns (requested: bool, err: Option<string>)
      requires vm.Valid()
      modifies vm, vm.tagRepo.store
      ensures vm.Valid()
      ensures requested <==> old(vm.ui.allTags) == []
      ensures !requested ==> err.None? && vm.ui == old(vm.ui) && vm.tagRepo.store.rows == old(vm.tagRepo.store.rows)
      ensures vm.detail == old(vm.detail) && vm.messages == old(vm.messages)
      ensures selectedTags == old(selectedTags) && query == old(query)
    {
      requested := vm.ui.allTags == [];
      err := None;
      if requested {
        err := vm.AllTags();
      }
    }

    /** `onApplySearch`: a tag search with the selection, keeping the sort type. */
    method Apply(vm: Explore.ExploreViewModel) returns (r: Option<Result<SearchApiModel, string>>)
      modifies vm, vm.prefs
      ensures old(vm.ui.searchLoading) ==> r.None? && vm.ui == old(vm.ui)
      ensures !old(vm.ui.searchLoading) ==>
                && vm.ui.sortType == old(vm.ui.sortType)
                && r == Some(Explore.SearchAt(vm.pageAt, TagSearchUrlSpec(selectedTags, old(vm.ui.sortType), "games")))
      ensures vm.prefs.searchSortType == old(vm.prefs.searchSortType)
      ensures selectedTags == old(selectedTags) && query == old(query)
    {
      r := vm.SearchByTag(selectedTags, None);
    }
  }

  // ---- the badge ----

  datatype Badge = Rating | Text(content: Option<string>)

  /** What a result's badge shows: the rating under TopRated, the price under TopSellers,
      the genre under the other sort types; nothing is drawn for a missing text. */
  function BadgeOf(sortType: SearchSortType, r: SearchResult): Badge {
    if sortType == TopRated then Rating
    else if sortType == TopSellers then Text(r.price)
    else Text(r.genre)
  }

  /** The badge under each sort type. */
  lemma {:induction false} BadgeRule(r: SearchResult)
    ensures BadgeOf(TopRated, r) == Rating
    ensures BadgeOf(TopSellers, r) == Text(r.price)
    ensures forall s :: s in {Popular, NewAPopular, MostRecent} ==> BadgeOf(s, r) == Text(r.genre)
  {
  }
}
