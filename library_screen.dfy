/** The decisions the library screen makes itself: which items the filter shows, the
    pool of selectable tags and its three sections, the chip toggle of the filter
    panel, the clipboard import, and the time label of an item.

    The screen is written against an older `GameBasic` whose tags are `Tag`s, held in
    sets that compare them as data-class values. The model applies it to the current
    `GameBasic` and compares its `FilterTag`s by `FilterTag.equals` (`SameTag`). */
module LibraryScreen {
  import opened Wrappers
  import opened Text
  import opened Tags
  import opened Games
  import opened LibraryCommon
  import opened UrlUtils
  import Library

  // ---- comparing tags by `equals` ----

  /** `s.contains(t)` on a collection of tags: some member equals `t`. */
  predicate HasSame(s: seq<FilterTag>, t: FilterTag) {
    exists i :: 0 <= i < |s| && SameTag(s[i], t)
  }

  /** `set.contains(t)`. */
  predicate Selected(sel: set<FilterTag>, t: FilterTag) {
    exists s :: s in sel && SameTag(s, t)
  }

  /** No two members of the list are equal. */
  predicate DistinctTags(s: seq<FilterTag>) {
    forall i, j :: 0 <= i < j < |s| ==> !SameTag(s[i], s[j])
  }

  /** No two members of the set are equal: what a hash set built with `equals` holds. */
  predicate DistinctSet(sel: set<FilterTag>) {
    forall a, b :: a in sel && b in sel && SameTag(a, b) ==> a == b
  }

  // ---- the item filter ----

  /** An item is shown when its tags contain every selected tag and its name contains the
      keyword, ignoring case. */
  predicate Shown(b: GameBasic, f: FilterState<FilterTag>) {
    && (forall t :: t in f.tags ==> HasSame(b.filterTags, t))
    && ContainsIgnoreCase(b.name, f.keyword)
  }

  /** `itemState.filter { ... }`: the shown items, in list order. */
  function Visible(items: seq<GameBasic>, f: FilterState<FilterTag>): (r: seq<GameBasic>)
    ensures |r| <= |items|
    decreases |items|
  {
    if items == [] then []
    else
      var init := Visible(items[..|items| - 1], f);
      var last := items[|items| - 1];
      if Shown(last, f) then init + [last] else init
  }

  /** Exactly the shown items are listed. */
  lemma {:induction false} VisibleMembers(items: seq<GameBasic>, f: FilterState<FilterTag>, b: GameBasic)
    ensures b in Visible(items, f) <==> b in items && Shown(b, f)
    decreases |items|
  {
    if items != [] {
      var init := items[..|items| - 1];
      VisibleMembers(init, f, b);
      assert items == init + [items[|items| - 1]];
    }
  }

  /** `a` is `b` with some elements left out, the rest in their order. */
  predicate Subsequence<T(==)>(a: seq<T>, b: seq<T>)
    decreases |b|
  {
    if a == [] then true
    else if b == [] then false
    else (a[|a| - 1] == b[|b| - 1] && Subsequence(a[..|a| - 1], b[..|b| - 1]))
         || Subsequence(a, b[..|b| - 1])
  }

  /** The shown items are an order-preserving sublist of the items. */
  lemma {:induction false} VisibleIsSubsequence(items: seq<GameBasic>, f: FilterState<FilterTag>)
    ensures Subsequence(Visible(items, f), items)
    decreases |items|
  {
    if items != [] {
      var init := items[..|items| - 1];
      VisibleIsSubsequence(init, f);
      var r := Visible(items, f);
      if Shown(items[|items| - 1], f) {
        assert r[..|r| - 1] == Visible(init, f);
      }
    }
  }

  /** Every string contains the empty keyword. */
  lemma {:induction false} ContainsEmpty(s: string)
    ensures ContainsIgnoreCase(s, "")
  {
    assert Fold("") == [];
    assert OccursAt(Fold(s), [], 0);
  }

  /** An empty keyword and no selected tag show every item. */
  lemma {:induction false} EmptyFilterShowsAll(items: seq<GameBasic>)
    ensures Visible(items, FilterState("", {})) == items
    decreases |items|
  {
    if items != [] {
      EmptyFilterShowsAll(items[..|items| - 1]);
      ContainsEmpty(items[|items| - 1].name);
      assert items[..|items| - 1] + [items[|items| - 1]] == items;
    }
  }

  /** Selecting more tags never shows more items. */
  lemma {:induction false} MoreTagsShowFewer(items: seq<GameBasic>, keyword: string, a: set<FilterTag>, b: set<FilterTag>)
    requires a <= b
    ensures Subsequence(Visible(items, FilterState(keyword, b)), Visible(items, FilterState(keyword, a)))
    decreases |items|
  {
    if items != [] {
      var init := items[..|items| - 1];
      MoreTagsShowFewer(init, keyword, a, b);
      var ra := Visible(items, FilterState(keyword, a));
      var rb := Visible(items, FilterState(keyword, b));
      var last := items[|items| - 1];
      if Shown(last, FilterState(keyword, b)) {
        assert Shown(last, FilterState(keyword, a));
        assert ra[..|ra| - 1] == Visible(init, FilterState(keyword, a));
        assert rb[..|rb| - 1] == Visible(init, FilterState(keyword, b));
      } else if Shown(last, FilterState(keyword, a)) {
        assert ra[..|ra| - 1] == Visible(init, FilterState(keyword, a));
      }
    }
  }

  // ---- the tag pool ----

  /** `itemState.flatMap { it.filterTags }`. */
  function AllTagsOf(items: seq<GameBasic>): (r: seq<FilterTag>)
    ensures forall t :: t in r <==> exists i :: 0 <= i < |items| && t in items[i].filterTags
    decreases |items|
  {
    if items == [] then []
    else
      var init := items[..|items| - 1];
      var r := AllTagsOf(init) + items[|items| - 1].filterTags;
      assert forall i :: 0 <= i < |init| ==> init[i] == items[i];
      r
  }

  /** `toSet()`: a linked hash set, so the first of several equal tags is kept, in list
      order. */
  function DedupSame(s: seq<FilterTag>): seq<FilterTag>
    decreases |s|
  {
    if s == [] then []
    else
      var d := DedupSame(s[..|s| - 1]);
      var x := s[|s| - 1];
      if HasSame(d, x) then d else d + [x]
  }

  /** The de-duplicated list holds only listed tags. */
  lemma {:induction false} DedupSameMembers(s: seq<FilterTag>)
    ensures forall t :: t in DedupSame(s) ==> t in s
    decreases |s|
  {
    if s != [] {
      DedupSameMembers(s[..|s| - 1]);
    }
  }

  /** Every listed tag has an equal one in the de-duplicated list. */
  lemma {:induction false} DedupSameCovers(s: seq<FilterTag>)
    ensures forall i :: 0 <= i < |s| ==> HasSame(DedupSame(s), s[i])
    decreases |s|
  {
    if s != [] {
      var init := s[..|s| - 1];
      var x := s[|s| - 1];
      DedupSameCovers(init);
      var d := DedupSame(init);
      var r := DedupSame(s);
      assert forall k :: 0 <= k < |d| ==> r[k] == d[k];
      forall i | 0 <= i < |s|
        ensures HasSame(r, s[i])
      {
        if i == |s| - 1 {
          if !HasSame(d, x) {
            SameTagEquivalence(x, x, x);
            assert SameTag(r[|d|], x);
          }
        } else {
          assert s[i] == init[i];
          var k :| 0 <= k < |d| && SameTag(d[k], init[i]);
          assert r[k] == d[k];
        }
      }
    }
  }

  /** No two tags of the de-duplicated list are equal. */
  lemma {:induction false} DedupSameDistinct(s: seq<FilterTag>)
    ensures DistinctTags(DedupSame(s))
    decreases |s|
  {
    if s != [] {
      var init := s[..|s| - 1];
      var x := s[|s| - 1];
      DedupSameDistinct(init);
      var d := DedupSame(init);
      if !HasSame(d, x) {
        var r := d + [x];
        forall i, j | 0 <= i < j < |r|
          ensures !SameTag(r[i], r[j])
        {
          if j == |d| {
            assert r[i] == d[i];
          } else {
            assert r[i] == d[i] && r[j] == d[j];
          }
        }
      }
    }
  }

  /** The selectable tags: every tag of every item once, the first of equal ones kept. */
  function TagPool(items: seq<GameBasic>): seq<FilterTag> {
    DedupSame(AllTagsOf(items))
  }

  /** The pool is the union of the items' tags: each pool tag belongs to an item, each
      item tag has an equal one in the pool, and no two pool tags are equal. */
  lemma {:induction false} TagPoolIsUnion(items: seq<GameBasic>)
    ensures forall t :: t in TagPool(items) ==> exists i :: 0 <= i < |items| && t in items[i].filterTags
    ensures forall i, t :: 0 <= i < |items| && t in items[i].filterTags ==> HasSame(TagPool(items), t)
    ensures DistinctTags(TagPool(items))
  {
    var all := AllTagsOf(items);
    DedupSameMembers(all);
    DedupSameCovers(all);
    DedupSameDistinct(all);
    forall i, t | 0 <= i < |items| && t in items[i].filterTags
      ensures HasSame(TagPool(items), t)
    {
      assert t in all;
      var k :| 0 <= k < |all| && all[k] == t;
    }
  }

  /** The filter panel's sections: the Platform, Language and NormalTag tags of the pool,
      each in pool order; a tag of another type is in none of them. */
  function Sections(pool: seq<FilterTag>): (r: (seq<FilterTag>, seq<FilterTag>, seq<FilterTag>))
    ensures forall t :: t in r.0 <==> t in pool && t.tagType == TagType.Platform
    ensures forall t :: t in r.1 <==> t in pool && t.tagType == Language
    ensures forall t :: t in r.2 <==> t in pool && t.tagType == NormalTag
    ensures forall t :: t in pool && t.tagType !in {TagType.Platform, Language, NormalTag} ==>
              t !in r.0 && t !in r.1 && t !in r.2
  {
    (FilterTypes(pool, {TagType.Platform}), FilterTypes(pool, {Language}), FilterTypes(pool, {NormalTag}))
  }

  // ---- the chip toggle ----

  /** `selectedTags.plus(tag)`: kept as it is when an equal tag is selected. */
  function Select(sel: set<FilterTag>, t: FilterTag): set<FilterTag> {
    if Selected(sel, t) then sel else sel + {t}
  }

  /** `selectedTags.minus(tag)`: the tags equal to `tag` go. */
  function Deselect(sel: set<FilterTag>, t: FilterTag): set<FilterTag> {
    set s | s in sel && !SameTag(s, t)
  }

  /** Selecting makes the tag selected and changes no other tag's state. */
  lemma {:induction false} SelectEffect(sel: set<FilterTag>, t: FilterTag, u: FilterTag)
    ensures Selected(Select(sel, t), t)
    ensures !SameTag(u, t) ==> (Selected(Select(sel, t), u) <==> Selected(sel, u))
    ensures DistinctSet(sel) ==> DistinctSet(Select(sel, t))
  {
    SameTagEquivalence(t, t, t);
    assert t in sel + {t};
    if !SameTag(u, t) {
      SelectKeepsOthers(sel, t, u);
    }
    if DistinctSet(sel) {
      SelectKeepsDistinct(sel, t);
    }
  }

  lemma {:induction false} SelectKeepsOthers(sel: set<FilterTag>, t: FilterTag, u: FilterTag)
    requires !SameTag(u, t)
    ensures Selected(Select(sel, t), u) <==> Selected(sel, u)
  {
    if Selected(Select(sel, t), u) && !Selected(sel, t) {
      var s :| s in sel + {t} && SameTag(s, u);
      if s == t {
        SameTagEquivalence(s, u, u);
        assert false;
      }
      assert s in sel;
    }
  }

  lemma {:induction false} SelectKeepsDistinct(sel: set<FilterTag>, t: FilterTag)
    requires DistinctSet(sel)
    ensures DistinctSet(Select(sel, t))
  {
    if !Selected(sel, t) {
      var r := sel + {t};
      forall a, b | a in r && b in r && SameTag(a, b)
        ensures a == b
      {
        SameTagEquivalence(a, b, a);
      }
    }
  }

  /** Deselecting makes the tag unselected and changes no other tag's state. */
  lemma {:induction false} DeselectEffect(sel: set<FilterTag>, t: FilterTag, u: FilterTag)
    ensures !Selected(Deselect(sel, t), t)
    ensures !SameTag(u, t) ==> (Selected(Deselect(sel, t), u) <==> Selected(sel, u))
    ensures DistinctSet(sel) ==> DistinctSet(Deselect(sel, t))
  {
    if !SameTag(u, t) && Selected(sel, u) {
      var s :| s in sel && SameTag(s, u);
      if SameTag(s, t) {
        SameTagEquivalence(s, t, u);
        SameTagEquivalence(t, s, u);
        SameTagEquivalence(u, s, t);
      }
      assert s in Deselect(sel, t);
    }
  }

  /** The screen-local selection of the library filter panel. */
  class FilterPanel {
    var selectedTags: set<FilterTag>

    /** `remember { mutableStateOf(filterState.tags) }`. */
    constructor (f: FilterState<FilterTag>)
      ensures selectedTags == f.tags
    {
      selectedTags := f.tags;
    }

    /** The `onChangeSelected(tag, selected)` callback. */
    method ChangeSelected(t: FilterTag, selected: bool)
      modifies this
      ensures selectedTags == if selected then Select(old(selectedTags), t) else Deselect(old(selectedTags), t)
    {
      if selected {
        if !Selected(selectedTags, t) {
          selectedTags := selectedTags + {t};
        }
      } else {
        selectedTags := set s | s in selectedTags && !SameTag(s, t);
      }
    }

    /** A chip click: the callback with the inverse of the chip's current state, so the
        tag's state flips and every other tag keeps its own. */
    method ClickChip(t: FilterTag)
      modifies this
      ensures Selected(selectedTags, t) <==> !Selected(old(selectedTags), t)
      ensures forall u :: !SameTag(u, t) ==> (Selected(selectedTags, u) <==> Selected(old(selectedTags), u))
      ensures DistinctSet(old(selectedTags)) ==> DistinctSet(selectedTags)
    {
      var selected := Selected(selectedTags, t);
      ghost var before := selectedTags;
      ChangeSelected(t, !selected);
      forall u | true
        ensures !SameTag(u, t) ==> (Selected(selectedTags, u) <==> Selected(before, u))
        ensures DistinctSet(before) ==> DistinctSet(selectedTags)
      {
        SelectEffect(before, t, u);
        DeselectEffect(before, t, u);
      }
      SelectEffect(before, t, t);
      DeselectEffect(before, t, t);
    }

    /** `onApplySearch`: the query and the selection become the view model's filter. */
    method Apply(vm: Library.LibraryViewModel, query: string)
      modifies vm
      ensures vm.filter == FilterState(query, selectedTags)
      ensures vm.items == old(vm.items) && vm.ui == old(vm.ui) && vm.detail == old(vm.detail)
      ensures vm.messages == old(vm.messages)
    {
      vm.UpdateFilter(Some(query), Some(selectedTags));
    }
  }

  // ---- the clipboard import ----

  datatype ClipboardAction = AddGame(url: string) | SendMessage(text: string)

  /** "import from clipboard": the cleaned text is added when it is a game page. */
  function ClipboardImport(clip: Option<string>): ClipboardAction {
    match clip
    case None => SendMessage("Clipboard is empty")
    case Some(text) =>
      var url := CleanUrl(text);
      if IsGamePageUrl(url) then AddGame(url) else SendMessage("Invalid URL")
  }

  /** A game is added exactly when the clipboard has text whose cleaned form is a game
      page; that cleaned form is what is added, and cleaning it again changes nothing. */
  lemma {:induction false} ClipboardImportRule(clip: Option<string>)
    ensures ClipboardImport(clip).AddGame? <==> clip.Some? && IsGamePageUrl(CleanUrl(clip.value))
    ensures ClipboardImport(clip).AddGame? ==>
              var u := ClipboardImport(clip).url;
              u == CleanUrl(clip.value) && IsGamePageUrl(u) && CleanUrl(u) == u
    ensures clip.None? ==> ClipboardImport(clip) == SendMessage("Clipboard is empty")
    ensures clip.Some? && !IsGamePageUrl(CleanUrl(clip.value)) ==> ClipboardImport(clip) == SendMessage("Invalid URL")
  {
    if clip.Some? {
      CleanUrlIdempotent(clip.value);
    }
  }

  // ---- the time label ----

  datatype TimeLabel = LastUpdated(time: nat) | LastDevLog(time: nat) | Published(time: nat) | NoLabel

  /** The time an item shows: its update time, else its first devlog's date, else its
      publication time. */
  function TimeLabelOf(b: GameBasic): TimeLabel {
    if b.updatedTime.Some? then LastUpdated(b.updatedTime.value)
    else if b.devLogs != [] then LastDevLog(b.devLogs[0].pubDate)
    else if b.publishedTime.Some? then Published(b.publishedTime.value)
    else NoLabel
  }

  /** The label's text; `format` is `formatTimeDifference`, which reads the clock. */
  function LabelText(l: TimeLabel, format: nat -> string): string {
    match l
    case LastUpdated(t) => "Last Updated·" + format(t)
    case LastDevLog(t) => "Last DevLog·" + format(t)
    case Published(t) => "Published·" + format(t)
    case NoLabel => ""
  }

  /** The order of preference, and the label box is drawn exactly when the item has one
      of the three times. */
  lemma {:induction false} TimeLabelRule(b: GameBasic, format: nat -> string)
    ensures b.updatedTime.Some? ==> TimeLabelOf(b) == LastUpdated(b.updatedTime.value)
    ensures b.updatedTime.None? && b.devLogs != [] ==> TimeLabelOf(b) == LastDevLog(b.devLogs[0].pubDate)
    ensures b.updatedTime.None? && b.devLogs == [] && b.publishedTime.Some? ==>
              TimeLabelOf(b) == Published(b.publishedTime.value)
    ensures LabelText(TimeLabelOf(b), format) != "" <==>
              b.updatedTime.Some? || b.devLogs != [] || b.publishedTime.Some?
  {
    var l := TimeLabelOf(b);
    if l != NoLabel {
      assert |LabelText(l, format)| > 0;
    }
  }
}
