/** The list logic the two library view models share: applying refresh outcomes to the
    item list, the refresh tally and its summary messages, the progress updates, the
    lookup of an item by url, the replacement of an item's annotation, and removal. */
module LibraryCommon {
  import opened Wrappers
  import opened Text
  import opened Games
  import opened Repository

  /** The number of successful outcomes: `successIndex` at the end of a refresh. */
  function Successes(outs: seq<Outcome>): (n: nat)
    ensures n <= |outs|
  {
    if outs == [] then 0
    else Successes(outs[..|outs| - 1]) + (if outs[|outs| - 1].Success? then 1 else 0)
  }

  /** `items.map { if (it.url == b.url) b else it }`. */
  function ReplaceItems(items: seq<GameBasic>, b: GameBasic): (r: seq<GameBasic>)
    ensures |r| == |items|
    ensures forall i :: 0 <= i < |items| ==> r[i] == if items[i].url == b.url then b else items[i]
  {
    seq(|items|, i requires 0 <= i < |items| => if items[i].url == b.url then b else items[i])
  }

  /** The item list after the given refresh outcomes, one after the other; a failure
      leaves the list as it is. */
  function RefreshItems(items: seq<GameBasic>, outs: seq<Outcome>): seq<GameBasic> {
    if outs == [] then items
    else
      var before := RefreshItems(items, outs[..|outs| - 1]);
      var o := outs[|outs| - 1];
      if o.Success? then ReplaceItems(before, o.value) else before
  }

  /** Refresh outcomes keep the list's length, and an item changes only into a successful
      result carrying its own url. */
  lemma {:induction false} RefreshItemsFrame(items: seq<GameBasic>, outs: seq<Outcome>)
    ensures |RefreshItems(items, outs)| == |items|
    ensures forall i :: 0 <= i < |items| ==>
              RefreshItems(items, outs)[i] == items[i]
              || (RefreshItems(items, outs)[i].url == items[i].url
                  && exists k :: 0 <= k < |outs| && outs[k] == Success(RefreshItems(items, outs)[i]))
  {
    if outs != [] {
      var init := outs[..|outs| - 1];
      RefreshItemsFrame(items, init);
      var before := RefreshItems(items, init);
      var r := RefreshItems(items, outs);
      forall i | 0 <= i < |items|
        ensures r[i] == items[i]
                || (r[i].url == items[i].url && exists k :: 0 <= k < |outs| && outs[k] == Success(r[i]))
      {
        if r[i] != items[i] {
          if r[i] == before[i] {
            var k :| 0 <= k < |init| && init[k] == Success(before[i]);
            assert outs[k] == init[k];
          } else {
            assert outs[|outs| - 1] == Success(r[i]);
          }
        }
      }
    }
  }

  /** An item whose url no successful outcome carries is left as it is. */
  lemma {:induction false} UntouchedItemsKept(items: seq<GameBasic>, outs: seq<Outcome>, i: nat)
    requires i < |items|
    requires forall k :: 0 <= k < |outs| && outs[k].Success? ==> outs[k].value.url != items[i].url
    ensures i < |RefreshItems(items, outs)| && RefreshItems(items, outs)[i] == items[i]
  {
    RefreshItemsFrame(items, outs);
  }

  /** "refreshed $successIndex/$size". */
  function RefreshSummary(successes: nat, size: nat): string {
    "refreshed " + NatToString(successes) + "/" + NatToString(size)
  }

  /** The messages a refresh sends: after each outcome, once `index >= size`, the summary
      with the successes so far. */
  function RefreshMessages(outs: seq<Outcome>, size: nat): seq<string> {
    if outs == [] then []
    else RefreshMessages(outs[..|outs| - 1], size)
         + (if |outs| >= size then [RefreshSummary(Successes(outs), size)] else [])
  }

  /** Before `size` outcomes there is no message. */
  lemma {:induction false} NoMessageBeforeSize(outs: seq<Outcome>, size: nat)
    requires |outs| < size
    ensures RefreshMessages(outs, size) == []
  {
    if outs != [] {
      NoMessageBeforeSize(outs[..|outs| - 1], size);
    }
  }

  /** When the repository returns one outcome per listed item, exactly one summary is
      sent, and it counts the successes. */
  lemma {:induction false} RefreshSummaryOnce(outs: seq<Outcome>, size: nat)
    requires |outs| == size && size > 0
    ensures RefreshMessages(outs, size) == [RefreshSummary(Successes(outs), size)]
  {
    NoMessageBeforeSize(outs[..|outs| - 1], size);
  }

  /** With no item listed, every outcome sends a summary. */
  lemma {:induction false} EmptyListSummaries(outs: seq<Outcome>)
    ensures |RefreshMessages(outs, 0)| == |outs|
  {
    if outs != [] {
      EmptyListSummaries(outs[..|outs| - 1]);
    }
  }

  /** One more outcome, as the refresh loops take it. */
  lemma {:induction false} RefreshPrefixStep(items: seq<GameBasic>, outs: seq<Outcome>, size: nat, i: nat)
    requires i < |outs|
    ensures var o := outs[i];
            && Successes(outs[..i + 1]) == Successes(outs[..i]) + (if o.Success? then 1 else 0)
            && RefreshItems(items, outs[..i + 1])
               == (if o.Success? then ReplaceItems(RefreshItems(items, outs[..i]), o.value)
                   else RefreshItems(items, outs[..i]))
            && RefreshMessages(outs[..i + 1], size)
               == RefreshMessages(outs[..i], size)
                  + (if i + 1 >= size then [RefreshSummary(Successes(outs[..i + 1]), size)] else [])
  {
    assert outs[..i + 1][..i] == outs[..i];
    assert outs[..i + 1][i] == outs[i];
  }

  /** The progress values published after `n` outcomes of a refresh of `size` items:
      one per outcome, `index / size`, and none at all for fewer than five items. */
  function ProgressTrace(n: nat, size: nat): (r: seq<(nat, nat)>)
    ensures size < 5 ==> r == []
    ensures size >= 5 ==> |r| == n && forall k :: 0 <= k < n ==> r[k] == (k + 1, size)
  {
    if n == 0 || size < 5 then [] else ProgressTrace(n - 1, size) + [(n, size)]
  }

  /** `items.firstOrNull { it.url == url }`. */
  function FirstByUrl(items: seq<GameBasic>, url: string): (r: Option<GameBasic>)
    ensures r.None? <==> forall i :: 0 <= i < |items| ==> items[i].url != url
    ensures r.Some? ==> exists i :: 0 <= i < |items| && items[i] == r.value && r.value.url == url
                                    && forall j :: 0 <= j < i ==> items[j].url != url
  {
    if items == [] then None
    else if items[0].url == url then Some(items[0])
    else
      var r := FirstByUrl(items[1..], url);
      assert forall i :: 1 <= i < |items| ==> items[i] == items[1..][i - 1];
      if r.Some? then
        var i :| 0 <= i < |items[1..]| && items[1..][i] == r.value && r.value.url == url
                 && forall j :: 0 <= j < i ==> items[1..][j].url != url;
        assert items[i + 1] == r.value;
        r
      else r
  }

  /** `items.map { if (it.url == url) b.copy(localInfo = info) else it }`. */
  function WithLocalInfo(items: seq<GameBasic>, url: string, b: GameBasic, info: LocalInfo): (r: seq<GameBasic>)
    ensures |r| == |items|
  {
    seq(|items|, i requires 0 <= i < |items| => if items[i].url == url then b.(localInfo := info) else items[i])
  }

  /** Star and Mark rewrite exactly the items with that url, each into the first such
      item with the new annotation; every other item is kept. */
  lemma {:induction false} WithLocalInfoEffect(items: seq<GameBasic>, url: string, info: LocalInfo)
    requires FirstByUrl(items, url).Some?
    ensures var b := FirstByUrl(items, url).value;
            var r := WithLocalInfo(items, url, b, info);
            && (forall i :: 0 <= i < |items| && items[i].url != url ==> r[i] == items[i])
            && (forall i :: 0 <= i < |items| && items[i].url == url ==>
                  r[i].localInfo == info && r[i].url == url && r[i].name == b.name
                  && r[i].versionOrFileName == b.versionOrFileName)
  {
  }

  /** `removeIf { it.url == url }`: the items with other urls, in order. */
  function RemoveUrl(items: seq<GameBasic>, url: string): (r: seq<GameBasic>)
    ensures |r| <= |items|
    ensures forall x :: x in r <==> x in items && x.url != url
  {
    if items == [] then []
    else (if items[0].url != url then [items[0]] else []) + RemoveUrl(items[1..], url)
  }

  /** Removing a url no item has keeps the list. */
  lemma {:induction false} RemoveAbsentKeeps(items: seq<GameBasic>, url: string)
    requires forall i :: 0 <= i < |items| ==> items[i].url != url
    ensures RemoveUrl(items, url) == items
  {
    if items != [] {
      assert forall i :: 0 <= i < |items[1..]| ==> items[1..][i] == items[i + 1];
      RemoveAbsentKeeps(items[1..], url);
      assert items == [items[0]] + items[1..];
    }
  }

  /** No item with the url is left, so removing again changes nothing. */
  lemma {:induction false} RemoveUrlIdempotent(items: seq<GameBasic>, url: string)
    ensures forall i :: 0 <= i < |RemoveUrl(items, url)| ==> RemoveUrl(items, url)[i].url != url
    ensures RemoveUrl(RemoveUrl(items, url), url) == RemoveUrl(items, url)
  {
    var r := RemoveUrl(items, url);
    assert forall i :: 0 <= i < |r| ==> r[i] in r;
    RemoveAbsentKeeps(r, url);
  }

  /** The filter of the library screen: a keyword and the selected tags. */
  datatype FilterState<T> = FilterState(keyword: string, tags: set<T>)

  /** UpdateFilter: each field is overwritten only when it is given. */
  function UpdateFilterSpec<T>(f: FilterState<T>, keyword: Option<string>, tags: Option<set<T>>): (r: FilterState<T>)
    ensures r.keyword == if keyword.Some? then keyword.value else f.keyword
    ensures r.tags == if tags.Some? then tags.value else f.tags
  {
    FilterState(keyword.GetOr(f.keyword), tags.GetOr(f.tags))
  }

  /** Giving nothing keeps the filter, and giving the same values again changes nothing. */
  lemma {:induction false} UpdateFilterLaws<T>(f: FilterState<T>, keyword: Option<string>, tags: Option<set<T>>)
    ensures UpdateFilterSpec(f, None, None) == f
    ensures UpdateFilterSpec(UpdateFilterSpec(f, keyword, tags), keyword, tags) == UpdateFilterSpec(f, keyword, tags)
  {
  }

  /** Why an intent stopped before it finished. */
  datatype IntentError =
    | GameNotFound            // Exception("cannot find the specified game")
    | RepositoryFailed(f: Failure)

  function IntentErrorMessage(e: IntentError): Option<string> {
    match e
    case GameNotFound => Some("cannot find the specified game")
    case RepositoryFailed(f) => FailureMessage(f)
  }

  /** The annotation patch of Mark: the item's version as played, at `now`. */
  function MarkPatch(b: GameBasic, now: nat): InfoPatch {
    InfoPatch(None, b.versionOrFileName, Some(now), None)
  }

  /** The annotation patch of Star: the item's starred flag inverted. */
  function StarPatch(b: GameBasic): InfoPatch {
    InfoPatch(None, None, None, Some(!b.localInfo.starred))
  }

  /** "unstarred" when the item was starred, else "starred". */
  function StarMessage(b: GameBasic): string {
    if b.localInfo.starred then "unstarred" else "starred"
  }

  /** After Mark the item records `now` and shows no update, keeping its star. */
  lemma {:induction false} MarkEffect(b: GameBasic, info: LocalInfo, now: nat)
    requires b.versionOrFileName.Some?
    ensures var u := ApplyPatch(info, MarkPatch(b, now));
            && u.lastPlayedTime == Some(now)
            && u.starred == info.starred && u.blurb == info.blurb && u.url == info.url
            && !HasUpdate(b.(localInfo := u))
  {
    PatchEffect(info, MarkPatch(b, now));
  }

  /** Star flips the item's flag; starring the result again restores the annotation when
      it was in step with the item. */
  lemma {:induction false} StarEffect(b: GameBasic, info: LocalInfo)
    ensures var u := ApplyPatch(info, StarPatch(b));
            && u.starred == !b.localInfo.starred
            && u.blurb == info.blurb && u.lastPlayedVersion == info.lastPlayedVersion
            && u.lastPlayedTime == info.lastPlayedTime && u.url == info.url
            && (info.starred == b.localInfo.starred ==>
                  ApplyPatch(u, StarPatch(b.(localInfo := u))) == info)
  {
  }
}
