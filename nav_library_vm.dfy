/** The older library view model: the same item list, sort keys and intents as the newer
    one, with these differences: the sort keys are not saved, the filter selects older
    `Tag`s, SyncRepository sorts only when it reloads, Star and Mark neither re-sort nor
    touch a detail panel, and ClickItem only navigates. */
module NavLibrary {
  import opened Wrappers
  import opened Tags
  import opened Games
  import opened Repository
  import opened Sorting
  import opened LibraryCommon

  datatype LibraryUiState = LibraryUiState(
    sortTypes: set<SortType>,
    progress: Option<(nat, nat)>,   // index / size while a long refresh runs
    loading: bool)

  class LibraryViewModel {
    var items: seq<GameBasic>
    var ui: LibraryUiState
    var filter: FilterState<Tag>
    var messages: seq<string>
    const repo: GameRepository

    predicate Valid()
      reads this, repo
    {
      repo.Valid()
    }

    /** The initial state: no item, sorted by name, nothing selected. */
    constructor (repo: GameRepository)
      requires repo.Valid()
      ensures Valid() && this.repo == repo
      ensures items == [] && messages == []
      ensures ui == LibraryUiState({Name}, None, false)
      ensures filter == FilterState("", {})
    {
      this.repo := repo;
      items := [];
      ui := LibraryUiState({Name}, None, false);
      filter := FilterState("", {});
      messages := [];
    }

    /** The `init` block: the stored games are loaded and appended. */
    method Start() returns (err: Option<Failure>)
      requires Valid()
      modifies this, repo
      ensures Valid()
      ensures ListsTable(repo.latestGames, repo.gameTable)
      ensures repo.gameTable == old(repo.gameTable) && repo.infoTable == old(repo.infoTable)
      ensures |old(items)| <= |items| <= |old(items)| + |repo.latestGames| && items[..|old(items)|] == old(items)
      ensures forall i :: 0 <= i < |items| - |old(items)| ==>
                BasicOf(repo.State(), repo.latestGames[i]) == Success(items[|old(items)| + i])
      ensures err.None? ==> |items| == |old(items)| + |repo.latestGames|
      ensures ui == old(ui) && filter == old(filter) && messages == old(messages)
    {
      var outs;
      outs, err := repo.Load();
      items := items + outs;
    }

    /** Refresh, through `getGameBasics(true)`: as in the newer view model. */
    method Refresh() returns (outs: seq<Outcome>, shown: seq<(nat, nat)>)
      requires Valid()
      modifies this, repo
      ensures Valid()
      ensures (repo.State(), outs) == RefreshAll(old(repo.State()), repo.fetch, UrlsOf(old(repo.latestGames)))
      ensures items == SortItems(ui.sortTypes, RefreshItems(old(items), outs))
      ensures messages == old(messages) + RefreshMessages(outs, |old(items)|)
      ensures shown == ProgressTrace(|outs|, |old(items)|)
      ensures ui == old(ui).(loading := false, progress := None)
      ensures filter == old(filter)
    {
      ui := ui.(loading := true);
      outs := repo.Refresh();
      shown := CollectRefresh(outs);
      ui := ui.(loading := false, progress := None);
      items := SortItems(ui.sortTypes, items);
    }

    /** The `collect` of Refresh. */
    method CollectRefresh(outs: seq<Outcome>) returns (shown: seq<(nat, nat)>)
      modifies this
      ensures items == RefreshItems(old(items), outs)
      ensures messages == old(messages) + RefreshMessages(outs, |old(items)|)
      ensures shown == ProgressTrace(|outs|, |old(items)|)
      ensures ui.sortTypes == old(ui.sortTypes) && filter == old(filter)
    {
      var size := |items|;
      ghost var start := items;
      ghost var before := messages;
      var successIndex := 0;
      var index := 0;
      shown := [];
      while index < |outs|
        invariant 0 <= index <= |outs|
        invariant successIndex == Successes(outs[..index])
        invariant items == RefreshItems(start, outs[..index])
        invariant messages == before + RefreshMessages(outs[..index], size)
        invariant shown == ProgressTrace(index, size)
        invariant ui.sortTypes == old(ui.sortTypes) && filter == old(filter)
      {
        RefreshPrefixStep(start, outs, size, index);
        var step;
        index, successIndex, step := OnRefreshOutcome(outs[index], index, size, successIndex);
        shown := shown + step;
      }
      assert outs[..index] == outs;
    }

    /** The body of the `collect` over the refresh results: the counter, the item, the
        progress, and the summary once the last result has come. */
    method OnRefreshOutcome(o: Outcome, index: nat, size: nat, successIndex: nat)
      returns (nextIndex: nat, nextSuccess: nat, step: seq<(nat, nat)>)
      modifies this
      ensures nextIndex == index + 1
      ensures nextSuccess == successIndex + (if o.Success? then 1 else 0)
      ensures items == if o.Success? then ReplaceItems(old(items), o.value) else old(items)
      ensures messages == old(messages) + (if nextIndex >= size then [RefreshSummary(nextSuccess, size)] else [])
      ensures step == if size >= 5 then [(nextIndex, size)] else []
      ensures ui.sortTypes == old(ui.sortTypes) && filter == old(filter)
    {
      nextIndex, nextSuccess, step := index + 1, successIndex, [];
      if o.Success? {
        nextSuccess := nextSuccess + 1;
        items := ReplaceItems(items, o.value);
      }
      if size >= 5 {
        ui := ui.(progress := Some((nextIndex, size)));
        step := [(nextIndex, size)];
      }
      if nextIndex >= size {
        ui := ui.(loading := false, progress := None);
        messages := messages + [RefreshSummary(nextSuccess, size)];
      }
    }

    /** Sort: the key set changes by the toggle rule and the list is sorted; nothing is
        saved. */
    method Sort(t: SortType)
      modifies this
      ensures ui == old(ui).(sortTypes := ToggleSort(old(ui.sortTypes), t))
      ensures items == SortItems(ui.sortTypes, old(items))
      ensures filter == old(filter) && messages == old(messages)
    {
      var newSet := ui.sortTypes;
      if t == TimeReverse {
        newSet := newSet - {Name};
        newSet := newSet + {TimeReverse};
      } else if t == Name {
        newSet := newSet - {TimeReverse};
        newSet := newSet + {Name};
      } else if t in ui.sortTypes {
        newSet := newSet - {t};
      } else {
        newSet := newSet + {t};
      }
      ui := ui.(sortTypes := newSet);
      items := SortItems(ui.sortTypes, items);
    }

    /** UpdateFilter: the keyword and the selected tags are replaced when given. */
    method UpdateFilter(keyword: Option<string>, tags: Option<set<Tag>>)
      modifies this
      ensures filter == UpdateFilterSpec(old(filter), keyword, tags)
      ensures items == old(items) && ui == old(ui) && messages == old(messages)
    {
      if keyword.Some? {
        filter := filter.(keyword := keyword.value);
      }
      if tags.Some? {
        filter := filter.(tags := tags.value);
      }
    }

    /** SyncRepository: only when the repository lists more games than the screen are the
        views of all of them taken, and only then sorted. */
    method SyncRepository() returns (err: Option<IntentError>)
      modifies this
      ensures repo.Size() > |old(items)| && repo.SyncGameBasic().Failure? ==>
                err == Some(RepositoryFailed(repo.SyncGameBasic().error)) && items == old(items)
      ensures repo.Size() > |old(items)| && repo.SyncGameBasic().Success? ==>
                err.None? && items == SortItems(ui.sortTypes, repo.SyncGameBasic().value)
      ensures repo.Size() <= |old(items)| ==> err.None? && items == old(items)
      ensures ui == old(ui) && filter == old(filter) && messages == old(messages)
    {
      if repo.Size() > |items| {
        var r := repo.SyncGameBasic();
        if r.Failure? {
          return Some(RepositoryFailed(r.error));
        }
        items := r.value;
        items := SortItems(ui.sortTypes, items);
      }
      return None;
    }

    /** Remove: the items go only when the repository deleted the game. */
    method Remove(url: string) returns (ok: bool)
      requires Valid()
      modifies this, repo
      ensures Valid()
      ensures (repo.State(), ok) == DeleteSpec(old(repo.State()), url)
      ensures ok ==> items == RemoveUrl(old(items), url) && messages == old(messages) + ["removed"]
      ensures !ok ==> items == old(items) && messages == old(messages) + ["failed to remove"]
      ensures ui == old(ui) && filter == old(filter)
    {
      ok := repo.DeleteGame(url);
      if ok {
        items := RemoveUrl(items, url);
        messages := messages + ["removed"];
      } else {
        messages := messages + ["failed to remove"];
      }
    }

    /** Mark: the item's version is recorded as played at `now`; the list keeps its order. */
    method Mark(url: string, now: nat) returns (err: Option<IntentError>)
      requires Valid()
      modifies this, repo
      ensures Valid()
      ensures FirstByUrl(old(items), url).None? ==>
                err == Some(GameNotFound) && repo.State() == old(repo.State())
                && items == old(items) && messages == old(messages)
      ensures FirstByUrl(old(items), url).Some? ==>
                var b := FirstByUrl(old(items), url).value;
                var (t, r) := UpdateSpec(old(repo.State()), url, MarkPatch(b, now));
                && repo.State() == t
                && (r.Failure? ==> err == Some(RepositoryFailed(r.error)) && items == old(items)
                                   && messages == old(messages))
                && (r.Success? ==> err.None?
                                   && items == WithLocalInfo(old(items), url, b, r.value)
                                   && messages == old(messages) + ["marked"])
      ensures ui == old(ui) && filter == old(filter)
    {
      var found := FirstByUrl(items, url);
      if found.None? {
        return Some(GameNotFound);
      }
      var b := found.value;
      var r := repo.UpdateLocalInfo(url, MarkPatch(b, now));
      if r.Failure? {
        return Some(RepositoryFailed(r.error));
      }
      items := WithLocalInfo(items, url, b, r.value);
      messages := messages + ["marked"];
      return None;
    }

    /** Star: the item's starred flag is inverted; the list keeps its order. */
    method Star(url: string) returns (err: Option<IntentError>)
      requires Valid()
      modifies this, repo
      ensures Valid()
      ensures FirstByUrl(old(items), url).None? ==>
                err == Some(GameNotFound) && repo.State() == old(repo.State())
                && items == old(items) && messages == old(messages)
      ensures FirstByUrl(old(items), url).Some? ==>
                var b := FirstByUrl(old(items), url).value;
                var (t, r) := UpdateSpec(old(repo.State()), url, StarPatch(b));
                && repo.State() == t
                && (r.Failure? ==> err == Some(RepositoryFailed(r.error)) && items == old(items)
                                   && messages == old(messages))
                && (r.Success? ==> err.None?
                                   && items == WithLocalInfo(old(items), url, b, r.value)
                                   && messages == old(messages) + [StarMessage(b)])
      ensures ui == old(ui) && filter == old(filter)
    {
      var found := FirstByUrl(items, url);
      if found.None? {
        return Some(GameNotFound);
      }
      var b := found.value;
      var r := repo.UpdateLocalInfo(url, StarPatch(b));
      if r.Failure? {
        return Some(RepositoryFailed(r.error));
      }
      items := WithLocalInfo(items, url, b, r.value);
      messages := messages + [StarMessage(b)];
      return None;
    }
  }
}
