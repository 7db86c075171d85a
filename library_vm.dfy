/** The library screen's view model: the sorted item list, the sort keys (persisted in
    the preferences), the filter, the detail panel and the messages it sends, driven by
    the intents Refresh, ClickItem, Sort, UpdateFilter, SyncRepository, Remove, Mark and
    Star over the game repository. */
module Library {
  import opened Wrappers
  import opened Tags
  import opened Games
  import opened Repository
  import opened Sorting
  import opened Preferences
  import opened LibraryCommon

  datatype LibraryUiState = LibraryUiState(
    sortTypes: set<SortType>,
    progress: Option<(nat, nat)>,   // index / size while a long refresh runs
    loading: bool,
    timeFormat: TimeFormat)

  datatype DetailState = DetailState(game: Option<Game>, localInfo: Option<LocalInfo>)

  class LibraryViewModel {
    var items: seq<GameBasic>
    var ui: LibraryUiState
    var filter: FilterState<FilterTag>
    var detail: DetailState
    var messages: seq<string>
    const repo: GameRepository
    const prefs: UserPreferences

    predicate Valid()
      reads this, repo
    {
      repo.Valid()
    }

    /** The initial state: no item, sorted by name, nothing selected. */
    constructor (repo: GameRepository, prefs: UserPreferences)
      requires repo.Valid()
      ensures Valid() && this.repo == repo && this.prefs == prefs
      ensures items == [] && messages == []
      ensures ui == LibraryUiState({Name}, None, false, DetailedRelative)
      ensures filter == FilterState("", {}) && detail == DetailState(None, None)
    {
      this.repo := repo;
      this.prefs := prefs;
      items := [];
      ui := LibraryUiState({Name}, None, false, DetailedRelative);
      filter := FilterState("", {});
      detail := DetailState(None, None);
      messages := [];
    }

    /** The `init` block: the stored games are loaded and appended; once the load has
        finished the saved sort keys are read. The time format is read independently. */
    method Start() returns (err: Option<Failure>)
      requires Valid()
      modifies this, repo
      ensures Valid()
      ensures ListsTable(repo.latestGames, repo.gameTable)
      ensures repo.gameTable == old(repo.gameTable) && repo.infoTable == old(repo.infoTable)
      ensures |old(items)| <= |items| <= |old(items)| + |repo.latestGames| && items[..|old(items)|] == old(items)
      ensures forall i :: 0 <= i < |items| - |old(items)| ==>
                BasicOf(repo.State(), repo.latestGames[i]) == Success(items[|old(items)| + i])
      ensures err.None? ==> |items| == |old(items)| + |repo.latestGames|
                            && ui.sortTypes == prefs.SortTypesFlow()
      ensures err.Some? ==> ui.sortTypes == old(ui.sortTypes)
      ensures ui.timeFormat == prefs.TimeFormatFlow()
      ensures ui.progress == old(ui.progress) && ui.loading == old(ui.loading)
      ensures filter == old(filter) && detail == old(detail) && messages == old(messages)
    {
      var outs;
      outs, err := repo.Load();
      items := items + outs;
      if err.None? {
        ui := ui.(sortTypes := prefs.SortTypesFlow());
      }
      ui := ui.(timeFormat := prefs.TimeFormatFlow());
    }

    /** Refresh: every listed game is fetched again; each success replaces the items with
        its url, a long refresh shows its progress, the summary is sent once every item
        has been answered, and the list is sorted at the end. */
    method Refresh() returns (outs: seq<Outcome>, shown: seq<(nat, nat)>)
      requires Valid()
      modifies this, repo
      ensures Valid()
      ensures (repo.State(), outs) == RefreshAll(old(repo.State()), repo.fetch, UrlsOf(old(repo.latestGames)))
      ensures items == SortItems(ui.sortTypes, RefreshItems(old(items), outs))
      ensures messages == old(messages) + RefreshMessages(outs, |old(items)|)
      ensures shown == ProgressTrace(|outs|, |old(items)|)
      ensures ui == old(ui).(loading := false, progress := None)
      ensures filter == old(filter) && detail == old(detail)
    {
      ui := ui.(loading := true);
      outs := repo.Refresh();
      shown := CollectRefresh(outs);
      ui := ui.(loading := false, progress := None);
      items := SortItems(ui.sortTypes, items);
    }

    /** The `collect` of Refresh: `index` counts every outcome, `successIndex` the
        successes. */
    method CollectRefresh(outs: seq<Outcome>) returns (shown: seq<(nat, nat)>)
      modifies this
      ensures items == RefreshItems(old(items), outs)
      ensures messages == old(messages) + RefreshMessages(outs, |old(items)|)
      ensures shown == ProgressTrace(|outs|, |old(items)|)
      ensures ui.sortTypes == old(ui.sortTypes) && ui.timeFormat == old(ui.timeFormat)
      ensures filter == old(filter) && detail == old(detail)
    {
      var size := |items|;
      ghost var start := items;
      ghost var before := messages;
      var successIndex := 0;
      var index := 0;
      shown := [];
      while index < |outs|
        invariant 0 <= index <= |outs|
        invariant successIndex == Successes(outs[..index])
        invariant items == RefreshItems(start, outs[..index])
        invariant messages == before + RefreshMessages(outs[..index], size)
        invariant shown == ProgressTrace(index, size)
        invariant ui.sortTypes == old(ui.sortTypes) && ui.timeFormat == old(ui.timeFormat)
        invariant filter == old(filter) && detail == old(detail)
      {
        RefreshPrefixStep(start, outs, size, index);
        var step;
        index, successIndex, step := OnRefreshOutcome(outs[index], index, size, successIndex);
        shown := shown + step;
      }
      assert outs[..index] == outs;
    }

    /** The body of the `collect` over the refresh results: the counter, the item, the
        progress, and the summary once the last result has come. */
    method OnRefreshOutcome(o: Outcome, index: nat, size: nat, successIndex: nat)
      returns (nextIndex: nat, nextSuccess: nat, step: seq<(nat, nat)>)
      modifies this
      ensures nextIndex == index + 1
      ensures nextSuccess == successIndex + (if o.Success? then 1 else 0)
      ensures items == if o.Success? then ReplaceItems(old(items), o.value) else old(items)
      ensures messages == old(messages) + (if nextIndex >= size then [RefreshSummary(nextSuccess, size)] else [])
      ensures step == if size >= 5 then [(nextIndex, size)] else []
      ensures ui.sortTypes == old(ui.sortTypes) && ui.timeFormat == old(ui.timeFormat)
      ensures filter == old(filter) && detail == old(detail)
    {
      nextIndex, nextSuccess, step := index + 1, successIndex, [];
      if o.Success? {
        nextSuccess := nextSuccess + 1;
        items := ReplaceItems(items, o.value);
      }
      if size >= 5 {
        ui := ui.(progress := Some((nextIndex, size)));
        step := [(nextIndex, size)];
      }
      if nextIndex >= size {
        ui := ui.(loading := false, progress := None);
        messages := messages + [RefreshSummary(nextSuccess, size)];
      }
    }

    /** ClickItem: the detail panel shows the game and its annotation; a failing lookup
        stops the intent with the panel as it was. */
    method ClickItem(url: string) returns (err: Option<IntentError>)
      requires Valid()
      modifies this, repo
      ensures Valid()
      ensures var (t, r) := GameFullSpec(old(repo.State()), repo.fetch, url, false);
              && repo.State() == t
              && (r.Failure? ==> err == Some(RepositoryFailed(r.error)) && detail == old(detail))
              && (r.Success? && LocalInfoOf(t, url).Failure? ==>
                    err == Some(RepositoryFailed(LocalInfoOf(t, url).error)) && detail == old(detail))
              && (r.Success? && LocalInfoOf(t, url).Success? ==>
                    err.None? && detail == DetailState(Some(r.value), Some(LocalInfoOf(t, url).value)))
      ensures items == old(items) && ui == old(ui) && filter == old(filter) && messages == old(messages)
    {
      var g := repo.GetGameFull(url, false);
      if g.Failure? {
        return Some(RepositoryFailed(g.error));
      }
      var info := repo.GetLocalInfo(url);
      if info.Failure? {
        return Some(RepositoryFailed(info.error));
      }
      detail := DetailState(Some(g.value), Some(info.value));
      return None;
    }

    /** Sort: the key set changes by the toggle rule, is saved, and the list is sorted. */
    method Sort(t: SortType)
      modifies this, prefs
      ensures ui == old(ui).(sortTypes := ToggleSort(old(ui.sortTypes), t))
      ensures prefs.sortTypes == Some(EncodeSortTypes(ui.sortTypes)) && prefs.SortTypesFlow() == ui.sortTypes
      ensures prefs.timeFormat == old(prefs.timeFormat) && prefs.searchSortType == old(prefs.searchSortType)
      ensures prefs.searchType == old(prefs.searchType) && prefs.threadCount == old(prefs.threadCount)
      ensures items == SortItems(ui.sortTypes, old(items))
      ensures filter == old(filter) && detail == old(detail) && messages == old(messages)
    {
      var newSet := ui.sortTypes;
      if t == TimeReverse {
        newSet := newSet - {Name};
        newSet := newSet + {TimeReverse};
      } else if t == Name {
        newSet := newSet - {TimeReverse};
        newSet := newSet + {Name};
      } else if t in ui.sortTypes {
        newSet := newSet - {t};
      } else {
        newSet := newSet + {t};
      }
      ui := ui.(sortTypes := newSet);
      prefs.SaveSortTypes(newSet);
      items := SortItems(ui.sortTypes, items);
    }

    /** UpdateFilter: the keyword and the selected tags are replaced when given. */
    method UpdateFilter(keyword: Option<string>, filterTags: Option<set<FilterTag>>)
      modifies this
      ensures filter == UpdateFilterSpec(old(filter), keyword, filterTags)
      ensures items == old(items) && ui == old(ui) && detail == old(detail) && messages == old(messages)
    {
      if keyword.Some? {
        filter := filter.(keyword := keyword.value);
      }
      if filterTags.Some? {
        filter := filter.(tags := filterTags.value);
      }
    }

    /** SyncRepository: when the repository lists more games than the screen, the views
        of all of them replace the list; the list is sorted either way. */
    method SyncRepository() returns (err: Option<IntentError>)
      modifies this
      ensures repo.Size() > |old(items)| && repo.SyncGameBasic().Failure? ==>
                err == Some(RepositoryFailed(repo.SyncGameBasic().error)) && items == old(items)
      ensures repo.Size() > |old(items)| && repo.SyncGameBasic().Success? ==>
                err.None? && items == SortItems(ui.sortTypes, repo.SyncGameBasic().value)
      ensures repo.Size() <= |old(items)| ==> err.None? && items == SortItems(ui.sortTypes, old(items))
      ensures ui == old(ui) && filter == old(filter) && detail == old(detail) && messages == old(messages)
    {
      if repo.Size() > |items| {
        var r := repo.SyncGameBasic();
        if r.Failure? {
          return Some(RepositoryFailed(r.error));
        }
        items := r.value;
      }
      items := SortItems(ui.sortTypes, items);
      return None;
    }

    /** Remove: the game is deleted from the repository; only if that succeeds are its
        items dropped. */
    method Remove(url: string) returns (ok: bool)
      requires Valid()
      modifies this, repo
      ensures Valid()
      ensures (repo.State(), ok) == DeleteSpec(old(repo.State()), url)
      ensures ok ==> items == RemoveUrl(old(items), url) && messages == old(messages) + ["removed"]
      ensures !ok ==> items == old(items) && messages == old(messages) + ["failed to remove"]
      ensures ui == old(ui) && filter == old(filter) && detail == old(detail)
    {
      ok := repo.DeleteGame(url);
      if ok {
        items := RemoveUrl(items, url);
        messages := messages + ["removed"];
      } else {
        messages := messages + ["failed to remove"];
      }
    }

    /** The shared tail of Mark and Star: the items with `url` take the first such item
        with the new annotation, the detail panel follows when it shows that url, and the
        list is sorted. */
    method ApplyInfo(url: string, b: GameBasic, info: LocalInfo)
      modifies this
      ensures items == SortItems(ui.sortTypes, WithLocalInfo(old(items), url, b, info))
      ensures detail == if old(detail).game.Some? && old(detail).game.value.url == url
                        then old(detail).(localInfo := Some(info)) else old(detail)
      ensures ui == old(ui) && filter == old(filter) && messages == old(messages)
    {
      items := WithLocalInfo(items, url, b, info);
      if detail.game.Some? && detail.game.value.url == url {
        detail := detail.(localInfo := Some(info));
      }
      items := SortItems(ui.sortTypes, items);
    }

    /** Mark: the item's version is recorded as played at `now`. */
    method Mark(url: string, now: nat) returns (err: Option<IntentError>)
      requires Valid()
      modifies this, repo
      ensures Valid()
      ensures FirstByUrl(old(items), url).None? ==>
                err == Some(GameNotFound) && repo.State() == old(repo.State())
                && items == old(items) && detail == old(detail) && messages == old(messages)
      ensures FirstByUrl(old(items), url).Some? ==>
                var b := FirstByUrl(old(items), url).value;
                var (t, r) := UpdateSpec(old(repo.State()), url, MarkPatch(b, now));
                && repo.State() == t
                && (r.Failure? ==> err == Some(RepositoryFailed(r.error)) && items == old(items)
                                   && detail == old(detail) && messages == old(messages))
                && (r.Success? ==> err.None?
                                   && items == SortItems(ui.sortTypes, WithLocalInfo(old(items), url, b, r.value))
                                   && detail == (if old(detail).game.Some? && old(detail).game.value.url == url
                                                 then old(detail).(localInfo := Some(r.value)) else old(detail))
                                   && messages == old(messages) + ["marked"])
      ensures ui == old(ui) && filter == old(filter)
    {
      var found := FirstByUrl(items, url);
      if found.None? {
        return Some(GameNotFound);
      }
      var b := found.value;
      var r := repo.UpdateLocalInfo(url, MarkPatch(b, now));
      if r.Failure? {
        return Some(RepositoryFailed(r.error));
      }
      ApplyInfo(url, b, r.value);
      messages := messages + ["marked"];
      return None;
    }

    /** Star: the item's starred flag is inverted. */
    method Star(url: string) returns (err: Option<IntentError>)
      requires Valid()
      modifies this, repo
      ensures Valid()
      ensures FirstByUrl(old(items), url).None? ==>
                err == Some(GameNotFound) && repo.State() == old(repo.State())
                && items == old(items) && detail == old(detail) && messages == old(messages)
      ensures FirstByUrl(old(items), url).Some? ==>
                var b := FirstByUrl(old(items), url).value;
                var (t, r) := UpdateSpec(old(repo.State()), url, StarPatch(b));
                && repo.State() == t
                && (r.Failure? ==> err == Some(RepositoryFailed(r.error)) && items == old(items)
                                   && detail == old(detail) && messages == old(messages))
                && (r.Success? ==> err.None?
                                   && items == SortItems(ui.sortTypes, WithLocalInfo(old(items), url, b, r.value))
                                   && detail == (if old(detail).game.Some? && old(detail).game.value.url == url
                                                 then old(detail).(localInfo := Some(r.value)) else old(detail))
                                   && messages == old(messages) + [StarMessage(b)])
      ensures ui == old(ui) && filter == old(filter)
    {
      var found := FirstByUrl(items, url);
      if found.None? {
        return Some(GameNotFound);
      }
      var b := found.value;
      var r := repo.UpdateLocalInfo(url, StarPatch(b));
      if r.Failure? {
        return Some(RepositoryFailed(r.error));
      }
      ApplyInfo(url, b, r.value);
      messages := messages + [StarMessage(b)];
      return None;
    }
  }
}
