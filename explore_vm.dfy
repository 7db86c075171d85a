/** The explore screen's view model: the search state (sort type, loading flags, the
    last search result and the full tag list), the detail panel of a clicked result and
    the messages it sends, driven by the intents ClickItem, SearchByKeyword, SearchByTag,
    AllTags, Star and AddLocal.

    The site is the function `pageAt`: the parsed search page of an address, or the
    message of the request that failed. */
module Explore {
  import opened Wrappers
  import opened Tags
  import opened Games
  import opened Repository
  import opened Preferences
  import opened SearchModel
  import opened SearchUrls
  import opened TagStore
  import Library
  import Imports

  datatype ExploreUiState = ExploreUiState(
    sortType: SearchSortType,
    searchLoading: bool,
    detailLoading: bool,
    searchApiModel: Option<SearchApiModel>,
    allTags: seq<SearchTag>)

  /** A search: the request's failure, or the model of the page it returned. */
  function SearchAt(pageAt: string -> Result<SearchPage, string>, url: string): (r: Result<SearchApiModel, string>)
    ensures pageAt(url).Failure? ==> r == Failure(pageAt(url).error)
    ensures pageAt(url).Success? ==> r == ToSearchApiModel(pageAt(url).value)
  {
    match pageAt(url)
    case Failure(e) => Failure(e)
    case Success(page) => ToSearchApiModel(page)
  }

  /** The sort type a tag search runs with: the one supplied, else the current one. */
  function ChosenSort(current: SearchSortType, requested: Option<SearchSortType>): SearchSortType {
    requested.GetOr(current)
  }

  /** The patch of Star: the stored flag inverted, nothing else written. */
  function FlipStar(info: LocalInfo): InfoPatch {
    InfoPatch(None, None, None, Some(!info.starred))
  }

  /** "unstarred" when the annotation was starred, else "starred". */
  function StarredMessage(info: LocalInfo): string {
    if info.starred then "unstarred" else "starred"
  }

  /** The detail panel after a star: the new annotation is shown only when the panel
      shows that game. */
  function ShowInfo(d: Library.DetailState, url: string, info: LocalInfo): (r: Library.DetailState)
    ensures r.game == d.game
    ensures d.game.Some? && d.game.value.url == url ==> r.localInfo == Some(info)
    ensures !(d.game.Some? && d.game.value.url == url) ==> r == d
  {
    if d.game.Some? && d.game.value.url == url then d.(localInfo := Some(info)) else d
  }

  /** The message of a failure, when it has one. */
  function Toast(m: Option<string>): (r: seq<string>)
    ensures m.Some? ==> r == [m.value]
    ensures m.None? ==> r == []
  {
    if m.Some? then [m.value] else []
  }

  /** Starring twice restores the annotation: the second flip writes back the first
      annotation and leaves the tables as they were. */
  lemma {:induction false} FlipTwiceRestores(t: Tables, url: string)
    requires TablesValid(t) && url in t.infos
    ensures var (t1, r1) := UpdateSpec(t, url, FlipStar(t.infos[url]));
            && r1.Success? && r1.value.starred == !t.infos[url].starred
            && StarredMessage(r1.value) != StarredMessage(t.infos[url])
            && UpdateSpec(t1, url, FlipStar(r1.value)) == (t, Success(t.infos[url]))
  {
    var info := t.infos[url];
    UpdateEffect(t, url, FlipStar(info));
    var (t1, r1) := UpdateSpec(t, url, FlipStar(info));
    UpdateEffect(t1, url, FlipStar(r1.value));
    assert ApplyPatch(r1.value, FlipStar(r1.value)) == info;
    assert t1.infos[url := info] == t.infos;
    assert t1.(infos := t.infos) == t;
  }

  /** A game imported by Star gets a fresh annotation, so the flip stars it and the
      message says "starred". */
  lemma {:induction false} ImportedThenStarred(t: Tables, fetch: string -> Result<Game, FetchError>, url: string)
    requires TablesValid(t) && url !in t.games && AddOne(t, fetch, url, None, false).1.Success?
    ensures var t1 := AddOne(t, fetch, url, None, false).0;
            && url in t1.infos && t1.infos[url] == FreshLocalInfo(url, None)
            && StarredMessage(t1.infos[url]) == "starred"
            && UpdateSpec(t1, url, FlipStar(t1.infos[url])).1 == Success(FreshLocalInfo(url, None).(starred := true))
  {
    var t1 := AddOne(t, fetch, url, None, false).0;
    AddPlainSuccess(t, fetch, url, None);
    assert t1.infos == t.infos[url := FreshLocalInfo(url, None)];
  }

  class ExploreViewModel {
    var ui: ExploreUiState
    var detail: Library.DetailState
    var messages: seq<string>
    const repo: GameRepository
    const tagRepo: SearchTagRepository
    const prefs: UserPreferences
    const pageAt: string -> Result<SearchPage, string>

    predicate Valid()
      reads this, repo, tagRepo, tagRepo.store
    {
      repo.Valid() && tagRepo.store.Valid()
    }

    /** The initial state: sorted by popularity, nothing loading, no result, no tag. */
    constructor (repo: GameRepository, tagRepo: SearchTagRepository, prefs: UserPreferences,
                 pageAt: string -> Result<SearchPage, string>)
      requires repo.Valid() && tagRepo.store.Valid()
      ensures Valid() && this.repo == repo && this.tagRepo == tagRepo && this.prefs == prefs
      ensures this.pageAt == pageAt
      ensures ui == ExploreUiState(Popular, false, false, None, [])
      ensures detail == Library.DetailState(None, None) && messages == []
    {
      this.repo := repo;
      this.tagRepo := tagRepo;
      this.prefs := prefs;
      this.pageAt := pageAt;
      ui := ExploreUiState(Popular, false, false, None, []);
      detail := Library.DetailState(None, None);
      messages := [];
    }

    /** The `init` block: the saved search sort type replaces the current one. */
    method Start()
      modifies this
      ensures ui == old(ui).(sortType := prefs.SearchSortTypeFlow())
      ensures detail == old(detail) && messages == old(messages)
    {
      ui := ui.(sortType := prefs.SearchSortTypeFlow());
    }

    /** ClickItem: the game is looked up (listed, cached or fetched) and shown with its
        annotation, or with none when the game is not in the library; the detail flag is
        lowered first and raised once the panel is filled. A failing lookup stops the
        intent with the flag lowered and the panel as it was. */
    method ClickItem(url: string) returns (err: Option<Failure>)
      requires Valid()
      modifies this, repo
      ensures Valid()
      ensures var (t, g) := GameFullSpec(old(repo.State()), repo.fetch, url, false);
              && repo.State() == t
              && (g.Failure? ==>
                    err == Some(g.error) && detail == old(detail) && ui == old(ui).(detailLoading := false))
              && (g.Success? && url !in t.games ==>
                    err.None? && detail == Library.DetailState(Some(g.value), None)
                    && ui == old(ui).(detailLoading := true))
              && (g.Success? && url in t.games && url !in t.infos ==>
                    err == Some(MissingLocalInfo) && detail == old(detail)
                    && ui == old(ui).(detailLoading := false))
              && (g.Success? && url in t.games && url in t.infos ==>
                    err.None? && detail == Library.DetailState(Some(g.value), Some(t.infos[url]))
                    && ui == old(ui).(detailLoading := true))
      ensures messages == old(messages)
    {
      ui := ui.(detailLoading := false);
      var g := repo.GetGameFull(url, false);
      if g.Failure? {
        return Some(g.error);
      }
      var info: Option<LocalInfo> := None;
      if repo.ExistLocalGame(url) {
        var r := repo.GetLocalInfo(url);
        if r.Failure? {
          return Some(r.error);
        }
        info := Some(r.value);
      }
      detail := Library.DetailState(Some(g.value), info);
      ui := ui.(detailLoading := true);
      return None;
    }

    /** SearchByKeyword: the games matching the keyword; a result replaces the shown one,
        a failure is sent as a message and keeps it; loading ends either way. */
    method SearchByKeyword(keyword: string) returns (r: Result<SearchApiModel, string>)
      modifies this
      ensures r == SearchAt(pageAt, KeywordSearchUrl(keyword, "game"))
      ensures r.Success? ==> ui == old(ui).(searchLoading := false, searchApiModel := Some(r.value))
                             && messages == old(messages)
      ensures r.Failure? ==> ui == old(ui).(searchLoading := false) && messages == old(messages) + [r.error]
      ensures detail == old(detail)
    {
      ui := ui.(searchLoading := true);
      r := SearchAt(pageAt, KeywordSearchUrl(keyword, "game"));
      if r.Success? {
        ui := ui.(searchApiModel := Some(r.value));
      } else {
        messages := messages + [r.error];
      }
      ui := ui.(searchLoading := false);
    }

    /** SearchByTag: ignored while a search is loading. Otherwise a supplied sort type
        that differs from the current one replaces it and is saved; the search then runs
        with the state's sort type, and its result or failure is handled as in
        SearchByKeyword. */
    method SearchByTag(tags: seq<SearchTag>, sortType: Option<SearchSortType>)
      returns (r: Option<Result<SearchApiModel, string>>)
      modifies this, prefs
      ensures old(ui.searchLoading) ==>
                r.None? && ui == old(ui) && messages == old(messages)
                && prefs.searchSortType == old(prefs.searchSortType)
      ensures !old(ui.searchLoading) ==>
                var s := ChosenSort(old(ui.sortType), sortType);
                && r == Some(SearchAt(pageAt, TagSearchUrlSpec(tags, s, "games")))
                && ui == old(ui).(sortType := s, searchLoading := false,
                                  searchApiModel := if r.value.Success? then Some(r.value.value)
                                                    else old(ui.searchApiModel))
                && messages == old(messages) + (if r.value.Failure? then [r.value.error] else [])
      ensures !old(ui.searchLoading) && sortType.Some? && sortType.value != old(ui.sortType) ==>
                prefs.searchSortType == Some(SearchSortTypeName(sortType.value))
                && prefs.SearchSortTypeFlow() == sortType.value
      ensures !(!old(ui.searchLoading) && sortType.Some? && sortType.value != old(ui.sortType)) ==>
                prefs.searchSortType == old(prefs.searchSortType)
      ensures prefs.sortTypes == old(prefs.sortTypes) && prefs.timeFormat == old(prefs.timeFormat)
      ensures prefs.searchType == old(prefs.searchType) && prefs.threadCount == old(prefs.threadCount)
      ensures detail == old(detail)
    {
      if ui.searchLoading {
        return None;
      }
      ui := ui.(searchLoading := true);
      if sortType.Some? && ui.sortType != sortType.value {
        ui := ui.(sortType := sortType.value);
        prefs.SaveSearchSortType(sortType.value);
      }
      var url := TagSearchUrl(tags, ui.sortType, "games");
      var res := SearchAt(pageAt, url);
      if res.Success? {
        ui := ui.(searchApiModel := Some(res.value));
      } else {
        messages := messages + [res.error];
      }
      ui := ui.(searchLoading := false);
      return Some(res);
    }

    /** AllTags: only while the tag list is empty, the repository's tags fill it; its
        failure is thrown and leaves the list empty. */
    method AllTags() returns (err: Option<string>)
      requires Valid()
      modifies this, tagRepo.store
      ensures Valid()
      ensures old(ui.allTags) != [] ==>
                err.None? && ui == old(ui) && tagRepo.store.rows == old(tagRepo.store.rows)
      ensures old(ui.allTags) == [] && old(tagRepo.store.rows) == map[] && tagRepo.remoteTags.Failure? ==>
                err == Some(tagRepo.remoteTags.error) && ui == old(ui)
                && tagRepo.store.rows == old(tagRepo.store.rows)
      ensures old(ui.allTags) == [] && old(tagRepo.store.rows) == map[] && tagRepo.remoteTags.Success? ==>
                err.None? && ui == old(ui).(allTags := tagRepo.remoteTags.value)
                && tagRepo.store.rows == Upsert(map[], tagRepo.remoteTags.value)
      ensures old(ui.allTags) == [] && old(tagRepo.store.rows) != map[] ==>
                err.None? && ui == old(ui).(allTags := ui.allTags) && Lists(ui.allTags, tagRepo.store.rows)
                && tagRepo.store.rows == old(tagRepo.store.rows)
      ensures detail == old(detail) && messages == old(messages)
    {
      if ui.allTags == [] {
        var r := tagRepo.FetchAllTags();
        if r.Failure? {
          return Some(r.error);
        }
        ui := ui.(allTags := r.value);
      }
      return None;
    }

    /** Star: a game in the library has its flag inverted; a game not in it is imported
        first and its fresh annotation starred, or the import's failure is sent. The
        panel shows the new annotation when it shows that game. A stored game without an
        annotation throws at `getLocalInfo`, which is caught as "err:null". */
    method Star(url: string)
      requires Valid()
      modifies this, repo
      ensures Valid()
      ensures old(url in repo.gameTable) && url !in old(repo.infoTable) ==>
                repo.State() == old(repo.State()) && detail == old(detail)
                && messages == old(messages) + ["err:null"]
      ensures old(url in repo.gameTable) && url in old(repo.infoTable) ==>
                var info := old(repo.infoTable[url]);
                var (t, r) := UpdateSpec(old(repo.State()), url, FlipStar(info));
                && repo.State() == t && r.Success? && r.value.starred == !info.starred
                && detail == ShowInfo(old(detail), url, r.value)
                && messages == old(messages) + [StarredMessage(info)]
      ensures old(url !in repo.gameTable) ==>
                var (t, o) := AddOne(old(repo.State()), repo.fetch, url, None, false);
                && (o.Failure? ==>
                      repo.State() == t && detail == old(detail)
                      && messages == old(messages) + Toast(FailureMessage(o.error)))
                && (o.Success? ==>
                      var starred := FreshLocalInfo(url, None).(starred := true);
                      && repo.State() == t.(infos := t.infos[url := starred])
                      && detail == ShowInfo(old(detail), url, starred)
                      && messages == old(messages) + ["starred"])
      ensures ui == old(ui)
    {
      if repo.ExistLocalGame(url) {
        var info := repo.GetLocalInfo(url);
        if info.Failure? {
          messages := messages + ["err:null"];
          return;
        }
        var updated := repo.UpdateLocalInfo(url, FlipStar(info.value));
        if detail.game.Some? && detail.game.value.url == url {
          detail := detail.(localInfo := Some(updated.value));
        }
        messages := messages + [StarredMessage(info.value)];
      } else {
        ghost var before := repo.State();
        var o := repo.AddGameByUrl(url);
        if o.Failure? {
          messages := messages + Toast(FailureMessage(o.error));
          return;
        }
        ImportedThenStarred(before, repo.fetch, url);
        var info := repo.GetLocalInfo(url);
        var updated := repo.UpdateLocalInfo(url, FlipStar(info.value));
        if detail.game.Some? && detail.game.value.url == url {
          detail := detail.(localInfo := Some(updated.value));
        }
        messages := messages + [StarredMessage(info.value)];
      }
    }

    /** AddLocal: a game already in the library is not imported again and "has already
        in lib" is sent; otherwise it is imported and its outcome sent. */
    method AddLocal(url: string) returns (o: Option<Outcome>)
      requires Valid()
      modifies this, repo
      ensures Valid()
      ensures old(url in repo.gameTable) ==>
                o.None? && repo.State() == old(repo.State()) && messages == old(messages) + ["has already in lib"]
      ensures old(url !in repo.gameTable) ==>
                o.Some? && (repo.State(), o.value) == AddOne(old(repo.State()), repo.fetch, url, None, false)
                && messages == old(messages) + Imports.OutcomeMessages(o.value)
      ensures ui == old(ui) && detail == old(detail)
    {
      if repo.ExistLocalGame(url) {
        messages := messages + ["has already in lib"];
        return None;
      }
      var r := repo.AddGameByUrl(url);
      messages := messages + Imports.OutcomeMessages(r);
      return Some(r);
    }
  }
}
