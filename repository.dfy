/** `GameRepository`: the in-memory game list `latestGames`, the cache `tempGames` of
    games looked at but not imported, the list `failedList` of urls whose import or
    refresh failed, and the two tables of the local database, keyed by url: games and
    their `LocalInfo` annotations.

    The database follows its declared rules: an insert replaces a row with the same key,
    an update writes only a row that exists, and a game "exists" when its url has a row.
    The network fetch of a game page, including its conversion to a `Game`, is the
    function `fetch`. Concurrency is left out: the per-url work runs one url after the
    other. */
module Repository {
  import opened Wrappers
  import opened Games

  datatype FetchError = FetchError(message: Option<string>)

  /** Why a repository call failed. */
  datatype Failure =
    | AlreadyExists             // the plain Exception("Game already exists") of the duplicate check
    | ExistError                // ImportException.ExistError: declared, never raised by this repository
    | FetchFailed(e: FetchError) // the page fetch or its parse failed
    | MissingLocalInfo          // the `!!` of getLocalInfo on a url without annotation
    | NoFiles                   // toBasic on a game without download files

  /** The message a failure carries, which the view models print. */
  function FailureMessage(f: Failure): Option<string> {
    match f
    case AlreadyExists => Some("Game already exists")
    case ExistError => Some("Game already exists")
    case FetchFailed(e) => e.message
    case MissingLocalInfo => None
    case NoFiles => Some("Index 0 out of bounds for length 0")
  }

  /** One emitted result of the import and refresh flows. */
  type Outcome = Result<GameBasic, Failure>

  /** A snapshot of the repository's state. */
  datatype Tables = Tables(
    latest: seq<Game>,
    temp: seq<Game>,
    failed: seq<string>,
    games: map<string, Game>,
    infos: map<string, LocalInfo>)

  /** Every row is stored under its own primary key. */
  predicate TablesValid(t: Tables) {
    && (forall u :: u in t.games ==> t.games[u].url == u)
    && (forall u :: u in t.infos ==> t.infos[u].url == u)
  }

  /** `list.find { it.url == url }`. */
  function FindByUrl(s: seq<Game>, url: string): (r: Option<Game>)
    ensures r.Some? <==> exists i :: 0 <= i < |s| && s[i].url == url
    ensures r.Some? ==> r.value in s && r.value.url == url
  {
    if s == [] then None
    else if s[0].url == url then Some(s[0])
    else
      var r := FindByUrl(s[1..], url);
      assert forall i :: 1 <= i < |s| ==> s[i] == s[1..][i - 1];
      r
  }

  /** The index of the first game with that url. */
  function IndexOfUrl(s: seq<Game>, url: string): (i: nat)
    requires exists i :: 0 <= i < |s| && s[i].url == url
    ensures i < |s| && s[i].url == url
    ensures forall j :: 0 <= j < i ==> s[j].url != url
  {
    if s[0].url == url then 0
    else
      assert exists i :: 0 <= i < |s[1..]| && s[1..][i].url == url by {
        var k :| 0 <= k < |s| && s[k].url == url;
        assert s[1..][k - 1] == s[k];
      }
      1 + IndexOfUrl(s[1..], url)
  }

  /** `getLocalInfo(url)`: the stored annotation, or the `!!` failure. */
  function LocalInfoOf(t: Tables, url: string): (r: Result<LocalInfo, Failure>)
    ensures r.Success? <==> url in t.infos
  {
    if url in t.infos then Success(t.infos[url]) else Failure(MissingLocalInfo)
  }

  /** `game.toBasic(getLocalInfo(game.url))`: the annotation is looked up first. */
  function BasicOf(t: Tables, g: Game): (r: Outcome)
    ensures r.Success? <==> g.url in t.infos && |g.files| > 0
    ensures r.Success? ==> Some(r.value) == ToBasic(g, t.infos[g.url])
  {
    match LocalInfoOf(t, g.url)
    case Failure(f) => Failure(f)
    case Success(info) =>
      match ToBasic(g, info)
      case None => Failure(NoFiles)
      case Some(b) => Success(b)
  }

  // ---- adding games ----

  /** A cached game first, else the fetched one. */
  function Obtain(t: Tables, fetch: string -> Result<Game, FetchError>, url: string): Result<Game, Failure> {
    match FindByUrl(t.temp, url)
    case Some(g) => Success(g)
    case None =>
      match fetch(url)
      case Success(g) => Success(g)
      case Failure(e) => Failure(FetchFailed(e))
  }

  /** `addGameAndEmit(url, blurb, withLocalInfo)`: the new state and the one result it
      emits or returns. */
  function AddOne(t: Tables, fetch: string -> Result<Game, FetchError>, url: string,
                  blurb: Option<string>, withLocalInfo: bool): (Tables, Outcome)
  {
    if url in t.games then (t, Failure(AlreadyExists))
    else
      match Obtain(t, fetch, url)
      case Failure(f) => (t.(failed := t.failed + [url]), Failure(f))
      case Success(g) => StoreObtained(t, url, g, blurb, withLocalInfo)
  }

  /** The rest of `addGameAndEmit` once the game is at hand: it is appended and stored,
      a fresh annotation is written unless `withLocalInfo`, and the view is built from the
      stored annotation. */
  function StoreObtained(t: Tables, url: string, g: Game, blurb: Option<string>, withLocalInfo: bool): (Tables, Outcome) {
    var stored := t.(latest := t.latest + [g], games := t.games[g.url := g]);
    var withInfo :=
      if withLocalInfo then stored
      else stored.(infos := stored.infos[url := FreshLocalInfo(url, blurb)]);
    match LocalInfoOf(withInfo, url)
    case Failure(f) => (withInfo.(failed := withInfo.failed + [url]), Failure(f))
    case Success(info) =>
      match ToBasic(g, info)
      case None => (withInfo.(failed := withInfo.failed + [url]), Failure(NoFiles))
      case Some(b) => (withInfo, Success(b))
  }

  /** A url whose game is already stored gives one "Game already exists" failure and
      changes nothing; the fetcher is not consulted. */
  lemma {:induction false} AddExistingIsNoop(t: Tables, fetch: string -> Result<Game, FetchError>, url: string,
                          blurb: Option<string>, withLocalInfo: bool)
    requires url in t.games
    ensures AddOne(t, fetch, url, blurb, withLocalInfo) == (t, Failure(AlreadyExists))
    ensures FailureMessage(AddOne(t, fetch, url, blurb, withLocalInfo).1.error) == Some("Game already exists")
  {
  }

  /** A failed fetch records the url in `failedList` and writes nothing else. */
  lemma {:induction false} AddFetchFailure(t: Tables, fetch: string -> Result<Game, FetchError>, url: string,
                        blurb: Option<string>, withLocalInfo: bool)
    requires url !in t.games && FindByUrl(t.temp, url).None? && fetch(url).Failure?
    ensures var (t', o) := AddOne(t, fetch, url, blurb, withLocalInfo);
            && t' == t.(failed := t.failed + [url])
            && o == Failure(FetchFailed(fetch(url).error))
  {
  }

  /** A plain successful add stores exactly one game (the cached one if there is one) and
      a fresh annotation with the given blurb, and returns its view. */
  lemma {:induction false} AddPlainSuccess(t: Tables, fetch: string -> Result<Game, FetchError>, url: string, blurb: Option<string>)
    requires url !in t.games && Obtain(t, fetch, url).Success?
    requires |Obtain(t, fetch, url).value.files| > 0
    ensures var g := Obtain(t, fetch, url).value;
            var (t', o) := AddOne(t, fetch, url, blurb, false);
            && t'.latest == t.latest + [g]
            && t'.games == t.games[g.url := g]
            && t'.infos == t.infos[url := FreshLocalInfo(url, blurb)]
            && t'.temp == t.temp && t'.failed == t.failed
            && o.Success? && Some(o.value) == ToBasic(g, FreshLocalInfo(url, blurb))
            && !o.value.localInfo.starred && o.value.localInfo.lastPlayedVersion.None?
    ensures FindByUrl(t.temp, url).Some? ==> Obtain(t, fetch, url).value == FindByUrl(t.temp, url).value
  {
  }

  /** With `withLocalInfo` the annotation table is never written, and a success returns
      the annotation already stored. */
  lemma {:induction false} AddWithLocalInfoReuses(t: Tables, fetch: string -> Result<Game, FetchError>, url: string, blurb: Option<string>)
    ensures var (t', o) := AddOne(t, fetch, url, blurb, true);
            && t'.infos == t.infos
            && (o.Success? ==> url in t.infos && o.value.localInfo == t.infos[url])
  {
  }

  /** The partial write: without a stored annotation, `withLocalInfo` reports a failure
      although the game has been appended and stored. */
  lemma {:induction false} AddWithLocalInfoPartialWrite(t: Tables, fetch: string -> Result<Game, FetchError>, url: string, blurb: Option<string>)
    requires url !in t.games && url !in t.infos && Obtain(t, fetch, url).Success?
    ensures var g := Obtain(t, fetch, url).value;
            var (t', o) := AddOne(t, fetch, url, blurb, true);
            && o == Failure(MissingLocalInfo)
            && t'.latest == t.latest + [g] && g.url in t'.games
            && t'.failed == t.failed + [url]
  {
  }

  /** Adding keeps every row under its own key. */
  lemma {:induction false} AddPreservesValid(t: Tables, fetch: string -> Result<Game, FetchError>, url: string,
                          blurb: Option<string>, withLocalInfo: bool)
    requires TablesValid(t)
    ensures TablesValid(AddOne(t, fetch, url, blurb, withLocalInfo).0)
  {
    if url !in t.games && Obtain(t, fetch, url).Success? {
      StorePreservesValid(t, url, Obtain(t, fetch, url).value, blurb, withLocalInfo);
    }
  }

  lemma {:induction false} StorePreservesValid(t: Tables, url: string, g: Game, blurb: Option<string>, withLocalInfo: bool)
    requires TablesValid(t)
    ensures TablesValid(StoreObtained(t, url, g, blurb, withLocalInfo).0)
  {
    var stored := t.(latest := t.latest + [g], games := t.games[g.url := g]);
    assert TablesValid(stored);
    assert FreshLocalInfo(url, blurb).url == url;
  }

  /** One import request: a url and the blurb to store with it. */
  datatype Request = Request(url: string, blurb: Option<string>)

  /** The requests handled one after the other, with one outcome each. */
  function AddAll(t: Tables, fetch: string -> Result<Game, FetchError>, reqs: seq<Request>, withLocalInfo: bool)
    : (r: (Tables, seq<Outcome>))
    ensures |r.1| == |reqs|
  {
    if reqs == [] then (t, [])
    else
      var (t1, outs) := AddAll(t, fetch, reqs[..|reqs| - 1], withLocalInfo);
      var last := reqs[|reqs| - 1];
      var (t2, o) := AddOne(t1, fetch, last.url, last.blurb, withLocalInfo);
      (t2, outs + [o])
  }

  /** One more request extends the bulk import by one `AddOne` step. */
  lemma {:induction false} AddAllStep(t: Tables, fetch: string -> Result<Game, FetchError>, reqs: seq<Request>, withLocalInfo: bool, i: nat)
    requires i < |reqs|
    ensures var (t1, outs) := AddAll(t, fetch, reqs[..i], withLocalInfo);
            var (t2, o) := AddOne(t1, fetch, reqs[i].url, reqs[i].blurb, withLocalInfo);
            AddAll(t, fetch, reqs[..i + 1], withLocalInfo) == (t2, outs + [o])
  {
    assert reqs[..i + 1][..i] == reqs[..i];
  }

  /** Each outcome of a bulk import is what adding its url to the state left by the
      earlier ones gives. */
  lemma {:induction false} AddAllOutcomes(t: Tables, fetch: string -> Result<Game, FetchError>, reqs: seq<Request>,
                                          withLocalInfo: bool, i: nat)
    requires i < |reqs|
    ensures var before := AddAll(t, fetch, reqs[..i], withLocalInfo).0;
            AddAll(t, fetch, reqs, withLocalInfo).1[i] == AddOne(before, fetch, reqs[i].url, reqs[i].blurb, withLocalInfo).1
    decreases |reqs|
  {
    if i < |reqs| - 1 {
      assert reqs[..|reqs| - 1][..i] == reqs[..i];
      AddAllOutcomes(t, fetch, reqs[..|reqs| - 1], withLocalInfo, i);
    } else {
      assert reqs[..i] == reqs[..|reqs| - 1];
    }
  }

  /** A bulk import keeps every row under its own key. */
  lemma {:induction false} AddAllPreservesValid(t: Tables, fetch: string -> Result<Game, FetchError>, reqs: seq<Request>,
                                                withLocalInfo: bool)
    requires TablesValid(t)
    ensures TablesValid(AddAll(t, fetch, reqs, withLocalInfo).0)
  {
    if reqs != [] {
      AddAllPreservesValid(t, fetch, reqs[..|reqs| - 1], withLocalInfo);
      var t1 := AddAll(t, fetch, reqs[..|reqs| - 1], withLocalInfo).0;
      var last := reqs[|reqs| - 1];
      AddPreservesValid(t1, fetch, last.url, last.blurb, withLocalInfo);
    }
  }

  /** Requests without blurb for a list of urls. */
  function PlainRequests(urls: seq<string>): (r: seq<Request>)
    ensures |r| == |urls| && forall i :: 0 <= i < |r| ==> r[i] == Request(urls[i], None)
  {
    seq(|urls|, i requires 0 <= i < |urls| => Request(urls[i], None))
  }

  /** Requests for collection cells, each with its blurb. */
  function CellRequests(cells: seq<GameCell>): (r: seq<Request>)
    ensures |r| == |cells| && forall i :: 0 <= i < |r| ==> r[i] == Request(cells[i].url, cells[i].blurb)
  {
    seq(|cells|, i requires 0 <= i < |cells| => Request(cells[i].url, cells[i].blurb))
  }

  // ---- refreshing ----

  /** `latestGames.map { if (it.url == url) g else it }`. */
  function ReplaceByUrl(s: seq<Game>, url: string, g: Game): (r: seq<Game>)
    ensures |r| == |s|
    ensures forall i :: 0 <= i < |s| ==> r[i] == if s[i].url == url then g else s[i]
  {
    seq(|s|, i requires 0 <= i < |s| => if s[i].url == url then g else s[i])
  }

  /** The refresh of one game of `latestGames`: fetch it, replace it in the list, update
      its row (an update writes only an existing row), and build its view. */
  function RefreshOne(t: Tables, fetch: string -> Result<Game, FetchError>, url: string): (Tables, Outcome) {
    match fetch(url)
    case Failure(e) => (t.(failed := t.failed + [url]), Failure(FetchFailed(e)))
    case Success(g) =>
      var t1 := t.(latest := ReplaceByUrl(t.latest, url, g),
                   games := if g.url in t.games then t.games[g.url := g] else t.games);
      match BasicOf(t1, g)
      case Failure(f) => (t1.(failed := t1.failed + [url]), Failure(f))
      case Success(b) => (t1, Success(b))
  }

  function UrlsOf(s: seq<Game>): (r: seq<string>)
    ensures |r| == |s| && forall i :: 0 <= i < |s| ==> r[i] == s[i].url
  {
    seq(|s|, i requires 0 <= i < |s| => s[i].url)
  }

  /** The refresh of a list of urls, one after the other. */
  function RefreshAll(t: Tables, fetch: string -> Result<Game, FetchError>, urls: seq<string>): (r: (Tables, seq<Outcome>))
    ensures |r.1| == |urls|
  {
    if urls == [] then (t, [])
    else
      var (t1, outs) := RefreshAll(t, fetch, urls[..|urls| - 1]);
      var (t2, o) := RefreshOne(t1, fetch, urls[|urls| - 1]);
      (t2, outs + [o])
  }

  /** Refreshing one game keeps the list's length, replaces only entries with that url,
      adds no game row, and never writes an annotation, so starred and played state
      survive. */
  lemma {:induction false} RefreshOneFrame(t: Tables, fetch: string -> Result<Game, FetchError>, url: string)
    ensures var t' := RefreshOne(t, fetch, url).0;
            && |t'.latest| == |t.latest|
            && (forall i :: 0 <= i < |t.latest| && t.latest[i].url != url ==> t'.latest[i] == t.latest[i])
            && t'.infos == t.infos
            && t'.games.Keys == t.games.Keys
            && t'.temp == t.temp
  {
  }

  /** The same for a whole refresh. */
  lemma {:induction false} RefreshAllFrame(t: Tables, fetch: string -> Result<Game, FetchError>, urls: seq<string>)
    ensures var t' := RefreshAll(t, fetch, urls).0;
            && |t'.latest| == |t.latest|
            && (forall i :: 0 <= i < |t.latest| && t.latest[i].url !in urls ==> t'.latest[i] == t.latest[i])
            && t'.infos == t.infos
            && t'.games.Keys == t.games.Keys
  {
    if urls != [] {
      var init := urls[..|urls| - 1];
      RefreshAllFrame(t, fetch, init);
      var t1 := RefreshAll(t, fetch, init).0;
      RefreshOneFrame(t1, fetch, urls[|urls| - 1]);
      forall i | 0 <= i < |t.latest| && t.latest[i].url !in urls
        ensures t.latest[i].url !in init
      {
        assert forall x :: x in init ==> x in urls;
      }
    }
  }

  /** One more url extends the refresh by one `RefreshOne` step. */
  lemma {:induction false} RefreshAllStep(t: Tables, fetch: string -> Result<Game, FetchError>, urls: seq<string>, i: nat)
    requires i < |urls|
    ensures var (t1, outs) := RefreshAll(t, fetch, urls[..i]);
            var (t2, o) := RefreshOne(t1, fetch, urls[i]);
            RefreshAll(t, fetch, urls[..i + 1]) == (t2, outs + [o])
  {
    assert urls[..i + 1][..i] == urls[..i];
  }

  lemma {:induction false} RefreshOnePreservesValid(t: Tables, fetch: string -> Result<Game, FetchError>, url: string)
    requires TablesValid(t)
    ensures TablesValid(RefreshOne(t, fetch, url).0)
  {
  }

  /** A refresh keeps every row under its own key. */
  lemma {:induction false} RefreshAllPreservesValid(t: Tables, fetch: string -> Result<Game, FetchError>, urls: seq<string>)
    requires TablesValid(t)
    ensures TablesValid(RefreshAll(t, fetch, urls).0)
  {
    if urls != [] {
      RefreshAllPreservesValid(t, fetch, urls[..|urls| - 1]);
    }
  }

  // ---- the other operations ----

  /** `deleteGame(url)`: only a game in `latestGames` is deleted, from the list (its
      first occurrence) and from the game table; the annotation stays. */
  function DeleteSpec(t: Tables, url: string): (r: (Tables, bool))
    ensures r.1 <==> exists i :: 0 <= i < |t.latest| && t.latest[i].url == url
  {
    if exists i :: 0 <= i < |t.latest| && t.latest[i].url == url then
      var i := IndexOfUrl(t.latest, url);
      (t.(latest := t.latest[..i] + t.latest[i + 1..], games := t.games - {url}), true)
    else (t, false)
  }

  /** A delete that finds the url removes exactly one list entry and the game row and
      keeps the annotation; one that does not changes nothing. */
  lemma {:induction false} DeleteEffect(t: Tables, url: string)
    ensures var (t', ok) := DeleteSpec(t, url);
            && t'.infos == t.infos && t'.temp == t.temp && t'.failed == t.failed
            && (ok ==> |t'.latest| == |t.latest| - 1 && url !in t'.games
                       && multiset(t'.latest) + multiset{FindByUrl(t.latest, url).value} == multiset(t.latest))
            && (!ok ==> t' == t)
  {
    if exists i :: 0 <= i < |t.latest| && t.latest[i].url == url {
      var i := IndexOfUrl(t.latest, url);
      RemoveAtCounts(t.latest, i);
      FindIsFirst(t.latest, url);
      assert DeleteSpec(t, url) == (t.(latest := t.latest[..i] + t.latest[i + 1..], games := t.games - {url}), true);
    } else {
      assert DeleteSpec(t, url) == (t, false);
    }
  }

  /** Cutting out one entry shortens the list by one and removes that entry only. */
  lemma {:induction false} RemoveAtCounts(s: seq<Game>, i: nat)
    requires i < |s|
    ensures |s[..i] + s[i + 1..]| == |s| - 1
    ensures multiset(s[..i] + s[i + 1..]) + multiset{s[i]} == multiset(s)
  {
    assert s == s[..i] + [s[i]] + s[i + 1..];
  }

  /** `find` returns the entry at the first index with the url. */
  lemma {:induction false} FindIsFirst(s: seq<Game>, url: string)
    requires exists i :: 0 <= i < |s| && s[i].url == url
    ensures FindByUrl(s, url) == Some(s[IndexOfUrl(s, url)])
  {
    if s[0].url != url {
      assert exists i :: 0 <= i < |s[1..]| && s[1..][i].url == url by {
        var k :| 0 <= k < |s| && s[k].url == url;
        assert s[1..][k - 1] == s[k];
      }
      FindIsFirst(s[1..], url);
    }
  }

  /** The fields of an annotation patch; a `None` field keeps the stored value. */
  datatype InfoPatch = InfoPatch(
    blurb: Option<string>,
    lastPlayedVersion: Option<string>,
    lastPlayedTime: Option<nat>,
    starred: Option<bool>)

  /** `oldLocalInfo.copy(field = new ?: old, ...)`. */
  function ApplyPatch(info: LocalInfo, p: InfoPatch): LocalInfo {
    info.(blurb := OrElse(p.blurb, info.blurb),
          lastPlayedVersion := OrElse(p.lastPlayedVersion, info.lastPlayedVersion),
          lastPlayedTime := OrElse(p.lastPlayedTime, info.lastPlayedTime),
          starred := p.starred.GetOr(info.starred))
  }

  /** A patch keeps the url, sets exactly the fields it carries, keeps the others, and
      applying it twice is applying it once. */
  lemma {:induction false} PatchEffect(info: LocalInfo, p: InfoPatch)
    ensures ApplyPatch(info, p).url == info.url
    ensures ApplyPatch(info, p).blurb == if p.blurb.Some? then p.blurb else info.blurb
    ensures ApplyPatch(info, p).lastPlayedVersion == if p.lastPlayedVersion.Some? then p.lastPlayedVersion else info.lastPlayedVersion
    ensures ApplyPatch(info, p).lastPlayedTime == if p.lastPlayedTime.Some? then p.lastPlayedTime else info.lastPlayedTime
    ensures ApplyPatch(info, p).starred == if p.starred.Some? then p.starred.value else info.starred
    ensures ApplyPatch(ApplyPatch(info, p), p) == ApplyPatch(info, p)
    ensures p == InfoPatch(None, None, None, None) ==> ApplyPatch(info, p) == info
  {
  }

  /** `updateLocalInfo(url, ...)`: the patched annotation, written back over the stored
      one; a url without annotation fails at the `!!` and writes nothing. */
  function UpdateSpec(t: Tables, url: string, p: InfoPatch): (r: (Tables, Result<LocalInfo, Failure>))
    ensures r.1.Success? <==> url in t.infos
  {
    match LocalInfoOf(t, url)
    case Failure(f) => (t, Failure(f))
    case Success(info) =>
      var updated := ApplyPatch(info, p);
      (t.(infos := t.infos[updated.url := updated]), Success(updated))
  }

  /** An update returns what it stored, touches only that url's annotation, and repeating
      the same patch changes nothing more. */
  lemma {:induction false} UpdateEffect(t: Tables, url: string, p: InfoPatch)
    requires TablesValid(t)
    ensures var (t', r) := UpdateSpec(t, url, p);
            && t'.latest == t.latest && t'.games == t.games && t'.temp == t.temp && t'.failed == t.failed
            && t'.infos.Keys == t.infos.Keys
            && (r.Success? ==> (t'.infos == t.infos[url := r.value] && r.value == ApplyPatch(t.infos[url], p)
                                && UpdateSpec(t', url, p) == (t', r)))
            && (r.Failure? ==> t' == t && r.error == MissingLocalInfo)
            && TablesValid(t')
  {
    if url in t.infos {
      var info := t.infos[url];
      PatchEffect(info, p);
      var u := ApplyPatch(info, p);
      assert u.url == url;
      var t' := t.(infos := t.infos[url := u]);
      PatchEffect(u, p);
      assert t'.infos[url := u] == t'.infos;
    }
  }

  /** `getGameFull(url, refresh)`: the listed game unless a refresh is asked for or the
      game is not listed; otherwise the cached game, or a fetched one that is then
      cached. Nothing is written to the database. */
  function GameFullSpec(t: Tables, fetch: string -> Result<Game, FetchError>, url: string, refresh: bool)
    : (Tables, Result<Game, Failure>)
  {
    var listed := FindByUrl(t.latest, url);
    if !refresh && listed.Some? then (t, Success(listed.value))
    else
      match FindByUrl(t.temp, url)
      case Some(g) => (t, Success(g))
      case None =>
        match fetch(url)
        case Success(g) => (t.(temp := t.temp + [g]), Success(g))
        case Failure(e) => (t, Failure(FetchFailed(e)))
  }

  /** Looking a game up changes at most the cache, by one appended game. */
  lemma {:induction false} GameFullEffect(t: Tables, fetch: string -> Result<Game, FetchError>, url: string, refresh: bool)
    ensures var (t', r) := GameFullSpec(t, fetch, url, refresh);
            && t'.latest == t.latest && t'.games == t.games && t'.infos == t.infos && t'.failed == t.failed
            && (t'.temp == t.temp || (r.Success? && t'.temp == t.temp + [r.value]))
            && (!refresh && FindByUrl(t.latest, url).Some? ==> t' == t && r == Success(FindByUrl(t.latest, url).value))
  {
  }

  /** `syncGameBasic()`: the view of every listed game; the first failure propagates. */
  function BasicsOf(t: Tables, s: seq<Game>): (r: Result<seq<GameBasic>, Failure>)
    ensures r.Success? ==> (|r.value| == |s| && forall i :: 0 <= i < |s| ==> BasicOf(t, s[i]) == Success(r.value[i]))
    ensures r.Failure? ==> exists i :: 0 <= i < |s| && BasicOf(t, s[i]) == Failure(r.error)
                                         && forall j :: 0 <= j < i ==> BasicOf(t, s[j]).Success?
  {
    if s == [] then Success([])
    else
      var head := BasicOf(t, s[0]);
      if head.Failure? then Failure(head.error)
      else
        var rest := BasicsOf(t, s[1..]);
        if rest.Failure? then
          BasicsTailFailure(t, s, rest.error);
          Failure(rest.error)
        else
          BasicsTailSuccess(t, s, head.value, rest.value);
          Success([head.value] + rest.value)
  }

  lemma {:induction false} BasicsTailSuccess(t: Tables, s: seq<Game>, b: GameBasic, bs: seq<GameBasic>)
    requires s != [] && BasicOf(t, s[0]) == Success(b)
    requires |bs| == |s| - 1 && forall i :: 0 <= i < |s| - 1 ==> BasicOf(t, s[1..][i]) == Success(bs[i])
    ensures forall i :: 0 <= i < |s| ==> BasicOf(t, s[i]) == Success(([b] + bs)[i])
  {
    forall i | 0 <= i < |s|
      ensures BasicOf(t, s[i]) == Success(([b] + bs)[i])
    {
      if i > 0 {
        assert s[i] == s[1..][i - 1];
      }
    }
  }

  lemma {:induction false} BasicsTailFailure(t: Tables, s: seq<Game>, f: Failure)
    requires s != [] && BasicOf(t, s[0]).Success?
    requires exists i :: 0 <= i < |s| - 1 && BasicOf(t, s[1..][i]) == Failure(f)
                         && forall j :: 0 <= j < i ==> BasicOf(t, s[1..][j]).Success?
    ensures exists i :: 0 <= i < |s| && BasicOf(t, s[i]) == Failure(f)
                        && forall j :: 0 <= j < i ==> BasicOf(t, s[j]).Success?
  {
    var i :| 0 <= i < |s| - 1 && BasicOf(t, s[1..][i]) == Failure(f)
             && forall j :: 0 <= j < i ==> BasicOf(t, s[1..][j]).Success?;
    assert s[1..][i] == s[i + 1];
    forall j | 0 <= j < i + 1
      ensures BasicOf(t, s[j]).Success?
    {
      if j > 0 {
        assert s[j] == s[1..][j - 1];
      }
    }
  }

  /** A listing of a table: every row once, each under its key. */
  predicate ListsTable(s: seq<Game>, games: map<string, Game>) {
    && (forall i :: 0 <= i < |s| ==> s[i].url in games && games[s[i].url] == s[i])
    && (forall i, j :: 0 <= i < j < |s| ==> s[i].url != s[j].url)
    && (forall u :: u in games ==> exists i :: 0 <= i < |s| && s[i].url == u)
  }

  /** The loop state of an enumeration: the rows listed so far, each once and under its
      key, are exactly the rows whose keys are no longer pending. */
  predicate ListedSoFar(listing: seq<Game>, games: map<string, Game>, rest: set<string>) {
    && rest <= games.Keys
    && (forall i :: 0 <= i < |listing| ==>
          listing[i].url in games && games[listing[i].url] == listing[i] && listing[i].url !in rest)
    && (forall i, j :: 0 <= i < j < |listing| ==> listing[i].url != listing[j].url)
    && (forall u :: u in games && u !in rest ==> exists i :: 0 <= i < |listing| && listing[i].url == u)
  }

  lemma {:induction false} ListedStep(listing: seq<Game>, games: map<string, Game>, rest: set<string>, u: string)
    requires forall v :: v in games ==> games[v].url == v
    requires ListedSoFar(listing, games, rest) && u in rest
    ensures ListedSoFar(listing + [games[u]], games, rest - {u})
  {
    var next := listing + [games[u]];
    assert games[u].url == u;
    assert next[|listing|].url == u;
    forall i | 0 <= i < |next|
      ensures next[i].url in games && games[next[i].url] == next[i] && next[i].url !in rest - {u}
    {
      if i < |listing| {
        assert next[i] == listing[i];
      }
    }
    forall i, j | 0 <= i < j < |next|
      ensures next[i].url != next[j].url
    {
      assert next[i] == listing[i];
      if j < |listing| {
        assert next[j] == listing[j];
      }
    }
    forall v | v in games && v !in rest - {u}
      ensures exists i :: 0 <= i < |next| && next[i].url == v
    {
      if v == u {
        assert next[|listing|].url == v;
      } else {
        var i :| 0 <= i < |listing| && listing[i].url == v;
        assert next[i] == listing[i];
      }
    }
  }

  /** An enumeration of a table's rows, in an order the table chooses. */
  method ListTable(games: map<string, Game>) returns (listing: seq<Game>)
    requires forall u :: u in games ==> games[u].url == u
    ensures ListsTable(listing, games)
  {
    listing := [];
    var rest := games.Keys;
    while rest != {}
      invariant ListedSoFar(listing, games, rest)
      decreases |rest|
    {
      var u :| u in rest;
      ListedStep(listing, games, rest, u);
      listing := listing + [games[u]];
      rest := rest - {u};
    }
  }

  /** The members of a set, each once, in the order the set is walked. */
  method Enumerate(urls: set<string>) returns (order: seq<string>)
    ensures |order| == |urls| && (set u | u in order) == urls
    ensures forall i, j :: 0 <= i < j < |order| ==> order[i] != order[j]
  {
    order := [];
    var rest := urls;
    while rest != {}
      invariant rest <= urls && forall x :: x in order <==> x in urls && x !in rest
      invariant |order| + |rest| == |urls|
      invariant forall i, j :: 0 <= i < j < |order| ==> order[i] != order[j]
      decreases |rest|
    {
      var u :| u in rest;
      assert u !in order;
      order := order + [u];
      rest := rest - {u};
    }
    assert (set u | u in order) == urls;
  }

  class GameRepository {
    var latestGames: seq<Game>
    var tempGames: seq<Game>
    var failedList: seq<string>
    var gameTable: map<string, Game>
    var infoTable: map<string, LocalInfo>
    const fetch: string -> Result<Game, FetchError>

    function State(): Tables
      reads this
    {
      Tables(latestGames, tempGames, failedList, gameTable, infoTable)
    }

    predicate Valid()
      reads this
    {
      TablesValid(State())
    }

    /** A repository over an existing database; the in-memory lists start empty. */
    constructor (fetch: string -> Result<Game, FetchError>, games: map<string, Game>, infos: map<string, LocalInfo>)
      requires TablesValid(Tables([], [], [], games, infos))
      ensures State() == Tables([], [], [], games, infos) && Valid()
      ensures this.fetch == fetch
    {
      latestGames, tempGames, failedList := [], [], [];
      gameTable, infoTable := games, infos;
      this.fetch := fetch;
    }

    /** `existLocalGame(url)`, the `countByUrl > 0` test. */
    function ExistLocalGame(url: string): bool
      reads this
    {
      url in gameTable
    }

    function Size(): nat
      reads this
    {
      |latestGames|
    }

    /** `getLocalInfo(url)`. */
    function GetLocalInfo(url: string): Result<LocalInfo, Failure>
      reads this
    {
      LocalInfoOf(State(), url)
    }

    /** The urls of `getAllLocalInfo()`. */
    function AllLocalInfoUrls(): (r: set<string>)
      reads this
      ensures Valid() ==> r == infoTable.Keys
    {
      set u | u in infoTable :: infoTable[u].url
    }

    /** `syncGameBasic()`. */
    function SyncGameBasic(): Result<seq<GameBasic>, Failure>
      reads this
    {
      BasicsOf(State(), latestGames)
    }

    /** `addGameAndEmit`: a failure is emitted and nothing returned, or the view returned. */
    method AddGameAndEmit(url: string, blurb: Option<string>, withLocalInfo: bool)
      returns (emitted: Option<Failure>, ret: Option<GameBasic>)
      requires Valid()
      modifies this
      ensures Valid()
      ensures State() == AddOne(old(State()), fetch, url, blurb, withLocalInfo).0
      ensures var o := AddOne(old(State()), fetch, url, blurb, withLocalInfo).1;
              (o.Failure? ==> emitted == Some(o.error) && ret.None?)
              && (o.Success? ==> emitted.None? && ret == Some(o.value))
    {
      AddPreservesValid(State(), fetch, url, blurb, withLocalInfo);
      if url in gameTable {
        return Some(AlreadyExists), None;
      }
      var got := ObtainGame(url);
      if got.Failure? {
        failedList := failedList + [url];
        return Some(got.error), None;
      }
      emitted, ret := StoreAndEmit(url, got.value, blurb, withLocalInfo);
    }

    /** The cached game with that url, else the fetched one. */
    method ObtainGame(url: string) returns (r: Result<Game, Failure>)
      ensures r == Obtain(State(), fetch, url)
    {
      var cached := FindByUrl(tempGames, url);
      if cached.Some? {
        return Success(cached.value);
      }
      var fetched := fetch(url);
      if fetched.Failure? {
        return Failure(FetchFailed(fetched.error));
      }
      return Success(fetched.value);
    }

    method StoreAndEmit(url: string, g: Game, blurb: Option<string>, withLocalInfo: bool)
      returns (emitted: Option<Failure>, ret: Option<GameBasic>)
      modifies this
      ensures State() == StoreObtained(old(State()), url, g, blurb, withLocalInfo).0
      ensures var o := StoreObtained(old(State()), url, g, blurb, withLocalInfo).1;
              (o.Failure? ==> emitted == Some(o.error) && ret.None?)
              && (o.Success? ==> emitted.None? && ret == Some(o.value))
    {
      latestGames := latestGames + [g];
      gameTable := gameTable[g.url := g];
      var info: LocalInfo;
      if withLocalInfo {
        if url !in infoTable {
          failedList := failedList + [url];
          return Some(MissingLocalInfo), None;
        }
        info := infoTable[url];
      } else {
        info := FreshLocalInfo(url, blurb);
        infoTable := infoTable[url := info];
      }
      var basic := ToBasic(g, info);
      if basic.None? {
        failedList := failedList + [url];
        return Some(NoFiles), None;
      }
      return None, basic;
    }

    /** The shared loop of both `addGames` overloads and of `addGameByUrl`. */
    method AddRequests(reqs: seq<Request>, withLocalInfo: bool) returns (outs: seq<Outcome>)
      requires Valid()
      modifies this
      ensures Valid()
      ensures (State(), outs) == AddAll(old(State()), fetch, reqs, withLocalInfo)
    {
      ghost var start := State();
      outs := [];
      var i := 0;
      while i < |reqs|
        invariant 0 <= i <= |reqs| && Valid()
        invariant (State(), outs) == AddAll(start, fetch, reqs[..i], withLocalInfo)
      {
        AddAllStep(start, fetch, reqs, withLocalInfo, i);
        var o := AddRequest(reqs[i], withLocalInfo);
        outs := outs + [o];
        i := i + 1;
      }
      assert reqs[..i] == reqs;
    }

    /** `addGames(urls, withLocalInfo)`: the set is walked in some order, given back as
      `order`, with one outcome per url. */
    method AddGames(urls: set<string>, withLocalInfo: bool) returns (order: seq<string>, outs: seq<Outcome>)
      requires Valid()
      modifies this
      ensures Valid()
      ensures |order| == |urls| && (set u | u in order) == urls
      ensures forall i, j :: 0 <= i < j < |order| ==> order[i] != order[j]
      ensures (State(), outs) == AddAll(old(State()), fetch, PlainRequests(order), withLocalInfo)
    {
      order := Enumerate(urls);
      outs := AddRequests(PlainRequests(order), withLocalInfo);
    }

    /** `addGames(gameCells)`: in list order, each with its blurb. */
    method AddGameCells(cells: seq<GameCell>) returns (outs: seq<Outcome>)
      requires Valid()
      modifies this
      ensures Valid()
      ensures (State(), outs) == AddAll(old(State()), fetch, CellRequests(cells), false)
    {
      outs := AddRequests(CellRequests(cells), false);
    }

    /** One request as a flow of its single result: the emitted failure or the view. */
    method AddRequest(req: Request, withLocalInfo: bool) returns (o: Outcome)
      requires Valid()
      modifies this
      ensures Valid()
      ensures (State(), o) == AddOne(old(State()), fetch, req.url, req.blurb, withLocalInfo)
    {
      var emitted, ret := AddGameAndEmit(req.url, req.blurb, withLocalInfo);
      o := if ret.Some? then Success(ret.value) else Failure(emitted.value);
    }

    /** `addGameByUrl(url)`: a flow of exactly one result. */
    method AddGameByUrl(url: string) returns (o: Outcome)
      requires Valid()
      modifies this
      ensures Valid()
      ensures (State(), o) == AddOne(old(State()), fetch, url, None, false)
    {
      o := AddRequest(Request(url, None), false);
    }

    /** `getGameBasics(refresh = true)`: every game listed when the refresh starts is
      fetched again, one outcome each. */
    method Refresh() returns (outs: seq<Outcome>)
      requires Valid()
      modifies this
      ensures Valid()
      ensures (State(), outs) == RefreshAll(old(State()), fetch, UrlsOf(old(latestGames)))
    {
      var snapshot := UrlsOf(latestGames);
      ghost var start := State();
      outs := [];
      var i := 0;
      while i < |snapshot|
        invariant 0 <= i <= |snapshot| && Valid()
        invariant (State(), outs) == RefreshAll(start, fetch, snapshot[..i])
      {
        RefreshAllStep(start, fetch, snapshot, i);
        var o := RefreshUrl(snapshot[i]);
        outs := outs + [o];
        i := i + 1;
      }
      assert snapshot[..i] == snapshot;
    }

    /** The refresh of one url: fetched again, replaced in the list, its row updated
      when it exists, and its view built. */
    method RefreshUrl(url: string) returns (o: Outcome)
      requires Valid()
      modifies this
      ensures Valid()
      ensures (State(), o) == RefreshOne(old(State()), fetch, url)
    {
      RefreshOnePreservesValid(State(), fetch, url);
      var fetched := fetch(url);
      if fetched.Failure? {
        failedList := failedList + [url];
        return Failure(FetchFailed(fetched.error));
      }
      var g := fetched.value;
      latestGames := ReplaceByUrl(latestGames, url, g);
      if g.url in gameTable {
        gameTable := gameTable[g.url := g];
      }
      o := BasicOf(State(), g);
      if o.Failure? {
        failedList := failedList + [url];
      }
    }

    /** `getGameBasics(refresh = false)`: the list is reloaded from the game table (in the
      table's order, `latestGames` afterwards) and the views are sent one by one; the
      first failing lookup ends the flow with that failure. */
    method Load() returns (outs: seq<GameBasic>, err: Option<Failure>)
      requires Valid()
      modifies this
      ensures Valid()
      ensures ListsTable(latestGames, gameTable)
      ensures gameTable == old(gameTable) && infoTable == old(infoTable)
      ensures tempGames == old(tempGames) && failedList == old(failedList)
      ensures |outs| <= |latestGames|
      ensures forall i :: 0 <= i < |outs| ==> BasicOf(State(), latestGames[i]) == Success(outs[i])
      ensures err.None? ==> |outs| == |latestGames|
      ensures err.Some? ==> |outs| < |latestGames| && BasicOf(State(), latestGames[|outs|]) == Failure(err.value)
    {
      var listing := ListTable(gameTable);
      latestGames := listing;
      outs := [];
      err := None;
      var i := 0;
      while i < |latestGames|
        invariant 0 <= i <= |latestGames| && |outs| == i
        invariant forall k :: 0 <= k < i ==> BasicOf(State(), latestGames[k]) == Success(outs[k])
      {
        var b := BasicOf(State(), latestGames[i]);
        if b.Failure? {
          err := Some(b.error);
          return;
        }
        outs := outs + [b.value];
        i := i + 1;
      }
    }

    /** `deleteGame(url)`. */
    method DeleteGame(url: string) returns (ok: bool)
      requires Valid()
      modifies this
      ensures Valid()
      ensures (State(), ok) == DeleteSpec(old(State()), url)
    {
      if exists i :: 0 <= i < |latestGames| && latestGames[i].url == url {
        var i := IndexOfUrl(latestGames, url);
        gameTable := gameTable - {url};
        latestGames := latestGames[..i] + latestGames[i + 1..];
        return true;
      }
      return false;
    }

    /** `updateLocalInfo(url, blurb, lastPlayedVersion, lastPlayedTime, starred)`. */
    method UpdateLocalInfo(url: string, p: InfoPatch) returns (r: Result<LocalInfo, Failure>)
      requires Valid()
      modifies this
      ensures Valid()
      ensures (State(), r) == UpdateSpec(old(State()), url, p)
    {
      UpdateEffect(State(), url, p);
      if url !in infoTable {
        return Failure(MissingLocalInfo);
      }
      var updated := ApplyPatch(infoTable[url], p);
      infoTable := infoTable[updated.url := updated];
      return Success(updated);
    }

    /** `getGameFull(url, refresh)`. */
    method GetGameFull(url: string, refresh: bool) returns (r: Result<Game, Failure>)
      requires Valid()
      modifies this
      ensures Valid()
      ensures (State(), r) == GameFullSpec(old(State()), fetch, url, refresh)
    {
      var listed := FindByUrl(latestGames, url);
      if !refresh && listed.Some? {
        return Success(listed.value);
      }
      var cached := FindByUrl(tempGames, url);
      if cached.Some? {
        return Success(cached.value);
      }
      var fetched := fetch(url);
      if fetched.Failure? {
        return Failure(FetchFailed(fetched.error));
      }
      tempGames := tempGames + [fetched.value];
      return Success(fetched.value);
    }
  }
}
