/** The newer import view model: a single url, the urls found in pasted text, the urls
    of every stored annotation, or the games of a collection are added through the
    repository; each bulk import reports a progress and one summary of successes,
    duplicates and failures. */
module Import {
  import opened Wrappers
  import opened Text
  import opened Games
  import opened Repository
  import opened LibraryCommon
  import opened Collections
  import opened Imports

  class ImportViewModel {
    var ui: ImportState
    var messages: seq<string>   // the toasts sent, in order
    var routes: seq<Route>      // the navigator calls, in order
    const repo: GameRepository
    const collections: CollectionRepository

    predicate Valid()
      reads this, repo
    {
      repo.Valid()
    }

    constructor (repo: GameRepository, collections: CollectionRepository)
      requires repo.Valid()
      ensures Valid() && this.repo == repo && this.collections == collections
      ensures ui == ImportState(None, false, "") && messages == [] && routes == []
    {
      this.repo := repo;
      this.collections := collections;
      ui := ImportState(None, false, "");
      messages := [];
      routes := [];
    }

    /** AddGame: one url through `addGameByUrl`; its one result is announced and the
        progress cleared. */
    method AddGame(url: string) returns (o: Outcome)
      requires Valid()
      modifies this, repo
      ensures Valid()
      ensures (repo.State(), o) == AddOne(old(repo.State()), repo.fetch, url, None, false)
      ensures messages == old(messages) + OutcomeMessages(o)
      ensures ui == Cleared && routes == old(routes)
    {
      ui := ui.(loading := true);
      o := repo.AddGameByUrl(url);
      if o.Success? {
        messages := messages + ["added successfully"];
      } else if FailureMessage(o.error).Some? {
        messages := messages + [FailureMessage(o.error).value];
      }
      ui := ui.(loading := false, progress := None, progressText := "");
    }

    /** AddGames: blank text and text without a game url are refused with a message and
        no repository change; otherwise every distinct cleaned url is added and, at the
        end, one summary "added s games, n in total, e existed, f failed" is sent. */
    method AddGames(text: string) returns (order: seq<string>, outs: seq<Outcome>)
      requires Valid()
      modifies this, repo
      ensures Valid()
      ensures IsBlank(text) ==>
                order == [] && outs == [] && repo.State() == old(repo.State())
                && messages == old(messages) + ["empty text"]
                && ui == old(ui).(loading := false, progress := None)
      ensures !IsBlank(text) && UrlsIn(text) == {} ==>
                order == [] && outs == [] && repo.State() == old(repo.State())
                && messages == old(messages) + ["no valid url"]
                && ui == old(ui).(loading := false, progress := None)
      ensures !IsBlank(text) && UrlsIn(text) != {} ==>
                var n := |UrlsIn(text)|;
                && |order| == n && (set u | u in order) == UrlsIn(text)
                && (forall i, j :: 0 <= i < j < |order| ==> order[i] != order[j])
                && (repo.State(), outs) == AddAll(old(repo.State()), repo.fetch, PlainRequests(order), false)
                && Successes(outs) + Fails(outs) == n
                && messages == old(messages) + ["try " + NatToString(n), TallySummary(Successes(outs), Fails(outs), n)]
                && ui == Cleared
      ensures routes == old(routes)
    {
      order, outs := [], [];
      ui := ui.(loading := true);
      if IsBlank(text) {
        messages := messages + ["empty text"];
        ui := ui.(loading := false, progress := None);
        return;
      }
      var urls := ExtractUrls(text);
      if urls == {} {
        messages := messages + ["no valid url"];
        ui := ui.(loading := false, progress := None);
        return;
      }
      ui := ui.(loading := true, progressText := "trying " + NatToString(|urls|) + " links from the file");
      order, outs := ImportUrls(urls, false);
    }

    /** AddGamesFromLocal: the urls of every stored annotation are added again, keeping
        the annotations; an empty store is refused with a message. */
    method AddGamesFromLocal() returns (order: seq<string>, outs: seq<Outcome>)
      requires Valid()
      modifies this, repo
      ensures Valid()
      ensures old(repo.infoTable) == map[] ==>
                order == [] && outs == [] && repo.State() == old(repo.State())
                && messages == old(messages) + ["no valid url"]
                && ui == old(ui).(loading := false, progress := None)
      ensures old(repo.infoTable) != map[] ==>
                var n := |old(repo.infoTable).Keys|;
                && |order| == n && (set u | u in order) == old(repo.infoTable).Keys
                && (repo.State(), outs) == AddAll(old(repo.State()), repo.fetch, PlainRequests(order), true)
                && Successes(outs) + Fails(outs) == n
                && messages == old(messages) + ["try " + NatToString(n), TallySummary(Successes(outs), Fails(outs), n)]
                && ui == Cleared
      ensures routes == old(routes)
    {
      order, outs := [], [];
      ui := ui.(loading := true);
      var urls := repo.AllLocalInfoUrls();
      if urls == {} {
        assert forall u :: u !in repo.infoTable;
        messages := messages + ["no valid url"];
        ui := ui.(loading := false, progress := None);
        return;
      }
      ui := ui.(loading := true, progressText := "trying " + NatToString(|urls|) + " local data");
      order, outs := ImportUrls(urls, true);
    }

    /** The shared part of AddGames and AddGamesFromLocal: "try n", the urls added in
        some order, the progress, one summary. */
    method ImportUrls(urls: set<string>, withLocalInfo: bool) returns (order: seq<string>, outs: seq<Outcome>)
      requires Valid() && urls != {}
      modifies this, repo
      ensures Valid()
      ensures |order| == |urls| && (set u | u in order) == urls
      ensures forall i, j :: 0 <= i < j < |order| ==> order[i] != order[j]
      ensures (repo.State(), outs) == AddAll(old(repo.State()), repo.fetch, PlainRequests(order), withLocalInfo)
      ensures Successes(outs) + Fails(outs) == |urls|
      ensures messages == old(messages) + ["try " + NatToString(|urls|), TallySummary(Successes(outs), Fails(outs), |urls|)]
      ensures ui == Cleared && routes == old(routes)
    {
      var size := |urls|;
      messages := messages + ["try " + NatToString(size)];
      order, outs := repo.AddGames(urls, withLocalInfo);
      CollectAdds(outs, size, Fetching(size));
      SummaryOnce(outs, size);
      ExistedAlwaysZero(old(repo.State()), repo.fetch, PlainRequests(order), withLocalInfo);
    }

    /** Finish: back to the previous screen. */
    method Finish()
      modifies this
      ensures routes == old(routes) + [Back]
      ensures ui == old(ui) && messages == old(messages)
    {
      routes := routes + [Back];
    }

    /** FetchCollection: a collection that cannot be fetched clears the progress and adds
        nothing; otherwise its games are added in order, the progress naming the game just
        added, and one summary is sent once every game has a result. An empty collection
        sends nothing and leaves the screen loading. */
    method FetchCollection(url: string) returns (outs: seq<Outcome>)
      requires Valid()
      modifies this, repo
      ensures Valid()
      ensures var c := FetchCollectionSpec(collections.fetchFirst(url), collections.pages(url));
              && (c.Failure? ==> outs == [] && repo.State() == old(repo.State())
                                 && messages == old(messages) && ui == Cleared)
              && (c.Success? ==>
                    var cells := c.value.gameCells;
                    var started := old(ui).(loading := true, progressText :=
                                     "fetching " + NatToString(|cells|) + " games from " + c.value.title);
                    && (repo.State(), outs) == AddAll(old(repo.State()), repo.fetch, CellRequests(cells), false)
                    && |outs| == |cells|
                    && (cells != [] ==>
                          ui == Cleared
                          && messages == old(messages) + [TallySummary(Successes(outs), Fails(outs), |cells|)])
                    && (cells == [] ==> ui == started && messages == old(messages)))
      ensures routes == old(routes)
    {
      outs := [];
      ui := ui.(loading := true, progressText := "fetching collection");
      var r, _ := collections.FetchCollection(url);
      if r.Failure? {
        ui := ui.(loading := false, progress := None, progressText := "");
        return;
      }
      var collection := r.value;
      var size := |collection.gameCells|;
      ui := ui.(loading := true, progressText := "fetching " + NatToString(size) + " games from " + collection.title);
      outs := repo.AddGameCells(collection.gameCells);
      CollectAdds(outs, size, CellTexts(collection.gameCells));
      if size > 0 {
        SummaryOnce(outs, size);
      }
    }

    /** The `collect` of a bulk import: the outcomes are tallied, the progress follows
        them, and the summary goes out once `size` outcomes have come. */
    method CollectAdds(outs: seq<Outcome>, size: nat, labels: seq<string>)
      requires |outs| <= |labels|
      modifies this
      ensures messages == old(messages) + TallyMessages(outs, size)
      ensures ui == ImportUi(old(ui), |outs|, size, labels)
      ensures routes == old(routes)
    {
      var index := 0;
      var successIndex := 0;
      var failIndex := 0;
      while index < |outs|
        invariant 0 <= index <= |outs|
        invariant successIndex == Successes(outs[..index]) && failIndex == Fails(outs[..index])
        invariant messages == old(messages) + TallyMessages(outs[..index], size)
        invariant ui == ImportUi(old(ui), index, size, labels)
        invariant routes == old(routes)
      {
        TallyStep(outs, size, index);
        ImportUiStep(old(ui), index, size, labels);
        index, successIndex, failIndex := OnOutcome(outs[index], index, size, labels[index], successIndex, failIndex);
      }
      assert outs[..index] == outs;
    }

    /** The body of the `collect` over the results: the counters, the progress, and the
        summary once the last result has come. */
    method OnOutcome(o: Outcome, index: nat, size: nat, text: string, successIndex: nat, failIndex: nat)
      returns (nextIndex: nat, nextSuccess: nat, nextFail: nat)
      modifies this
      ensures nextIndex == index + 1
      ensures nextSuccess == successIndex + (if o.Success? then 1 else 0)
      ensures nextFail == failIndex + (if o == Failure(ExistError) || o.Success? then 0 else 1)
      ensures ui == ProgressStep(old(ui), nextIndex, size, text)
      ensures messages == old(messages) + (if nextIndex >= size then [TallySummary(nextSuccess, nextFail, size)] else [])
      ensures routes == old(routes)
    {
      nextIndex, nextSuccess, nextFail := index + 1, successIndex, failIndex;
      if o.Success? {
        nextSuccess := nextSuccess + 1;
      } else if o != Failure(ExistError) {
        nextFail := nextFail + 1;
      }
      if size >= 5 {
        ui := ui.(progress := Some((nextIndex, size)), progressText := text);
      }
      if nextIndex >= size {
        ui := ui.(loading := false, progress := None, progressText := "");
        messages := messages + [TallySummary(nextSuccess, nextFail, size)];
      }
    }
  }
}
