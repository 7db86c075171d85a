/** The older import view model: a single url, the urls found in pasted text or the games
    of a collection are added through the repository. It differs from the newer one in
    that a single game added opens its detail screen, a bulk import counts only its
    successes ("added s/n"), and the stored annotations cannot be imported again. */
module NavImport {
  import opened Wrappers
  import opened Text
  import opened Games
  import opened Repository
  import opened LibraryCommon
  import opened Collections
  import opened Imports

  class ImportViewModel {
    var ui: ImportState
    var messages: seq<string>   // the toasts sent, in order
    var routes: seq<Route>      // the navigator calls, in order
    const repo: GameRepository
    const collections: CollectionRepository

    predicate Valid()
      reads this, repo
    {
      repo.Valid()
    }

    constructor (repo: GameRepository, collections: CollectionRepository)
      requires repo.Valid()
      ensures Valid() && this.repo == repo && this.collections == collections
      ensures ui == ImportState(None, false, "") && messages == [] && routes == []
    {
      this.repo := repo;
      this.collections := collections;
      ui := ImportState(None, false, "");
      messages := [];
      routes := [];
    }

    /** AddGame: one url is added; a success is announced and opens the game's detail
        screen, a failure sends its message; the progress is cleared. The repository
        declares no `addGame(url)`; its `addGameByUrl(url)` stands in for it. */
    method AddGame(url: string) returns (o: Outcome)
      requires Valid()
      modifies this, repo
      ensures Valid()
      ensures (repo.State(), o) == AddOne(old(repo.State()), repo.fetch, url, None, false)
      ensures messages == old(messages) + OutcomeMessages(o)
      ensures routes == old(routes) + (if o.Success? then [Detail(url, 0)] else [])
      ensures ui == Cleared
    {
      ui := ui.(loading := true);
      o := repo.AddGameByUrl(url);
      if o.Success? {
        messages := messages + ["added successfully"];
        routes := routes + [Detail(url, 0)];
      } else if FailureMessage(o.error).Some? {
        messages := messages + [FailureMessage(o.error).value];
      }
      ui := ui.(loading := false, progress := None, progressText := "");
    }

    /** AddGames: blank text and text without a game url are refused with a message and
        no repository change; otherwise every distinct cleaned url is added and, at the
        end, "added s/n" is sent. */
    method AddGames(text: string) returns (order: seq<string>, outs: seq<Outcome>)
      requires Valid()
      modifies this, repo
      ensures Valid()
      ensures IsBlank(text) ==>
                order == [] && outs == [] && repo.State() == old(repo.State())
                && messages == old(messages) + ["empty text"]
                && ui == old(ui).(loading := false, progress := None)
      ensures !IsBlank(text) && UrlsIn(text) == {} ==>
                order == [] && outs == [] && repo.State() == old(repo.State())
                && messages == old(messages) + ["no valid url"]
                && ui == old(ui).(loading := false, progress := None)
      ensures !IsBlank(text) && UrlsIn(text) != {} ==>
                var n := |UrlsIn(text)|;
                && |order| == n && (set u | u in order) == UrlsIn(text)
                && (forall i, j :: 0 <= i < j < |order| ==> order[i] != order[j])
                && (repo.State(), outs) == AddAll(old(repo.State()), repo.fetch, PlainRequests(order), false)
                && messages == old(messages) + ["try " + NatToString(n), AddedSummary(Successes(outs), n)]
                && ui == Cleared
      ensures routes == old(routes)
    {
      order, outs := [], [];
      ui := ui.(loading := true);
      if IsBlank(text) {
        messages := messages + ["empty text"];
        ui := ui.(loading := false, progress := None);
        return;
      }
      var urls := ExtractUrls(text);
      if urls == {} {
        messages := messages + ["no valid url"];
        ui := ui.(loading := false, progress := None);
        return;
      }
      ui := ui.(loading := true, progressText := "trying " + NatToString(|urls|) + " links from the file");
      order, outs := ImportUrls(urls);
    }

    /** The bulk part of AddGames. */
    method ImportUrls(urls: set<string>) returns (order: seq<string>, outs: seq<Outcome>)
      requires Valid() && urls != {}
      modifies this, repo
      ensures Valid()
      ensures |order| == |urls| && (set u | u in order) == urls
      ensures forall i, j :: 0 <= i < j < |order| ==> order[i] != order[j]
      ensures (repo.State(), outs) == AddAll(old(repo.State()), repo.fetch, PlainRequests(order), false)
      ensures messages == old(messages) + ["try " + NatToString(|urls|), AddedSummary(Successes(outs), |urls|)]
      ensures ui == Cleared && routes == old(routes)
    {
      var size := |urls|;
      messages := messages + ["try " + NatToString(size)];
      order, outs := repo.AddGames(urls, false);
      CollectAdds(outs, size, Fetching(size));
      SummaryOnce(outs, size);
    }

    /** Finish: back to the previous screen. */
    method Finish()
      modifies this
      ensures routes == old(routes) + [Back]
      ensures ui == old(ui) && messages == old(messages)
    {
      routes := routes + [Back];
    }

    /** FetchCollection: as in the newer view model, with the older summary. */
    method FetchCollection(url: string) returns (outs: seq<Outcome>)
      requires Valid()
      modifies this, repo
      ensures Valid()
      ensures var c := FetchCollectionSpec(collections.fetchFirst(url), collections.pages(url));
              && (c.Failure? ==> outs == [] && repo.State() == old(repo.State())
                                 && messages == old(messages) && ui == Cleared)
              && (c.Success? ==>
                    var cells := c.value.gameCells;
                    var started := old(ui).(loading := true, progressText :=
                                     "fetching " + NatToString(|cells|) + " games from " + c.value.title);
                    && (repo.State(), outs) == AddAll(old(repo.State()), repo.fetch, CellRequests(cells), false)
                    && |outs| == |cells|
                    && (cells != [] ==>
                          ui == Cleared
                          && messages == old(messages) + [AddedSummary(Successes(outs), |cells|)])
                    && (cells == [] ==> ui == started && messages == old(messages)))
      ensures routes == old(routes)
    {
      outs := [];
      ui := ui.(loading := true, progressText := "fetching collection");
      var r, _ := collections.FetchCollection(url);
      if r.Failure? {
        ui := ui.(loading := false, progress := None, progressText := "");
        return;
      }
      var collection := r.value;
      var size := |collection.gameCells|;
      ui := ui.(loading := true, progressText := "fetching " + NatToString(size) + " games from " + collection.title);
      outs := repo.AddGameCells(collection.gameCells);
      CollectAdds(outs, size, CellTexts(collection.gameCells));
      if size > 0 {
        SummaryOnce(outs, size);
      }
    }

    /** The `collect` of a bulk import: the successes are counted, the progress follows
        the outcomes, and "added s/n" goes out once `size` outcomes have come. */
    method CollectAdds(outs: seq<Outcome>, size: nat, labels: seq<string>)
      requires |outs| <= |labels|
      modifies this
      ensures messages == old(messages) + AddedMessages(outs, size)
      ensures ui == ImportUi(old(ui), |outs|, size, labels)
      ensures routes == old(routes)
    {
      var index := 0;
      var successIndex := 0;
      while index < |outs|
        invariant 0 <= index <= |outs|
        invariant successIndex == Successes(outs[..index])
        invariant messages == old(messages) + AddedMessages(outs[..index], size)
        invariant ui == ImportUi(old(ui), index, size, labels)
        invariant routes == old(routes)
      {
        var o := outs[index];
        AddedStep(outs, size, index);
        ImportUiStep(old(ui), index, size, labels);
        ghost var before := ui;
        index := index + 1;
        if o.Success? {
          successIndex := successIndex + 1;
        }
        if size >= 5 {
          ui := ui.(progress := Some((index, size)), progressText := labels[index - 1]);
        }
        if index >= size {
          ui := ui.(loading := false, progress := None, progressText := "");
          messages := messages + [AddedSummary(successIndex, size)];
        }
        assert ui == ProgressStep(before, index, size, labels[index - 1]);
      }
      assert outs[..index] == outs;
    }
  }
}
