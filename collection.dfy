/** `CollectionRepository`: a collection's first page, and when that page is full, the
    pages 2, 3, … of its JSON listing until the first empty one.

    The remote data source is two functions: `fetchFirst(url)`, the parsed first page,
    and `pages(url)`, the results the JSON listing gives for pages 2, 3, … in order; a
    page beyond the end of that sequence is empty. */
module Collections {
  import opened Wrappers
  import opened Games
  import opened Repository

  /** `CollectionApiModel`. */
  datatype Collection = Collection(gameCells: seq<GameCell>, title: string, url: string, description: Option<string>)

  type PageResult = Result<seq<GameCell>, FetchError>

  /** A first page with fewer cells than this is the whole collection. */
  const FullPage: nat := 20

  /** The cells of pages 2, 3, … up to the first empty page, or the first failure. */
  function LastPages(ps: seq<PageResult>): PageResult {
    if ps == [] then Success([])
    else
      match ps[0]
      case Failure(e) => Failure(e)
      case Success(cells) =>
        if cells == [] then Success([])
        else
          match LastPages(ps[1..])
          case Failure(e) => Failure(e)
          case Success(more) => Success(cells + more)
  }

  /** The number of pages requested: every non-empty page, and the one that ends the loop
      (empty, failed, or past the end). */
  function Requests(ps: seq<PageResult>): (n: nat)
    ensures 1 <= n <= |ps| + 1
  {
    if ps == [] || ps[0].Failure? || ps[0].value == [] then 1 else 1 + Requests(ps[1..])
  }

  /** The page numbers 2, 3, …, n + 1. */
  function PageNumbers(n: nat): (r: seq<nat>)
    ensures |r| == n && forall k :: 0 <= k < n ==> r[k] == k + 2
  {
    seq(n, k requires 0 <= k < n => k + 2)
  }

  /** How many leading pages are non-empty successes. */
  function Leading(ps: seq<PageResult>): (n: nat)
    ensures n <= |ps|
    ensures forall k :: 0 <= k < n ==> ps[k].Success? && ps[k].value != []
    ensures n < |ps| ==> ps[n].Failure? || ps[n].value == []
  {
    if ps == [] || ps[0].Failure? || ps[0].value == [] then 0 else 1 + Leading(ps[1..])
  }

  /** The cells of the successful pages, in page order. */
  function Cells(ps: seq<PageResult>): seq<GameCell> {
    if ps == [] then [] else (if ps[0].Success? then ps[0].value else []) + Cells(ps[1..])
  }

  /** The result, stated through the leading non-empty pages: a failure exactly when the
      page that ends the run failed; otherwise the cells of the run, in page order, the
      empty page and everything after it contributing nothing. */
  lemma {:induction false} LastPagesByLeading(ps: seq<PageResult>)
    ensures var n := Leading(ps);
            && (LastPages(ps).Failure? <==> n < |ps| && ps[n].Failure?)
            && (LastPages(ps).Failure? ==> LastPages(ps).error == ps[n].error)
            && (LastPages(ps).Success? ==> LastPages(ps).value == Cells(ps[..n]))
  {
    if ps != [] && ps[0].Success? && ps[0].value != [] {
      LastPagesByLeading(ps[1..]);
      var n := Leading(ps[1..]);
      assert ps[..n + 1] == [ps[0]] + ps[1..][..n];
      assert ([ps[0]] + ps[1..][..n])[1..] == ps[1..][..n];
    }
  }

  /** One page less of the run to go, as the loop takes it. */
  function Prepend(all: seq<GameCell>, r: PageResult): PageResult {
    match r
    case Success(more) => Success(all + more)
    case Failure(e) => Failure(e)
  }

  /** `fetchCollection`: a failed first page fails with its message; a first page of
      fewer than 20 cells is the result; otherwise the later pages are appended to the
      first page's cells, and their failure fails the whole fetch. */
  function FetchCollectionSpec(first: Result<Collection, FetchError>, ps: seq<PageResult>): Result<Collection, FetchError> {
    match first
    case Failure(e) => Failure(FetchError(e.message))
    case Success(data) =>
      if |data.gameCells| < FullPage then Success(data)
      else
        match LastPages(ps)
        case Success(more) => Success(data.(gameCells := data.gameCells + more))
        case Failure(e) => Failure(FetchError(e.message))
  }

  /** A successful fetch keeps the first page's title, url and description and starts
      with its cells; a failure carries the failing page's message. */
  lemma {:induction false} FetchCollectionEffect(first: Result<Collection, FetchError>, ps: seq<PageResult>)
    ensures var r := FetchCollectionSpec(first, ps);
            && (first.Failure? ==> r == Failure(first.error))
            && (first.Success? && |first.value.gameCells| < FullPage ==> r == first)
            && (r.Success? ==> first.Success?
                               && r.value.title == first.value.title
                               && r.value.url == first.value.url
                               && r.value.description == first.value.description
                               && |first.value.gameCells| <= |r.value.gameCells|
                               && r.value.gameCells[..|first.value.gameCells|] == first.value.gameCells)
            && (first.Success? && |first.value.gameCells| >= FullPage ==>
                  (r.Failure? <==> LastPages(ps).Failure?))
  {
    match FetchCollectionSpec(first, ps)
    case Success(c) =>
      if |first.value.gameCells| >= FullPage {
        var more := LastPages(ps).value;
        assert c.gameCells == first.value.gameCells + more;
        assert c.gameCells[..|first.value.gameCells|] == first.value.gameCells;
      }
    case Failure(_) =>
  }

  lemma {:induction false} LastPagesStep(ps: seq<PageResult>, i: nat)
    requires i < |ps| && ps[i].Success? && ps[i].value != []
    ensures LastPages(ps[i..]) == Prepend(ps[i].value, LastPages(ps[i + 1..]))
    ensures Requests(ps[i..]) == 1 + Requests(ps[i + 1..])
  {
    assert ps[i..][0] == ps[i];
    assert ps[i..][1..] == ps[i + 1..];
  }

  lemma {:induction false} PrependTwice(a: seq<GameCell>, b: seq<GameCell>, r: PageResult)
    ensures Prepend(a, Prepend(b, r)) == Prepend(a + b, r)
  {
    if r.Success? {
      assert a + (b + r.value) == (a + b) + r.value;
    }
  }

  class CollectionRepository {
    const fetchFirst: string -> Result<Collection, FetchError>
    const pages: string -> seq<PageResult>

    constructor (fetchFirst: string -> Result<Collection, FetchError>, pages: string -> seq<PageResult>)
      ensures this.fetchFirst == fetchFirst && this.pages == pages
    {
      this.fetchFirst := fetchFirst;
      this.pages := pages;
    }

    /** The JSON listing's page `n` (from 2): empty beyond the known pages. */
    function PageAt(url: string, n: nat): (r: PageResult)
      requires n >= 2
      reads this
      ensures n - 2 < |pages(url)| ==> r == pages(url)[n - 2]
      ensures n - 2 >= |pages(url)| ==> r == Success([])
    {
      if n - 2 < |pages(url)| then pages(url)[n - 2] else Success([])
    }

    /** `fetchLastPages`: pages 2, 3, … are requested in order, their cells appended,
        until an empty page; a failing page fails the whole run. The requested page
        numbers are returned beside the result. */
    method FetchLastPages(url: string) returns (r: PageResult, requested: seq<nat>)
      ensures r == LastPages(pages(url))
      ensures requested == PageNumbers(Requests(pages(url)))
    {
      var ps := pages(url);
      var all: seq<GameCell> := [];
      var currentPage := 2;
      requested := [];
      assert ps[0..] == ps;
      if LastPages(ps).Success? {
        assert [] + LastPages(ps).value == LastPages(ps).value;
      }
      while true
        invariant 2 <= currentPage <= |ps| + 2
        invariant LastPages(ps) == Prepend(all, LastPages(ps[currentPage - 2..]))
        invariant Requests(ps) == currentPage - 2 + Requests(ps[currentPage - 2..])
        invariant requested == PageNumbers(currentPage - 2)
        decreases |ps| + 2 - currentPage
      {
        var page := PageAt(url, currentPage);
        requested := requested + [currentPage];
        var i := currentPage - 2;
        if page.Failure? {
          assert ps[i..][0] == ps[i];
          return Failure(page.error), requested;
        }
        if page.value == [] {
          if i < |ps| {
            assert ps[i..][0] == ps[i];
          }
          break;
        }
        LastPagesStep(ps, i);
        PrependTwice(all, page.value, LastPages(ps[i + 1..]));
        all := all + page.value;
        currentPage := currentPage + 1;
      }
      assert LastPages(ps[currentPage - 2..]) == Success([]);
      assert all + [] == all;
      return Success(all), requested;
    }

    /** `fetchCollection(url)`; `requested` lists the later pages asked for. */
    method FetchCollection(url: string) returns (r: Result<Collection, FetchError>, requested: seq<nat>)
      ensures r == FetchCollectionSpec(fetchFirst(url), pages(url))
      ensures requested == if fetchFirst(url).Success? && |fetchFirst(url).value.gameCells| >= FullPage
                           then PageNumbers(Requests(pages(url))) else []
    {
      requested := [];
      var first := fetchFirst(url);
      if first.Failure? {
        return Failure(FetchError(first.error.message)), requested;
      }
      var data := first.value;
      if |data.gameCells| < FullPage {
        return Success(data), requested;
      }
      var last;
      last, requested := FetchLastPages(url);
      if last.Failure? {
        return Failure(FetchError(last.error.message)), requested;
      }
      return Success(data.(gameCells := data.gameCells + last.value)), requested;
    }
  }
}
