/** `toSearchApiModel` and `parseSearchTags`: what a search result page and the tag
    selector of the tag page give, once the HTML elements are selected. A page is its
    grid of game cells (if there is a grid) and whether it shows the empty-result
    message; a cell is the texts and attributes its selectors found. */
module SearchModel {
  import opened Wrappers
  import opened Text
  import opened Tags
  import opened Platforms

  /** The selected parts of one `div.game_cell`. */
  datatype CellData = CellData(
    href: string,                 // the thumb link's href
    name: string,
    description: Option<string>,
    image: Option<string>,
    author: string,
    verifiedAuthor: bool,
    price: Option<string>,        // `div.price_value`
    saleTag: Option<string>,      // `div.sale_tag`
    genre: Option<string>,
    platformHtml: Option<string>) // `div.game_platform`

  /** A search page: the cells of `div.game_grid_widget` when there is one, and whether
      `div.empty_message` is present. */
  datatype SearchPage = SearchPage(grid: Option<seq<CellData>>, emptyMessage: bool)

  datatype SearchResult = SearchResult(
    url: string,
    name: string,
    image: Option<string>,
    author: string,
    verifiedAuthor: bool,
    description: Option<string>,
    price: Option<string>,
    genre: Option<string>,
    platforms: seq<Platform>)

  datatype SearchApiModel = SearchApiModel(items: seq<SearchResult>, total: int)

  /** The `priceText` of a cell: no price, the price alone, or "price(sale)". */
  function PriceText(price: Option<string>, saleTag: Option<string>): Option<string> {
    match price
    case None => None
    case Some(p) =>
      match saleTag
      case None => Some(p)
      case Some(s) => Some(p + "(" + s + ")")
  }

  /** A price text exists exactly when there is a price; it starts with the price, is
      the price alone exactly when there is no sale tag, and otherwise ends with the sale
      tag in parentheses. */
  lemma {:induction false} PriceTextLaws(price: Option<string>, saleTag: Option<string>)
    ensures PriceText(price, saleTag).Some? <==> price.Some?
    ensures price.Some? ==> StartsWith(PriceText(price, saleTag).value, price.value)
    ensures price.Some? ==> (PriceText(price, saleTag) == price <==> saleTag.None?)
    ensures price.Some? && saleTag.Some? ==>
              var t := PriceText(price, saleTag).value;
              var k := |price.value|;
              |t| == k + |saleTag.value| + 2 && t[k] == '(' && t[k + 1..|t| - 1] == saleTag.value && t[|t| - 1] == ')'
  {
    if price.Some? && saleTag.Some? {
      var t := PriceText(price, saleTag).value;
      var k := |price.value|;
      assert t == price.value + "(" + saleTag.value + ")";
      assert t[..k] == price.value;
      assert t[k + 1..|t| - 1] == saleTag.value;
    }
  }

  /** The platforms of a cell, as specified: every `platformMap` key in the platform
      block, in map order; none without a block. */
  function CellPlatformsSpec(platformHtml: Option<string>): seq<Platform> {
    match platformHtml
    case None => []
    case Some(html) => Matching(PlatformMap, html)
  }

  lemma {:induction false} MatchingAppend(a: seq<(string, Platform)>, b: seq<(string, Platform)>, text: string)
    ensures Matching(a + b, text) == Matching(a, text) + Matching(b, text)
  {
    if a == [] {
      assert a + b == b;
    } else {
      var ab := a + b;
      var head := if KeyIn(a[0], text) then [a[0].1] else [];
      assert ab[0] == a[0];
      assert ab[1..] == a[1..] + b;
      assert Matching(ab, text) == head + Matching(ab[1..], text);
      MatchingAppend(a[1..], b, text);
      assert Matching(a, text) == head + Matching(a[1..], text);
    }
  }

  /** The loop over `platformMap` that fills `platforms`. */
  method CellPlatforms(platformHtml: Option<string>) returns (platforms: seq<Platform>)
    ensures platforms == CellPlatformsSpec(platformHtml)
  {
    platforms := [];
    if platformHtml.Some? {
      var html := platformHtml.value;
      var i := 0;
      while i < |PlatformMap|
        invariant 0 <= i <= |PlatformMap|
        invariant platforms == Matching(PlatformMap[..i], html)
      {
        var (platformName, platform) := PlatformMap[i];
        MatchingAppend(PlatformMap[..i], [PlatformMap[i]], html);
        assert PlatformMap[..i + 1] == PlatformMap[..i] + [PlatformMap[i]];
        if ContainsIgnoreCase(html, platformName) {
          platforms := platforms + [platform];
        }
        i := i + 1;
      }
      assert PlatformMap[..i] == PlatformMap;
    }
  }

  /** A platform is listed exactly when some key naming it is in the block. */
  lemma {:induction false} CellPlatformsMembers(html: string, p: Platform)
    ensures p in CellPlatformsSpec(Some(html)) <==>
            exists i :: 0 <= i < |PlatformMap| && PlatformMap[i].1 == p && ContainsIgnoreCase(html, PlatformMap[i].0)
  {
    MatchingMembers(PlatformMap, html, p);
  }

  /** A block mentioning both "browser" and "HTML" lists Web twice. */
  lemma {:induction false} WebListedTwice(html: string)
    requires ContainsIgnoreCase(html, "browser") && ContainsIgnoreCase(html, "HTML")
    ensures multiset(CellPlatformsSpec(Some(html)))[Web] == 2
  {
    var head := PlatformMap[..5];
    assert PlatformMap == head + [PlatformMap[5]] + [PlatformMap[6]];
    MatchingAppend(head + [PlatformMap[5]], [PlatformMap[6]], html);
    MatchingAppend(head, [PlatformMap[5]], html);
    MatchingMembers(head, html, Web);
    assert Web !in Matching(head, html);
    assert Matching([PlatformMap[5]], html) == [Web];
    assert Matching([PlatformMap[6]], html) == [Web];
  }

  /** The `SearchResult` of one cell. */
  function ToSearchResult(c: CellData): (r: SearchResult)
    ensures r.url == c.href && r.name == c.name && r.author == c.author && r.verifiedAuthor == c.verifiedAuthor
    ensures r.image == c.image && r.description == c.description && r.genre == c.genre
    ensures r.price == PriceText(c.price, c.saleTag)
    ensures r.platforms == CellPlatformsSpec(c.platformHtml)
  {
    SearchResult(c.href, c.name, c.image, c.author, c.verifiedAuthor, c.description,
                 PriceText(c.price, c.saleTag), c.genre, CellPlatformsSpec(c.platformHtml))
  }

  function Results(cells: seq<CellData>): (r: seq<SearchResult>)
    ensures |r| == |cells| && forall i :: 0 <= i < |cells| ==> r[i] == ToSearchResult(cells[i])
  {
    seq(|cells|, i requires 0 <= i < |cells| => ToSearchResult(cells[i]))
  }

  /** `toSearchApiModel`: a page without a grid is an empty result when it shows the
      empty message and an error otherwise; a grid gives one result per cell, in order,
      and the total counts them. */
  function ToSearchApiModel(page: SearchPage): (r: Result<SearchApiModel, string>)
    ensures page.grid.None? && page.emptyMessage ==> r == Success(SearchApiModel([], 0))
    ensures page.grid.None? && !page.emptyMessage ==> r == Failure("game grid not found")
    ensures page.grid.Some? ==> r.Success? && r.value.items == Results(page.grid.value)
    ensures r.Success? ==> r.value.total == |r.value.items|
  {
    match page.grid
    case None => if page.emptyMessage then Success(SearchApiModel([], 0)) else Failure("game grid not found")
    case Some(cells) =>
      var items := Results(cells);
      Success(SearchApiModel(items, |items|))
  }

  // ---- the tag selector ----

  /** One `option` of `select.tag_selector`: its `value` and its text. */
  datatype TagOption = TagOption(value: string, text: string)

  /** The tag of a kept option: the name after the last '/', the classification between
      the first '/' and the last. */
  function TagOf(o: TagOption): (r: SearchTag)
    ensures r.displayName == o.text && '/' !in r.tagName
  {
    SearchTag(o.text, SubstringAfterLast(o.value, '/'), SubstringBeforeLast(SubstringAfter(o.value, '/'), '/'))
  }

  /** An option "/c/n" reads as the tag n of classification c, whatever '/' c holds. */
  lemma {:induction false} TagOfPath(c: string, n: string, d: string)
    requires '/' !in n
    ensures TagOf(TagOption("/" + c + "/" + n, d)) == SearchTag(d, n, c)
  {
    var url := "/" + c + "/" + n;
    AfterLeadingSlash(c, n);
    LastSlashOfPath("/" + c, n);
    LastSlashOfPath(c, n);
    assert url == ("/" + c) + "/" + n;
  }

  /** The text after the first '/' of "/c/n" is "c/n". */
  lemma {:induction false} AfterLeadingSlash(c: string, n: string)
    ensures SubstringAfter("/" + c + "/" + n, '/') == c + "/" + n
  {
    var url := "/" + c + "/" + n;
    IndexOfAt(url, '/', 0);
    assert url[1..] == c + "/" + n;
  }

  /** The tags of the options with a non-blank value, in option order. */
  function TagsSpec(options: seq<TagOption>): (r: seq<SearchTag>)
    ensures |r| <= |options|
  {
    if options == [] then []
    else TagsSpec(options[..|options| - 1])
         + (if IsBlank(options[|options| - 1].value) then [] else [TagOf(options[|options| - 1])])
  }

  lemma {:induction false} TagsSpecAppend(a: seq<TagOption>, b: seq<TagOption>)
    ensures TagsSpec(a + b) == TagsSpec(a) + TagsSpec(b)
    decreases |b|
  {
    if b == [] {
      assert a + b == a;
    } else {
      var b0 := b[..|b| - 1];
      assert (a + b)[..|a + b| - 1] == a + b0;
      assert (a + b)[|a + b| - 1] == b[|b| - 1];
      TagsSpecAppend(a, b0);
    }
  }

  /** Each kept tag comes from a non-blank option, and every non-blank option gives its
      tag. */
  lemma {:induction false} TagsSpecMembers(options: seq<TagOption>, t: SearchTag)
    ensures t in TagsSpec(options) <==>
            exists i :: 0 <= i < |options| && !IsBlank(options[i].value) && TagOf(options[i]) == t
  {
    if t in TagsSpec(options) {
      TagsSpecSound(options, t);
    }
    if exists i :: 0 <= i < |options| && !IsBlank(options[i].value) && TagOf(options[i]) == t {
      var i :| 0 <= i < |options| && !IsBlank(options[i].value) && TagOf(options[i]) == t;
      TagsSpecComplete(options, i);
    }
  }

  lemma {:induction false} TagsSpecSound(options: seq<TagOption>, t: SearchTag)
    requires t in TagsSpec(options)
    ensures exists i :: 0 <= i < |options| && !IsBlank(options[i].value) && TagOf(options[i]) == t
    decreases |options|
  {
    var init := options[..|options| - 1];
    var o := options[|options| - 1];
    if t in TagsSpec(init) {
      TagsSpecSound(init, t);
      var i :| 0 <= i < |init| && !IsBlank(init[i].value) && TagOf(init[i]) == t;
      assert options[i] == init[i];
    } else {
      assert !IsBlank(o.value) && TagOf(o) == t;
    }
  }

  lemma {:induction false} TagsSpecComplete(options: seq<TagOption>, i: nat)
    requires i < |options| && !IsBlank(options[i].value)
    ensures TagOf(options[i]) in TagsSpec(options)
    decreases |options|
  {
    var init := options[..|options| - 1];
    if i < |options| - 1 {
      assert init[i] == options[i];
      TagsSpecComplete(init, i);
    }
  }

  /** `parseSearchTags`: no tag selector is the error "cannot fetch tags"; otherwise the
      options with a non-blank value are turned into tags in a `forEach`. */
  method ParseSearchTags(options: Option<seq<TagOption>>) returns (r: Result<seq<SearchTag>, string>)
    ensures options.None? ==> r == Failure("cannot fetch tags")
    ensures options.Some? ==> r == Success(TagsSpec(options.value))
  {
    if options.None? {
      return Failure("cannot fetch tags");
    }
    var elements := options.value;
    var tags: seq<SearchTag> := [];
    var i := 0;
    while i < |elements|
      invariant 0 <= i <= |elements|
      invariant tags == TagsSpec(elements[..i])
    {
      var url := elements[i].value;
      assert elements[..i + 1][..i] == elements[..i];
      if !IsBlank(url) {
        var displayName := elements[i].text;
        var classification := SubstringBeforeLast(SubstringAfter(url, '/'), '/');
        var tagName := SubstringAfterLast(url, '/');
        assert SearchTag(displayName, tagName, classification) == TagOf(elements[i]);
        tags := tags + [SearchTag(displayName, tagName, classification)];
      }
      assert elements[..i + 1][i] == elements[i];
      i := i + 1;
    }
    assert elements[..i] == elements;
    return Success(tags);
  }
}
