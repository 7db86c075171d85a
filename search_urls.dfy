/** The addresses the search data source requests: the keyword search, the tag search
    page and its JSON pages, and the page the tag list is read from. The tag search
    address is built by appending the sort's path and then each tag's name. */
module SearchUrls {
  import opened Wrappers
  import opened Text
  import opened Tags

  const ItchRoot := "https://itch.io/"

  /** `https://itch.io/tags?page=16`, a page with no games and the full tag selector. */
  const AllTagsUrl := "https://itch.io/tags?page=16"

  /** The keyword search: classification and keyword are put in as they are, unescaped. */
  function KeywordSearchUrl(keyword: string, classification: string): (r: string)
    ensures StartsWith(r, "https://itch.io/search?type=games&classification=")
    ensures r[49..] == classification + "&q=" + keyword
  {
    "https://itch.io/search?type=games&classification=" + classification + "&q=" + keyword
  }

  /** The path the sort adds: nothing for Popular. */
  function SortSuffix(t: SearchSortType): (r: string)
    ensures t == Popular <==> r == ""
  {
    match t
    case Popular => ""
    case NewAPopular => "/new-and-popular"
    case TopSellers => "/top-sellers"
    case TopRated => "/top-rated"
    case MostRecent => "/newest"
  }

  /** Different sorts ask for different paths. */
  lemma {:induction false} SortSuffixInjective(a: SearchSortType, b: SearchSortType)
    requires SortSuffix(a) == SortSuffix(b)
    ensures a == b
  {
  }

  /** "/" and the name of each tag, in list order (the list is not sorted here). */
  function TagPath(tags: seq<SearchTag>): (r: string)
  {
    if tags == [] then "" else TagPath(tags[..|tags| - 1]) + "/" + tags[|tags| - 1].tagName
  }

  function TagNames(tags: seq<SearchTag>): (r: seq<string>)
    ensures |r| == |tags| && forall i :: 0 <= i < |tags| ==> r[i] == tags[i].tagName
  {
    seq(|tags|, i requires 0 <= i < |tags| => tags[i].tagName)
  }

  lemma {:induction false} TagPathAppend(a: seq<SearchTag>, b: seq<SearchTag>)
    ensures TagPath(a + b) == TagPath(a) + TagPath(b)
    decreases |b|
  {
    if b == [] {
      assert a + b == a;
    } else {
      var b0 := b[..|b| - 1];
      assert (a + b)[..|a + b| - 1] == a + b0;
      assert (a + b)[|a + b| - 1] == b[|b| - 1];
      TagPathAppend(a, b0);
    }
  }

  lemma {:induction false} TagNamesLast(tags: seq<SearchTag>)
    requires tags != []
    ensures TagNames(tags) == TagNames(tags[..|tags| - 1]) + [tags[|tags| - 1].tagName]
  {
    var init := tags[..|tags| - 1];
    var r := TagNames(init) + [tags[|tags| - 1].tagName];
    forall i | 0 <= i < |tags|
      ensures TagNames(tags)[i] == r[i]
    {
      if i < |init| {
        assert init[i] == tags[i];
      }
    }
  }

  /** The last tag's name is what follows the last '/' of the path, and the path of the
      other tags is what precedes it. */
  lemma {:induction false} TagPathLast(tags: seq<SearchTag>)
    requires tags != [] && '/' !in tags[|tags| - 1].tagName
    ensures var init := TagPath(tags[..|tags| - 1]);
            var path := TagPath(tags);
            && LastIndexOf(path, '/') == Some(|init|)
            && path[..|init|] == init
            && path[|init| + 1..] == tags[|tags| - 1].tagName
  {
    var init := TagPath(tags[..|tags| - 1]);
    var n := tags[|tags| - 1].tagName;
    var path := init + "/" + n;
    assert path == TagPath(tags);
    assert path[|init|] == '/';
    assert path[|init| + 1..] == n;
    assert path[..|init|] == init;
    LastIndexOfAt(path, '/', |init|);
  }

  /** A path of tag names without '/' gives back the names: different tag lists ask for
      different addresses. */
  lemma {:induction false} TagPathInjective(a: seq<SearchTag>, b: seq<SearchTag>)
    requires forall i :: 0 <= i < |a| ==> '/' !in a[i].tagName
    requires forall i :: 0 <= i < |b| ==> '/' !in b[i].tagName
    requires TagPath(a) == TagPath(b)
    ensures TagNames(a) == TagNames(b)
    decreases |a|
  {
    if a != [] && b != [] {
      var a0, b0 := a[..|a| - 1], b[..|b| - 1];
      TagPathLast(a);
      TagPathLast(b);
      var p := TagPath(a);
      assert |TagPath(a0)| == |TagPath(b0)|;
      assert TagPath(a0) == p[..|TagPath(a0)|] == TagPath(b0);
      assert a[|a| - 1].tagName == b[|b| - 1].tagName;
      forall i | 0 <= i < |a0|
        ensures '/' !in a0[i].tagName
      {
        assert a0[i] == a[i];
      }
      forall i | 0 <= i < |b0|
        ensures '/' !in b0[i].tagName
      {
        assert b0[i] == b[i];
      }
      TagPathInjective(a0, b0);
      TagNamesLast(a);
      TagNamesLast(b);
    }
  }

  /** The tag search address, as specified. */
  function TagSearchUrlSpec(tags: seq<SearchTag>, sortType: SearchSortType, classification: string): string {
    ItchRoot + classification + SortSuffix(sortType) + TagPath(tags)
  }

  /** The address starts with the root and the classification; the sort's path and the
      tag path follow, in that order. */
  lemma {:induction false} TagSearchUrlParts(tags: seq<SearchTag>, sortType: SearchSortType, classification: string)
    ensures var url := TagSearchUrlSpec(tags, sortType, classification);
            var k := |ItchRoot + classification|;
            && StartsWith(url, ItchRoot + classification)
            && url[k..k + |SortSuffix(sortType)|] == SortSuffix(sortType)
            && url[k + |SortSuffix(sortType)|..] == TagPath(tags)
  {
    var url := TagSearchUrlSpec(tags, sortType, classification);
    var k := |ItchRoot + classification|;
    assert url == (ItchRoot + classification) + SortSuffix(sortType) + TagPath(tags);
    assert url[..k] == ItchRoot + classification;
  }

  /** The tags are not sorted: two tags with different names, given in the other order,
      ask for a different address. */
  lemma {:induction false} TagOrderKept(t1: SearchTag, t2: SearchTag, sortType: SearchSortType, classification: string)
    requires '/' !in t1.tagName && '/' !in t2.tagName && t1.tagName != t2.tagName
    ensures TagSearchUrlSpec([t1, t2], sortType, classification) != TagSearchUrlSpec([t2, t1], sortType, classification)
  {
    if TagSearchUrlSpec([t1, t2], sortType, classification) == TagSearchUrlSpec([t2, t1], sortType, classification) {
      var pre := ItchRoot + classification + SortSuffix(sortType);
      var u := TagSearchUrlSpec([t1, t2], sortType, classification);
      assert u == pre + TagPath([t1, t2]);
      assert u[|pre|..] == TagPath([t1, t2]) && u[|pre|..] == TagPath([t2, t1]);
      TagPathInjective([t1, t2], [t2, t1]);
      assert false;
    }
  }

  /** `fetchTagSearch`'s `var url`: the root and classification, the sort, then one
      `url += "/" + tagName` per tag. */
  method TagSearchUrl(tags: seq<SearchTag>, sortType: SearchSortType, classification: string) returns (url: string)
    ensures url == TagSearchUrlSpec(tags, sortType, classification)
  {
    url := ItchRoot + classification;
    url := url + SortSuffix(sortType);
    ghost var base := url;
    var i := 0;
    while i < |tags|
      invariant 0 <= i <= |tags|
      invariant url == base + TagPath(tags[..i])
    {
      assert tags[..i + 1][..i] == tags[..i];
      url := url + "/" + tags[i].tagName;
      i := i + 1;
    }
    assert tags[..i] == tags;
  }

  /** `fetchTagSearchJSON`'s address: the same path with the page and the JSON format. */
  method TagSearchJsonUrl(tags: seq<SearchTag>, sortType: SearchSortType, page: int, classification: string)
    returns (url: string)
    ensures url == TagSearchUrlSpec(tags, sortType, classification) + "?page=" + IntToString(page) + "&format=json"
  {
    url := TagSearchUrl(tags, sortType, classification);
    url := url + "?page=" + IntToString(page) + "&format=json";
  }

  lemma {:induction false} TwoTagPath(t1: SearchTag, t2: SearchTag)
    ensures TagPath([t1, t2]) == "/" + t1.tagName + "/" + t2.tagName
  {
    var tags := [t1, t2];
    assert tags[..1] == [t1] && tags[..1][..0] == [];
    assert TagPath([t1]) == "" + "/" + t1.tagName == "/" + t1.tagName;
  }

  lemma {:induction false} ExampleRoot()
    ensures ItchRoot + "games" + "" == "https://itch.io/games"
  {
  }

  lemma {:induction false} ExampleTags()
    ensures "/" + "tag-endless" + "/" + "tag-pixel-art" == "/tag-endless/tag-pixel-art"
  {
  }

  lemma {:induction false} ExampleJoin()
    ensures "https://itch.io/games" + "/tag-endless/tag-pixel-art" == "https://itch.io/games/tag-endless/tag-pixel-art"
  {
  }

  lemma {:induction false} ExamplePath(d1: string, c1: string, d2: string, c2: string)
    ensures TagSearchUrlSpec([SearchTag(d1, "tag-endless", c1), SearchTag(d2, "tag-pixel-art", c2)], Popular, "games")
            == "https://itch.io/games/tag-endless/tag-pixel-art"
  {
    TwoTagPath(SearchTag(d1, "tag-endless", c1), SearchTag(d2, "tag-pixel-art", c2));
    ExampleRoot();
    ExampleTags();
    ExampleJoin();
  }

  lemma {:induction false} ExampleQuery()
    ensures "https://itch.io/games/tag-endless/tag-pixel-art" + "?page=" + IntToString(2) + "&format=json"
            == "https://itch.io/games/tag-endless/tag-pixel-art?page=2&format=json"
  {
    assert IntToString(2) == "2";
  }

  /** The address of the example in the data source: page 2 of the games tagged
      "tag-endless" and "tag-pixel-art", by popularity. */
  lemma {:induction false} TagSearchJsonExample(d1: string, c1: string, d2: string, c2: string)
    ensures TagSearchUrlSpec([SearchTag(d1, "tag-endless", c1), SearchTag(d2, "tag-pixel-art", c2)], Popular, "games")
            + "?page=" + IntToString(2) + "&format=json"
            == "https://itch.io/games/tag-endless/tag-pixel-art?page=2&format=json"
  {
    ExamplePath(d1, c1, d2, c2);
    ExampleQuery();
  }
}
