/** Tags attached to games (`FilterTag`, and the older `Tag`), the tags offered by the
    search page (`SearchTag`), and the two sort enums declared beside them. */
module Tags {
  import opened Wrappers
  import opened Text

  datatype TagType = Status | Platform | Author | MadeWith | NormalTag | Duration
                   | Language | Input | Category | Genre | Link

  /** The library sort keys. `Time` is declared but no comparator uses it. */
  datatype SortType = Name | Time | TimeReverse | Starred | Updated

  /** The sort orders of the search page. */
  datatype SearchSortType = Popular | NewAPopular | TopSellers | TopRated | MostRecent

  datatype FilterTag = FilterTag(displayName: string, url: string, tagType: TagType)

  /** Link and Author tags are identified by their whole url, every other tag by the last
      path segment of its url. */
  function KeyOf(url: string, t: TagType): string {
    if t == Link || t == Author then url else SubstringAfterLast(url, '/')
  }

  /** `FilterTag.tagName`. */
  function TagName(t: FilterTag): string {
    KeyOf(t.url, t.tagType)
  }

  /** What `tagName` is, for both shapes of url. */
  lemma {:induction false} TagNameShape(t: FilterTag)
    ensures t.tagType == Link || t.tagType == Author ==> TagName(t) == t.url
    ensures t.tagType != Link && t.tagType != Author ==>
              '/' !in TagName(t)
              && (if '/' in t.url
                  then |TagName(t)| < |t.url| && t.url[|t.url| - |TagName(t)| - 1..] == "/" + TagName(t)
                  else TagName(t) == t.url)
  {
    var r := TagName(t);
    if t.tagType != Link && t.tagType != Author && '/' in t.url {
      assert r != t.url;
      assert t.url[|t.url| - |r| - 1..] == [t.url[|t.url| - |r| - 1]] + t.url[|t.url| - |r|..];
    }
  }

  /** `FilterTag.equals`: display name, type and `tagName` agree; the url itself is not
      compared. */
  predicate SameTag(a: FilterTag, b: FilterTag) {
    a.displayName == b.displayName && a.tagType == b.tagType && TagName(a) == TagName(b)
  }

  /** `equals` is an equivalence relation. */
  lemma {:induction false} SameTagEquivalence(a: FilterTag, b: FilterTag, c: FilterTag)
    ensures SameTag(a, a)
    ensures SameTag(a, b) ==> SameTag(b, a)
    ensures SameTag(a, b) && SameTag(b, c) ==> SameTag(a, c)
  {
  }

  /** Two tags (other than links and authors) whose urls differ only before the last '/'
      are different values but equal tags. */
  lemma {:induction false} SameTagIgnoresUrlPrefix(d: string, p: string, q: string, n: string, t: TagType)
    requires '/' !in n && t != Link && t != Author
    ensures SameTag(FilterTag(d, p + "/" + n, t), FilterTag(d, q + "/" + n, t))
    ensures FilterTag(d, p + "/" + n, t) == FilterTag(d, q + "/" + n, t) ==> p == q
  {
    LastSlashOfPath(p, n);
    LastSlashOfPath(q, n);
  }

  const TwoTo32: int := 0x1_0000_0000

  /** Java's `String.hashCode` over UTF-16 code units, reduced to its 32-bit pattern:
      `h = 31 * h + unit`, wrapping modulo 2^32. */
  function UnitsHash(u: seq<int>): (h: int)
    ensures 0 <= h < TwoTo32
  {
    if u == [] then 0 else (31 * UnitsHash(u[..|u| - 1]) + u[|u| - 1]) % TwoTo32
  }

  /** `String.hashCode`: the hash of the string's UTF-16 code units. */
  function StringHash(s: string): (h: int)
    ensures 0 <= h < TwoTo32
  {
    UnitsHash(Utf16(s))
  }

  /** Above U+FFFF the hash runs over the two surrogates, as the JVM's does. */
  lemma StringHashSurrogates()
    ensures StringHash("\U{1F600}") == 1772899
  {
    var u := Utf16("\U{1F600}");
    assert u == [0xD83D, 0xDE00] + Utf16([]);
    assert u[..1] == [0xD83D] && u[..1][..0] == [];
    assert UnitsHash(u[..1]) == 0xD83D;
    assert UnitsHash(u) == (31 * 0xD83D + 0xDE00) % TwoTo32;
  }

  /** `FilterTag.hashCode`: the hash of `tagName` multiplied by `31 + hash(displayName)`,
      in 32-bit arithmetic. */
  function Hash(t: FilterTag): (h: int)
    ensures 0 <= h < TwoTo32
  {
    CombineHash(StringHash(TagName(t)), StringHash(t.displayName))
  }

  /** The product `hash(tagName) * (31 + hash(displayName))` wrapped to 32 bits. */
  function CombineHash(nameHash: int, displayHash: int): (h: int)
    ensures 0 <= h < TwoTo32
  {
    (nameHash * ((31 + displayHash) % TwoTo32)) % TwoTo32
  }

  /** The hash is consistent with `equals`. */
  lemma {:induction false} HashRespectsSameTag(a: FilterTag, b: FilterTag)
    requires SameTag(a, b)
    ensures Hash(a) == Hash(b)
  {
    var n, d := StringHash(TagName(a)), StringHash(a.displayName);
    assert StringHash(TagName(b)) == n && StringHash(b.displayName) == d;
  }

  /** The markdown-style link "[display](target)" that the tags print as. */
  function LinkText(display: string, target: string): string {
    "[" + display + "](" + target + ")"
  }

  /** Reads a "[display](target)" text back; the display ends at the first ']'. */
  function ParseLinkText(s: string): Option<(string, string)> {
    if |s| < 4 || s[0] != '[' || s[|s| - 1] != ')' then None
    else match IndexOf(s[1..], ']')
      case None => None
      case Some(i) =>
        if i + 3 <= |s| - 1 && s[i + 2] == '(' then Some((s[1..i + 1], s[i + 3..|s| - 1])) else None
  }

  /** A link text is read back exactly when its display part has no ']'. */
  lemma {:induction false} LinkTextRoundTrip(display: string, target: string)
    requires ']' !in display
    ensures ParseLinkText(LinkText(display, target)) == Some((display, target))
  {
    var s := LinkText(display, target);
    assert s[1..] == display + "](" + target + ")";
    assert s[1..][|display|] == ']';
    assert s[1..][..|display|] == display;
    IndexOfAt(s[1..], ']', |display|);
    assert s[0] == '[' && s[|s| - 1] == ')' && s[|display| + 2] == '(';
    assert s[1..|display| + 1] == display;
    assert s[|display| + 3..|s| - 1] == target;
  }

  /** `FilterTag.toString`. */
  function FilterTagToString(t: FilterTag): string {
    LinkText(t.displayName, t.url)
  }

  /** The printed form names the display name and the whole url. */
  lemma {:induction false} FilterTagToStringReadsBack(t: FilterTag)
    requires ']' !in t.displayName
    ensures ParseLinkText(FilterTagToString(t)) == Some((t.displayName, t.url))
  {
    LinkTextRoundTrip(t.displayName, t.url);
  }

  /** `List<FilterTag>.filter(vararg types)`: the tags whose type is listed, in order. */
  function FilterTypes(tags: seq<FilterTag>, types: set<TagType>): (r: seq<FilterTag>)
    ensures |r| <= |tags|
    ensures forall t :: t in r <==> t in tags && t.tagType in types
  {
    if tags == [] then []
    else (if tags[0].tagType in types then [tags[0]] else []) + FilterTypes(tags[1..], types)
  }

  /** Filtering distributes over concatenation, so the kept tags stay in list order. */
  lemma {:induction false} FilterTypesAppend(a: seq<FilterTag>, b: seq<FilterTag>, types: set<TagType>)
    ensures FilterTypes(a + b, types) == FilterTypes(a, types) + FilterTypes(b, types)
  {
    if a == [] {
      assert a + b == b;
    } else {
      assert (a + b)[0] == a[0] && (a + b)[1..] == a[1..] + b;
      FilterTypesAppend(a[1..], b, types);
    }
  }

  /** The older library tag: a plain data class, so equality compares all three fields. */
  datatype Tag = Tag(displayName: string, url: string, tagType: TagType)

  /** `Tag.tagName`, the same rule as for `FilterTag`. */
  function OldTagName(t: Tag): (r: string)
    ensures r == TagName(FilterTag(t.displayName, t.url, t.tagType))
  {
    KeyOf(t.url, t.tagType)
  }

  /** `Tag.toString`. */
  function TagToString(t: Tag): string {
    LinkText(t.displayName, t.url)
  }

  lemma {:induction false} TagToStringReadsBack(t: Tag)
    requires ']' !in t.displayName
    ensures ParseLinkText(TagToString(t)) == Some((t.displayName, t.url))
  {
    LinkTextRoundTrip(t.displayName, t.url);
  }

  /** `List<Tag>.filter(type)`: the tags of that type, in order. */
  function FilterType(tags: seq<Tag>, t: TagType): (r: seq<Tag>)
    ensures |r| <= |tags|
  {
    if tags == [] then []
    else (if tags[0].tagType == t then [tags[0]] else []) + FilterType(tags[1..], t)
  }

  /** The filter keeps exactly the tags of that type. */
  lemma {:induction false} FilterTypeMembers(tags: seq<Tag>, t: TagType, x: Tag)
    ensures x in FilterType(tags, t) <==> x in tags && x.tagType == t
  {
    if tags != [] {
      FilterTypeMembers(tags[1..], t, x);
      assert tags == [tags[0]] + tags[1..];
    }
  }

  lemma {:induction false} FilterTypeAppend(a: seq<Tag>, b: seq<Tag>, t: TagType)
    ensures FilterType(a + b, t) == FilterType(a, t) + FilterType(b, t)
  {
    if a == [] {
      assert a + b == b;
    } else {
      var a1 := a[1..];
      var head := if a[0].tagType == t then [a[0]] else [];
      FilterTypeAppend(a1, b, t);
      calc {
        FilterType(a + b, t);
        { assert (a + b)[0] == a[0] && (a + b)[1..] == a1 + b; }
        head + FilterType(a1 + b, t);
        head + (FilterType(a1, t) + FilterType(b, t));
        (head + FilterType(a1, t)) + FilterType(b, t);
      }
    }
  }

  /** A tag offered by the search page; `tagName` is its primary key. */
  datatype SearchTag = SearchTag(displayName: string, tagName: string, classification: string)

  /** `SearchTag.toString`: "[display](classification/tagName)". */
  function SearchTagToString(t: SearchTag): string {
    LinkText(t.displayName, t.classification + "/" + t.tagName)
  }

  /** The printed form gives back display name, classification and tag name when the
      display name has no ']' and the tag name no '/'. */
  lemma {:induction false} SearchTagToStringReadsBack(t: SearchTag)
    requires ']' !in t.displayName && '/' !in t.tagName
    ensures match ParseLinkText(SearchTagToString(t))
            case Some((d, target)) =>
              d == t.displayName
              && SubstringAfterLast(target, '/') == t.tagName
              && SubstringBeforeLast(target, '/') == t.classification
            case None => false
  {
    var target := t.classification + "/" + t.tagName;
    LinkTextRoundTrip(t.displayName, target);
    var i := |t.classification|;
    assert target[i] == '/' && target[i + 1..] == t.tagName && target[..i] == t.classification;
    LastIndexOfAt(target, '/', i);
  }

  /** `containsTag`: the tag name contains the trimmed keyword, ignoring case. */
  predicate ContainsTag(t: SearchTag, keyword: string) {
    ContainsIgnoreCase(t.tagName, Trim(keyword))
  }

  /** A blank keyword matches every tag. */
  lemma {:induction false} BlankKeywordMatchesAll(t: SearchTag, keyword: string)
    requires IsBlank(keyword)
    ensures ContainsTag(t, keyword)
  {
    TrimEmptyIffBlank(keyword);
    assert Fold(Trim(keyword)) == [];
    assert OccursAt(Fold(t.tagName), [], 0);
  }

  /** Whitespace around the keyword does not matter. */
  lemma {:induction false} KeywordPaddingIgnored(t: SearchTag, p: string, keyword: string, q: string)
    requires IsBlank(p) && IsBlank(q)
    ensures ContainsTag(t, p + keyword + q) == ContainsTag(t, keyword)
  {
    TrimIgnoresPadding(p, keyword, q);
  }

  /** Only the tag name is searched: display name and classification play no part. */
  lemma {:induction false} ContainsTagOnlyTagName(t: SearchTag, u: SearchTag, keyword: string)
    requires t.tagName == u.tagName
    ensures ContainsTag(t, keyword) == ContainsTag(u, keyword)
  {
  }
}
