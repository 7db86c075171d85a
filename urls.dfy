/** The url helpers of the user interface: the game-page test, `cleanUrl`, the link
    pairs of a game's tags, the labelling of social links (`phraseSocialUrl`), the
    first-letter capitalisation used in labels, and the de-duplication of links by url. */
module UrlUtils {
  import opened Wrappers
  import opened Text
  import opened Tags

  const HttpsScheme: string := "https://"
  const HttpScheme: string := "http://"
  const ItchHost: string := ".itch.io/"

  // ---- isGamePageUrl ----

  /** `s` is "https://" + `a` + ".itch.io/" + `b`, with `a` and `b` non-empty and free of '/'. */
  predicate GamePageParts(s: string, a: string, b: string) {
    |a| > 0 && |b| > 0 && '/' !in a && '/' !in b && s == HttpsScheme + a + ItchHost + b
  }

  /** `isGamePageUrl`, the full match of `^https://([^/]+)\.itch\.io/([^/]+)$`: after the
      scheme, the first '/' closes a non-empty host ending in ".itch.io", and a non-empty
      path without '/' follows it. */
  predicate IsGamePageUrl(s: string) {
    StartsWith(s, HttpsScheme) &&
    var rest := s[8..];
    match IndexOf(rest, '/')
    case None => false
    case Some(k) => 9 <= k && rest[k - 8..k + 1] == ItchHost && k + 1 < |rest| && '/' !in rest[k + 1..]
  }

  lemma {:induction false} IsGamePageUrlSound(s: string)
    requires IsGamePageUrl(s)
    ensures exists a, b :: GamePageParts(s, a, b)
  {
    var rest := s[8..];
    var k := IndexOf(rest, '/').value;
    var a, b := rest[..k - 8], rest[k + 1..];
    assert a == rest[..k][..k - 8];
    assert rest == a + rest[k - 8..k + 1] + b;
    assert s == s[..8] + rest;
    assert GamePageParts(s, a, b);
  }

  lemma {:induction false} IsGamePageUrlComplete(s: string, a: string, b: string)
    requires GamePageParts(s, a, b)
    ensures IsGamePageUrl(s)
  {
    var rest := s[8..];
    assert rest == a + ItchHost + b;
    var k := |a| + 8;
    assert rest[..k] == a + ".itch.io";
    assert rest[k] == '/';
    IndexOfAt(rest, '/', k);
    assert rest[k - 8..k + 1] == ItchHost;
    assert rest[k + 1..] == b;
  }

  /** The regular expression accepts exactly the urls of that shape. */
  lemma {:induction false} IsGamePageUrlIff(s: string)
    ensures IsGamePageUrl(s) <==> exists a, b :: GamePageParts(s, a, b)
  {
    if IsGamePageUrl(s) {
      IsGamePageUrlSound(s);
    }
    if exists a, b :: GamePageParts(s, a, b) {
      var a, b :| GamePageParts(s, a, b);
      IsGamePageUrlComplete(s, a, b);
    }
  }

  // ---- cleanUrl ----

  /** `cleanUrl`: "https://" is put in front unless present, and the query is cut off. */
  function CleanUrl(s: string): string {
    var url := if StartsWith(s, HttpsScheme) then s else HttpsScheme + s;
    SubstringBefore(url, '?')
  }

  /** A cleaned url starts with "https://" and has no query. */
  lemma {:induction false} CleanUrlShape(s: string)
    ensures StartsWith(CleanUrl(s), HttpsScheme) && '?' !in CleanUrl(s)
  {
    var url := if StartsWith(s, HttpsScheme) then s else HttpsScheme + s;
    var r := SubstringBefore(url, '?');
    assert url[..8] == HttpsScheme;
    assert forall i :: 0 <= i < 8 ==> url[i] != '?';
    assert |r| >= 8;
    assert r[..8] == url[..8];
  }

  /** A url that already has that shape is left alone. */
  lemma {:induction false} CleanUrlKeepsClean(s: string)
    requires StartsWith(s, HttpsScheme) && '?' !in s
    ensures CleanUrl(s) == s
  {
  }

  lemma {:induction false} CleanUrlIdempotent(s: string)
    ensures CleanUrl(CleanUrl(s)) == CleanUrl(s)
  {
    CleanUrlShape(s);
    CleanUrlKeepsClean(CleanUrl(s));
  }

  /** What is kept: the scheme-prefixed url up to its first '?'. */
  lemma {:induction false} CleanUrlKeepsPath(s: string)
    requires StartsWith(s, HttpsScheme)
    ensures StartsWith(s, CleanUrl(s))
    ensures CleanUrl(s) == s || s[|CleanUrl(s)|] == '?'
  {
  }

  // ---- getHref ----

  /** `getHref`: the (url, display name) pair of each Link tag, in order. */
  function GetHref(tags: seq<Tag>): seq<(string, string)> {
    if tags == [] then []
    else (if tags[0].tagType == Link then [(tags[0].url, tags[0].displayName)] else [])
         + GetHref(tags[1..])
  }

  lemma {:induction false} GetHrefMembers(tags: seq<Tag>, p: (string, string))
    ensures p in GetHref(tags) <==> exists t :: t in tags && t.tagType == Link && p == (t.url, t.displayName)
  {
    if tags != [] {
      GetHrefMembers(tags[1..], p);
      if exists t :: t in tags[1..] && t.tagType == Link && p == (t.url, t.displayName) {
        var t :| t in tags[1..] && t.tagType == Link && p == (t.url, t.displayName);
        assert t in tags;
      }
      if exists t :: t in tags && t.tagType == Link && p == (t.url, t.displayName) {
        var t :| t in tags && t.tagType == Link && p == (t.url, t.displayName);
        if t != tags[0] {
          assert t in tags[1..];
        }
      }
    }
  }

  /** There is one pair per Link tag. */
  lemma {:induction false} GetHrefCount(tags: seq<Tag>)
    ensures |GetHref(tags)| == |FilterType(tags, Link)|
  {
    if tags != [] {
      GetHrefCount(tags[1..]);
    }
  }

  // ---- capitalizeFirstLetter ----

  /** `capitalizeFirstLetter`: a lower-case first letter becomes upper case. */
  function CapitalizeFirstLetter(s: string): (r: string)
    ensures |r| == |s|
    ensures |s| > 0 ==> r[1..] == s[1..] && !IsLowerAscii(r[0])
  {
    if |s| > 0 && IsLowerAscii(s[0]) then [UpperAscii(s[0])] + s[1..] else s
  }

  /** Only a lower-case first letter changes, and into that letter in upper case. */
  lemma {:induction false} CapitalizeChangesOnlyLowerFirst(s: string)
    ensures CapitalizeFirstLetter(s) != s <==> |s| > 0 && IsLowerAscii(s[0])
    ensures CapitalizeFirstLetter(s) != s ==> LowerAscii(CapitalizeFirstLetter(s)[0]) == s[0]
  {
    if |s| > 0 && IsLowerAscii(s[0]) {
      assert CapitalizeFirstLetter(s)[0] != s[0];
    }
  }

  lemma {:induction false} CapitalizeIdempotent(s: string)
    ensures CapitalizeFirstLetter(CapitalizeFirstLetter(s)) == CapitalizeFirstLetter(s)
  {
  }

  // ---- groupBy { key }.map { maxByOrNull { shown ? 1 : 0 } } ----

  /** No two elements share a key. */
  predicate KeysDistinct<T(!new)>(r: seq<T>, key: T -> string) {
    forall i, j :: 0 <= i < j < |r| ==> key(r[i]) != key(r[j])
  }

  /** The elements of `s` whose key is `k`, in order: one group of `groupBy`. */
  function WithKey<T(!new)>(s: seq<T>, key: T -> string, k: string): (r: seq<T>)
    ensures |r| <= |s|
    decreases |s|
  {
    if s == [] then []
    else WithKey(s[..|s| - 1], key, k) + (if key(s[|s| - 1]) == k then [s[|s| - 1]] else [])
  }

  /** A group holds exactly the elements with its key. */
  lemma {:induction false} WithKeyMembers<T(!new)>(s: seq<T>, key: T -> string, k: string)
    ensures forall x :: x in WithKey(s, key, k) <==> x in s && key(x) == k
    decreases |s|
  {
    if s != [] {
      WithKeyMembers(s[..|s| - 1], key, k);
      assert s == s[..|s| - 1] + [s[|s| - 1]];
    }
  }

  /** The index of the first shown element of `g` from `i` on, or |g| when none is. */
  function FirstShown<T(!new)>(g: seq<T>, shown: T -> bool, i: nat): (n: nat)
    requires i <= |g|
    ensures i <= n <= |g|
    ensures forall j :: i <= j < n ==> !shown(g[j])
    ensures n < |g| ==> shown(g[n])
    decreases |g| - i
  {
    if i < |g| && !shown(g[i]) then FirstShown(g, shown, i + 1) else i
  }

  lemma {:induction false} FirstShownUnique<T(!new)>(g: seq<T>, shown: T -> bool, n: nat)
    requires n <= |g| && (forall j :: 0 <= j < n ==> !shown(g[j]))
    requires n < |g| ==> shown(g[n])
    ensures FirstShown(g, shown, 0) == n
  {
  }

  /** `maxByOrNull { if (shown) 1 else 0 }` on a non-empty group: the first element that
      scores 1, or the first element when none does. */
  function PickIndex<T(!new)>(g: seq<T>, shown: T -> bool): (i: nat)
    requires |g| > 0
    ensures i < |g|
    ensures forall j :: 0 <= j < i ==> !shown(g[j])
    ensures shown(g[i]) || (i == 0 && forall j :: 0 <= j < |g| ==> !shown(g[j]))
  {
    var n := FirstShown(g, shown, 0);
    if n < |g| then n else 0
  }

  function Pick<T(!new)>(g: seq<T>, shown: T -> bool): T
    requires |g| > 0
  {
    g[PickIndex(g, shown)]
  }

  /** A later element displaces the pick only when it scores 1 and the pick scores 0. */
  lemma {:induction false} PickAppend<T(!new)>(g: seq<T>, shown: T -> bool, x: T)
    requires |g| > 0
    ensures Pick(g + [x], shown) == if !shown(Pick(g, shown)) && shown(x) then x else Pick(g, shown)
  {
    var h := g + [x];
    var n := FirstShown(g, shown, 0);
    assert forall j :: 0 <= j < |g| ==> h[j] == g[j];
    if n < |g| {
      FirstShownUnique(h, shown, n);
    } else if shown(x) {
      FirstShownUnique(h, shown, |g|);
    } else {
      FirstShownUnique(h, shown, |h|);
    }
  }

  /** The index of the first element with key `k` from `i` on, or |s| when there is none. */
  function FirstIndexFrom<T(!new)>(s: seq<T>, key: T -> string, k: string, i: nat): (n: nat)
    requires i <= |s|
    ensures i <= n <= |s|
    ensures forall j :: i <= j < n ==> key(s[j]) != k
    ensures n < |s| ==> key(s[n]) == k
    decreases |s| - i
  {
    if i < |s| && key(s[i]) != k then FirstIndexFrom(s, key, k, i + 1) else i
  }

  function FirstIndex<T(!new)>(s: seq<T>, key: T -> string, k: string): nat {
    FirstIndexFrom(s, key, k, 0)
  }

  lemma {:induction false} FirstIndexUnique<T(!new)>(s: seq<T>, key: T -> string, k: string, n: nat)
    requires n <= |s| && (forall j :: 0 <= j < n ==> key(s[j]) != k)
    requires n < |s| ==> key(s[n]) == k
    ensures FirstIndex(s, key, k) == n
  {
  }

  /** The key of a listed element is found. */
  lemma {:induction false} FirstIndexOfMember<T(!new)>(s: seq<T>, key: T -> string, y: T)
    requires y in s
    ensures FirstIndex(s, key, key(y)) < |s|
  {
    var m :| 0 <= m < |s| && s[m] == y;
    assert key(s[m]) == key(y);
  }

  /** Appending an element leaves the first occurrence of a key already present alone. */
  lemma {:induction false} FirstIndexAppend<T(!new)>(s: seq<T>, key: T -> string, x: T, k: string)
    ensures FirstIndex(s + [x], key, k) ==
            if FirstIndex(s, key, k) < |s| then FirstIndex(s, key, k)
            else if key(x) == k then |s| else |s| + 1
  {
    var h := s + [x];
    var n := FirstIndex(s, key, k);
    assert forall j :: 0 <= j < |s| ==> h[j] == s[j];
    if n < |s| {
      FirstIndexUnique(h, key, k, n);
    } else if key(x) == k {
      FirstIndexUnique(h, key, k, |s|);
    } else {
      FirstIndexUnique(h, key, k, |h|);
    }
  }

  /** The groups in order of their keys' first occurrence, each reduced to its pick, built
      up element by element: a new key is appended, and an element of a known key replaces
      that key's entry when it scores 1 and the entry scores 0. */
  function Dedup<T(!new)>(s: seq<T>, key: T -> string, shown: T -> bool): (r: seq<T>)
    ensures |r| <= |s|
    decreases |s|
  {
    if s == [] then []
    else
      var d := Dedup(s[..|s| - 1], key, shown);
      var x := s[|s| - 1];
      var n := FirstIndex(d, key, key(x));
      if n == |d| then d + [x]
      else if !shown(d[n]) && shown(x) then d[n := x]
      else d
  }

  /** The output is drawn from the input and repeats no key. */
  lemma {:induction false} DedupSound<T(!new)>(s: seq<T>, key: T -> string, shown: T -> bool)
    ensures forall y :: y in Dedup(s, key, shown) ==> y in s
    ensures KeysDistinct(Dedup(s, key, shown), key)
    decreases |s|
  {
    if s != [] {
      var init := s[..|s| - 1];
      var x := s[|s| - 1];
      assert s == init + [x];
      DedupSound(init, key, shown);
      var d := Dedup(init, key, shown);
      var r := Dedup(s, key, shown);
      var n := FirstIndex(d, key, key(x));
      forall y | y in r
        ensures y in s
      {
        var m :| 0 <= m < |r| && r[m] == y;
        if m < |d| && r[m] == d[m] {
          assert d[m] in d;
        }
      }
      forall i, j | 0 <= i < j < |r|
        ensures key(r[i]) != key(r[j])
      {
        if n == |d| && j == |d| {
          assert r[i] == d[i] && r[j] == x;
        } else {
          assert key(r[i]) == key(d[i]) && key(r[j]) == key(d[j]);
        }
      }
    }
  }

  /** Every key of the input has an entry in the output. */
  lemma {:induction false} DedupCovers<T(!new)>(s: seq<T>, key: T -> string, shown: T -> bool, x: T)
    requires x in s
    ensures exists j :: 0 <= j < |Dedup(s, key, shown)| && key(Dedup(s, key, shown)[j]) == key(x)
    decreases |s|
  {
    var init := s[..|s| - 1];
    var last := s[|s| - 1];
    assert s == init + [last];
    var d := Dedup(init, key, shown);
    var r := Dedup(s, key, shown);
    var n := FirstIndex(d, key, key(last));
    if key(x) == key(last) {
      var j := if n == |d| then |d| else n;
      assert 0 <= j < |r| && key(r[j]) == key(x);
    } else {
      assert x in init;
      DedupCovers(init, key, shown, x);
      var j :| 0 <= j < |d| && key(d[j]) == key(x);
      assert 0 <= j < |r| && r[j] == d[j];
    }
  }

  /** No element before the end has the last element's key when the fold appended it. */
  lemma {:induction false} DedupNewKey<T(!new)>(s: seq<T>, key: T -> string, shown: T -> bool)
    requires s != []
    requires var d := Dedup(s[..|s| - 1], key, shown);
             FirstIndex(d, key, key(s[|s| - 1])) == |d|
    ensures FirstIndex(s[..|s| - 1], key, key(s[|s| - 1])) == |s| - 1
  {
    var init := s[..|s| - 1];
    var k := key(s[|s| - 1]);
    var m := FirstIndex(init, key, k);
    if m < |init| {
      DedupCovers(init, key, shown, init[m]);
      assert false;
    }
  }

  /** Each entry is the pick of its key's group in the input. */
  lemma {:induction false} DedupPicks<T(!new)>(s: seq<T>, key: T -> string, shown: T -> bool, i: nat)
    requires i < |Dedup(s, key, shown)|
    ensures var r := Dedup(s, key, shown);
            |WithKey(s, key, key(r[i]))| > 0 && r[i] == Pick(WithKey(s, key, key(r[i])), shown)
    decreases |s|
  {
    var init := s[..|s| - 1];
    var x := s[|s| - 1];
    var d := Dedup(init, key, shown);
    var r := Dedup(s, key, shown);
    var n := FirstIndex(d, key, key(x));
    var k := key(r[i]);
    var g := WithKey(init, key, k);
    assert WithKey(s, key, k) == g + (if key(x) == k then [x] else []);
    if n == |d| && i == |d| {
      DedupNewKey(s, key, shown);
      if g != [] {
        WithKeyMembers(init, key, k);
        FirstIndexOfMember(init, key, g[0]);
        assert false;
      }
      assert WithKey(s, key, k) == [x];
    } else {
      DedupPicks(init, key, shown, i);
      if i == n {
        PickAppend(g, shown, x);
      } else {
        DedupSound(init, key, shown);
        assert r[i] == d[i] && key(x) != k;
        assert WithKey(s, key, k) == g;
      }
    }
  }

  /** The output follows the order in which keys first occur in the input. */
  lemma {:induction false} DedupOrder<T(!new)>(s: seq<T>, key: T -> string, shown: T -> bool, i: nat, j: nat)
    requires i < j < |Dedup(s, key, shown)|
    ensures var r := Dedup(s, key, shown);
            FirstIndex(s, key, key(r[i])) < FirstIndex(s, key, key(r[j]))
    decreases |s|
  {
    var init := s[..|s| - 1];
    var x := s[|s| - 1];
    assert s == init + [x];
    var d := Dedup(init, key, shown);
    var r := Dedup(s, key, shown);
    var n := FirstIndex(d, key, key(x));
    DedupSound(init, key, shown);
    var ki := key(r[i]);
    var kj := key(r[j]);
    assert ki == key(d[i]);
    FirstIndexOfMember(init, key, d[i]);
    FirstIndexAppend(init, key, x, ki);
    if n == |d| && j == |d| {
      DedupNewKey(s, key, shown);
      FirstIndexAppend(init, key, x, kj);
    } else {
      assert kj == key(d[j]);
      FirstIndexOfMember(init, key, d[j]);
      FirstIndexAppend(init, key, x, kj);
      DedupOrder(init, key, shown, i, j);
    }
  }

  /** A list whose keys are already distinct is its own de-duplication; hence
      de-duplicating twice is de-duplicating once. */
  lemma {:induction false} DedupDistinctFixed<T(!new)>(s: seq<T>, key: T -> string, shown: T -> bool)
    requires KeysDistinct(s, key)
    ensures Dedup(s, key, shown) == s
    decreases |s|
  {
    if s != [] {
      var init := s[..|s| - 1];
      var x := s[|s| - 1];
      assert KeysDistinct(init, key) by {
        forall i, j | 0 <= i < j < |init|
          ensures key(init[i]) != key(init[j])
        {
          assert init[i] == s[i] && init[j] == s[j];
        }
      }
      DedupDistinctFixed(init, key, shown);
      forall m | 0 <= m < |init|
        ensures key(init[m]) != key(x)
      {
        assert init[m] == s[m];
      }
      FirstIndexUnique(init, key, key(x), |init|);
      assert s == init + [x];
    }
  }

  lemma {:induction false} DedupIdempotent<T(!new)>(s: seq<T>, key: T -> string, shown: T -> bool)
    ensures Dedup(Dedup(s, key, shown), key, shown) == Dedup(s, key, shown)
  {
    DedupSound(s, key, shown);
    DedupDistinctFixed(Dedup(s, key, shown), key, shown);
  }

  // ---- removeDuplicatesByUrl ----

  datatype Href = Href(url: string, display: string)

  function HrefUrl(h: Href): string {
    h.url
  }

  function HrefShown(h: Href): bool {
    !IsBlank(h.display)
  }

  /** `removeDuplicatesByUrl`: one link per url, preferring one with a non-blank label. */
  function RemoveDuplicatesByUrl(hs: seq<Href>): (r: seq<Href>)
    ensures forall h :: h in r ==> h in hs
    ensures forall i, j :: 0 <= i < j < |r| ==> r[i].url != r[j].url
  {
    DedupSound(hs, HrefUrl, HrefShown);
    Dedup(hs, HrefUrl, HrefShown)
  }

  /** Every url stays, represented by its first link with a non-blank label, or by its
      first link when all of its labels are blank. */
  lemma {:induction false} RemoveDuplicatesByUrlPicks(hs: seq<Href>, h: Href)
    requires h in hs
    ensures exists j :: 0 <= j < |RemoveDuplicatesByUrl(hs)| && RemoveDuplicatesByUrl(hs)[j].url == h.url
    ensures forall j :: 0 <= j < |RemoveDuplicatesByUrl(hs)| && RemoveDuplicatesByUrl(hs)[j].url == h.url ==>
              var g := WithKey(hs, HrefUrl, h.url);
              |g| > 0 && RemoveDuplicatesByUrl(hs)[j] == g[PickIndex(g, HrefShown)]
  {
    DedupCovers(hs, HrefUrl, HrefShown, h);
    var r := RemoveDuplicatesByUrl(hs);
    var j0 :| 0 <= j0 < |r| && HrefUrl(r[j0]) == HrefUrl(h);
    assert r[j0].url == h.url;
    forall j | 0 <= j < |RemoveDuplicatesByUrl(hs)| && RemoveDuplicatesByUrl(hs)[j].url == h.url
      ensures var g := WithKey(hs, HrefUrl, h.url);
              |g| > 0 && RemoveDuplicatesByUrl(hs)[j] == g[PickIndex(g, HrefShown)]
    {
      DedupPicks(hs, HrefUrl, HrefShown, j);
    }
  }

  lemma {:induction false} RemoveDuplicatesByUrlIdempotent(hs: seq<Href>)
    ensures RemoveDuplicatesByUrl(RemoveDuplicatesByUrl(hs)) == RemoveDuplicatesByUrl(hs)
  {
    DedupIdempotent(hs, HrefUrl, HrefShown);
  }

  // ---- phraseSocialUrl: the regular expression ----

  const SpecifyDomains: seq<string> := ["x", "twitter", "ko-fi", "patreon"]
  const OtherDomains: seq<string> := ["discord", "instagram", "youtube", "reddit", "bsky", "t.me"]

  /** A character of `[^/?#]`. */
  predicate IsIdChar(c: char) {
    c != '/' && c != '?' && c != '#'
  }

  /** The characters a Java `.` does not match without flags. */
  predicate IsLineTerminator(c: char) {
    c == '\n' || c == '\r' || c == '\U{85}' || c == '\U{2028}' || c == '\U{2029}'
  }

  /** The greedy `[^/?#]+` from `i`: the length of the longest run of id characters. */
  function IdRun(s: string, i: nat): (n: nat)
    requires i <= |s|
    ensures i + n <= |s|
    ensures forall j :: i <= j < i + n ==> IsIdChar(s[j])
    ensures i + n == |s| || !IsIdChar(s[i + n])
    decreases |s| - i
  {
    if i < |s| && IsIdChar(s[i]) then 1 + IdRun(s, i + 1) else 0
  }

  /** Groups 3 and 4 of a match. */
  datatype SocialMatch = SocialMatch(domain: string, id: string)

  /** `(x|twitter|ko-fi|patreon)\.com/([^/?#]+)` at `q`, the alternatives tried in order. */
  function DomainAt(s: string, q: nat, ds: seq<string>): (r: Option<SocialMatch>)
    requires q <= |s|
    ensures r.Some? ==> r.value.domain in ds && r.value.id != []
                        && (forall c :: c in r.value.id ==> IsIdChar(c))
                        && OccursAt(s, r.value.domain + ".com/" + r.value.id, q)
    decreases |ds|
  {
    if ds == [] then None
    else
      var d := ds[0];
      var e := q + |d| + 5;
      if e <= |s| && s[q..q + |d|] == d && s[q + |d|..e] == ".com/" && IdRun(s, e) > 0 then
        var n := IdRun(s, e);
        assert s[q..e + n] == s[q..q + |d|] + s[q + |d|..e] + s[e..e + n];
        Some(SocialMatch(d, s[e..e + n]))
      else DomainAt(s, q, ds[1..])
  }

  /** `(www.)?` then the domain part: with the optional group first, then without it. */
  function WwwAt(s: string, q: nat): Option<SocialMatch>
    requires q <= |s|
  {
    if q + 4 <= |s| && s[q..q + 3] == "www" && !IsLineTerminator(s[q + 3]) then
      OrElse(DomainAt(s, q + 4, SpecifyDomains), DomainAt(s, q, SpecifyDomains))
    else DomainAt(s, q, SpecifyDomains)
  }

  /** The whole pattern at `p`: `(https?://)?` tries "https://", then "http://", then
      nothing. */
  function MatchAt(s: string, p: nat): Option<SocialMatch>
    requires p <= |s|
  {
    var secure := if StartsWith(s[p..], HttpsScheme) then WwwAt(s, p + 8) else None;
    var plain := if StartsWith(s[p..], HttpScheme) then WwwAt(s, p + 7) else None;
    OrElse(secure, OrElse(plain, WwwAt(s, p)))
  }

  /** The outcome of the pattern at each start position 0, 1, …, |s|. */
  function MatchesOf(s: string): (ms: seq<Option<SocialMatch>>)
    ensures |ms| == |s| + 1
    ensures forall j :: 0 <= j <= |s| ==> ms[j] == MatchAt(s, j)
  {
    seq(|s| + 1, j requires 0 <= j <= |s| => MatchAt(s, j))
  }

  /** The first position from `p` on with a match, and that match. */
  function FirstMatch(ms: seq<Option<SocialMatch>>, p: nat): (r: Option<(nat, SocialMatch)>)
    requires p <= |ms|
    ensures r.Some? ==> p <= r.value.0 < |ms| && ms[r.value.0] == Some(r.value.1)
                        && forall j :: p <= j < r.value.0 ==> ms[j].None?
    ensures r.None? ==> forall j :: p <= j < |ms| ==> ms[j].None?
    decreases |ms| - p
  {
    if p == |ms| then None
    else if ms[p].Some? then Some((p, ms[p].value))
    else FirstMatch(ms, p + 1)
  }

  /** `find`: the match at the leftmost position where there is one. */
  function FindFrom(s: string, p: nat): (r: Option<(nat, SocialMatch)>)
    requires p <= |s|
    ensures r.Some? ==> p <= r.value.0 <= |s|
  {
    FirstMatch(MatchesOf(s), p)
  }

  /** The position found is the leftmost one from `p` where the pattern matches, and the
      match there is the one returned; no position matches when nothing is found. */
  lemma {:induction false} FindFromSpec(s: string, p: nat)
    requires p <= |s|
    ensures var r := FindFrom(s, p);
            r.Some? ==> MatchAt(s, r.value.0) == Some(r.value.1)
                        && forall j :: p <= j < r.value.0 ==> MatchAt(s, j).None?
    ensures FindFrom(s, p).None? ==> forall j :: p <= j <= |s| ==> MatchAt(s, j).None?
  {
    var ms := MatchesOf(s);
    var r := FirstMatch(ms, p);
    if r.Some? {
      assert ms[r.value.0] == MatchAt(s, r.value.0);
      forall j | p <= j < r.value.0
        ensures MatchAt(s, j).None?
      {
        assert ms[j] == MatchAt(s, j);
      }
    } else {
      forall j | p <= j <= |s|
        ensures MatchAt(s, j).None?
      {
        assert ms[j] == MatchAt(s, j);
      }
    }
  }

  function FindSocial(s: string): Option<SocialMatch> {
    match FindFrom(s, 0)
    case Some((_, m)) => Some(m)
    case None => None
  }

  /** What a match yields: one of the four domains, followed in `s` by ".com/" and a
      non-empty id without '/', '?' or '#'. */
  predicate SocialShape(s: string, m: SocialMatch) {
    m.domain in SpecifyDomains && m.id != [] && (forall c :: c in m.id ==> IsIdChar(c))
    && Contains(s, m.domain + ".com/" + m.id)
  }

  lemma {:induction false} DomainAtShape(s: string, q: nat)
    requires q <= |s| && DomainAt(s, q, SpecifyDomains).Some?
    ensures SocialShape(s, DomainAt(s, q, SpecifyDomains).value)
  {
    var m := DomainAt(s, q, SpecifyDomains).value;
    OccursImpliesContains(s, m.domain + ".com/" + m.id, q);
  }

  lemma {:induction false} WwwAtShape(s: string, q: nat)
    requires q <= |s| && WwwAt(s, q).Some?
    ensures SocialShape(s, WwwAt(s, q).value)
  {
    if q + 4 <= |s| && s[q..q + 3] == "www" && !IsLineTerminator(s[q + 3]) && DomainAt(s, q + 4, SpecifyDomains).Some? {
      DomainAtShape(s, q + 4);
    } else {
      DomainAtShape(s, q);
    }
  }

  lemma {:induction false} MatchAtShape(s: string, p: nat)
    requires p <= |s| && MatchAt(s, p).Some?
    ensures SocialShape(s, MatchAt(s, p).value)
  {
    if StartsWith(s[p..], HttpsScheme) && WwwAt(s, p + 8).Some? {
      WwwAtShape(s, p + 8);
    } else if StartsWith(s[p..], HttpScheme) && WwwAt(s, p + 7).Some? {
      WwwAtShape(s, p + 7);
    } else {
      WwwAtShape(s, p);
    }
  }

  /** What a match yields: one of the four domains, followed in the url by ".com/" and a
      non-empty id without '/', '?' or '#'. */
  lemma {:induction false} FindSocialShape(s: string)
    requires FindSocial(s).Some?
    ensures var m := FindSocial(s).value;
            m.domain in SpecifyDomains && m.id != [] && (forall c :: c in m.id ==> IsIdChar(c))
            && Contains(s, m.domain + ".com/" + m.id)
  {
    FindFromSpec(s, 0);
    MatchAtShape(s, FindFrom(s, 0).value.0);
  }

  /** The leftmost match wins. */
  lemma {:induction false} FindSocialLeftmost(s: string, p: nat)
    requires FindFrom(s, 0).Some? && p < FindFrom(s, 0).value.0
    ensures MatchAt(s, p).None?
  {
    FindFromSpec(s, 0);
  }

  lemma {:induction false} ExampleDomainAt(s: string)
    requires s == "https://x.com/abc"
    ensures DomainAt(s, 8, SpecifyDomains) == Some(SocialMatch("x", "abc"))
  {
    assert IdRun(s, 17) == 0;
    assert IdRun(s, 14) == 3;
    assert s[8..9] == "x" && s[9..14] == ".com/" && s[14..17] == "abc";
    assert SpecifyDomains[0] == "x";
  }

  lemma {:induction false} ExampleWwwAt(s: string)
    requires s == "https://x.com/abc"
    ensures WwwAt(s, 8) == Some(SocialMatch("x", "abc"))
  {
    ExampleDomainAt(s);
    assert s[8..11][0] == 'x';
    assert s[8..11] != "www";
  }

  lemma {:induction false} ExampleMatchAt(s: string)
    requires s == "https://x.com/abc"
    ensures MatchAt(s, 0) == Some(SocialMatch("x", "abc"))
  {
    ExampleWwwAt(s);
    assert s[0..] == s;
    assert StartsWith(s[0..], HttpsScheme);
  }

  lemma {:induction false} FindSocialExample()
    ensures FindSocial("https://x.com/abc") == Some(SocialMatch("x", "abc"))
  {
    var s := "https://x.com/abc";
    ExampleMatchAt(s);
    assert MatchesOf(s)[0] == MatchAt(s, 0);
  }

  // ---- phraseSocialUrl: the labels ----

  /** `urlRegex.matches(display)`: the whole display is `https?://\S+`. */
  predicate IsUrlText(d: string) {
    || (StartsWith(d, HttpsScheme) && |d| > 8 && forall i :: 8 <= i < |d| ==> !IsRegexSpace(d[i]))
    || (StartsWith(d, HttpScheme) && |d| > 7 && forall i :: 7 <= i < |d| ==> !IsRegexSpace(d[i]))
  }

  /** The three-way label rule shared by both kinds of link. */
  function Label(display: string, domain: string, fallback: string): string {
    if IsUrlText(display) || IsBlank(display) then fallback
    else if ContainsIgnoreCase(display, domain) then display
    else display + "(" + CapitalizeFirstLetter(domain) + ")"
  }

  /** A display that is neither a url nor blank is kept, and it is kept unchanged exactly
      when it already names the domain; otherwise the label falls back. */
  lemma {:induction false} LabelRule(display: string, domain: string, fallback: string)
    ensures IsUrlText(display) || IsBlank(display) ==> Label(display, domain, fallback) == fallback
    ensures !IsUrlText(display) && !IsBlank(display) ==>
              StartsWith(Label(display, domain, fallback), display)
              && (Label(display, domain, fallback) == display <==> ContainsIgnoreCase(display, domain))
  {
    if !IsUrlText(display) && !IsBlank(display) && !ContainsIgnoreCase(display, domain) {
      var r := Label(display, domain, fallback);
      assert |r| > |display|;
      assert r[..|display|] == display;
    }
  }

  /** `otherDomain.first { url.contains(it, ignoreCase = true) }`, `None` when `any` is false. */
  function FirstKeyword(keys: seq<string>, text: string): (r: Option<nat>)
    ensures r.Some? ==> r.value < |keys| && ContainsIgnoreCase(text, keys[r.value])
                        && forall j :: 0 <= j < r.value ==> !ContainsIgnoreCase(text, keys[j])
    ensures r.None? ==> forall j :: 0 <= j < |keys| ==> !ContainsIgnoreCase(text, keys[j])
  {
    if keys == [] then None
    else if ContainsIgnoreCase(text, keys[0]) then Some(0)
    else match FirstKeyword(keys[1..], text)
      case None => None
      case Some(i) => Some(i + 1)
  }

  /** The names shown for the domains: "twi" for both Twitter domains, "telegram" for
      t.me and "Bluesky" for bsky. */
  function ShownDomain(d: string): string {
    if d == "twitter" || d == "x" then "twi"
    else if d == "t.me" then "telegram"
    else if d == "bsky" then "Bluesky"
    else d
  }

  /** One step of `mapNotNull`: a known kind of link gets its label, any other is dropped. */
  function SocialHref(url: string, display: string): (r: Option<Href>)
    ensures r.Some? ==> r.value.url == url
  {
    match FindSocial(url)
    case Some(m) =>
      var domain := ShownDomain(m.domain);
      Some(Href(url, Label(display, domain, CapitalizeFirstLetter(domain + "@" + m.id))))
    case None =>
      match FirstKeyword(OtherDomains, url)
      case Some(i) =>
        var domain := ShownDomain(OtherDomains[i]);
        Some(Href(url, Label(display, domain, CapitalizeFirstLetter(domain))))
      case None => None
  }

  /** Which links are dropped: those matching no pattern and naming no other domain. */
  lemma {:induction false} SocialHrefDropped(url: string, display: string)
    ensures SocialHref(url, display).None? <==>
              FindSocial(url).None? && forall j :: 0 <= j < |OtherDomains| ==> !ContainsIgnoreCase(url, OtherDomains[j])
  {
  }

  /** A link matching a pattern is kept, labelled for its shown domain and id. */
  lemma {:induction false} SocialHrefFound(url: string, display: string, m: SocialMatch)
    requires FindSocial(url) == Some(m)
    ensures SocialHref(url, display) ==
              Some(Href(url, Label(display, ShownDomain(m.domain), CapitalizeFirstLetter(ShownDomain(m.domain) + "@" + m.id))))
  {
  }

  /** A link matching no pattern but containing a keyword of the other domains is
      labelled for the first such keyword, by its shown name. */
  lemma {:induction false} SocialHrefOther(url: string, display: string, i: nat)
    requires FindSocial(url).None? && FirstKeyword(OtherDomains, url) == Some(i)
    ensures SocialHref(url, display) ==
              Some(Href(url, Label(display, ShownDomain(OtherDomains[i]), CapitalizeFirstLetter(ShownDomain(OtherDomains[i])))))
  {
  }

  /** x and twitter are shown as "twi", t.me as "telegram", bsky as "Bluesky"; the other
      keywords and ko-fi and patreon as they are. */
  lemma {:induction false} ShownDomainNames()
    ensures ShownDomain("x") == "twi" && ShownDomain("twitter") == "twi"
    ensures ShownDomain("t.me") == "telegram" && ShownDomain("bsky") == "Bluesky"
    ensures forall d :: d in ["ko-fi", "patreon", "discord", "instagram", "youtube", "reddit"] ==> ShownDomain(d) == d
  {
  }

  lemma {:induction false} SocialHrefExample()
    ensures SocialHref("https://x.com/abc", "") == Some(Href("https://x.com/abc", "Twi@abc"))
  {
    FindSocialExample();
    SocialHrefFound("https://x.com/abc", "", SocialMatch("x", "abc"));
    TwiLabel();
  }

  lemma {:induction false} TwiLabel()
    ensures Label("", ShownDomain("x"), CapitalizeFirstLetter(ShownDomain("x") + "@" + "abc")) == "Twi@abc"
  {
    assert ShownDomain("x") == "twi";
    assert IsBlank("");
    assert CapitalizeFirstLetter("twi@abc") == "Twi@abc" by {
      var t := "twi@abc";
      assert t[1..] == "wi@abc";
    }
    assert "twi" + "@" + "abc" == "twi@abc";
  }

  function PairUrl(p: (string, string)): string {
    p.0
  }

  function PairShown(p: (string, string)): bool {
    !IsBlank(p.1)
  }

  /** `mapNotNull` of SocialHref. */
  function Labelled(ps: seq<(string, string)>): (r: seq<Href>)
    ensures |r| <= |ps|
    ensures forall h :: h in r ==> exists p :: p in ps && SocialHref(p.0, p.1) == Some(h)
  {
    if ps == [] then []
    else
      var rest := Labelled(ps[1..]);
      assert forall h :: h in rest ==> exists p :: p in ps && SocialHref(p.0, p.1) == Some(h) by {
        forall h | h in rest
          ensures exists p :: p in ps && SocialHref(p.0, p.1) == Some(h)
        {
          var p :| p in ps[1..] && SocialHref(p.0, p.1) == Some(h);
          assert p in ps;
        }
      }
      match SocialHref(ps[0].0, ps[0].1)
      case Some(h) => [h] + rest
      case None => rest
  }

  /** Every pair that SocialHref keeps appears in the result. */
  lemma {:induction false} LabelledKeeps(ps: seq<(string, string)>, p: (string, string))
    requires p in ps && SocialHref(p.0, p.1).Some?
    ensures SocialHref(p.0, p.1).value in Labelled(ps)
  {
    if p != ps[0] {
      LabelledKeeps(ps[1..], p);
    }
  }

  /** No url is listed twice. */
  predicate UrlsDistinct(r: seq<Href>) {
    forall i, j :: 0 <= i < j < |r| ==> r[i].url != r[j].url
  }

  lemma {:induction false} ConsUrlsDistinct(h: Href, rest: seq<Href>)
    requires UrlsDistinct(rest) && forall x :: x in rest ==> x.url != h.url
    ensures UrlsDistinct([h] + rest)
  {
    var r := [h] + rest;
    forall i, j | 0 <= i < j < |r|
      ensures r[i].url != r[j].url
    {
      assert r[j] == rest[j - 1];
      if i > 0 {
        assert r[i] == rest[i - 1];
      } else {
        assert rest[j - 1] in rest;
      }
    }
  }

  /** Each kept link carries the url of one of the pairs. */
  lemma {:induction false} LabelledUrlIn(ps: seq<(string, string)>, h: Href)
    requires h in Labelled(ps)
    ensures exists k :: 0 <= k < |ps| && ps[k].0 == h.url
  {
    var p :| p in ps && SocialHref(p.0, p.1) == Some(h);
    var k :| 0 <= k < |ps| && ps[k] == p;
  }

  /** Distinct input urls give distinct output urls. */
  lemma {:induction false} LabelledDistinct(ps: seq<(string, string)>)
    requires forall i, j :: 0 <= i < j < |ps| ==> ps[i].0 != ps[j].0
    ensures UrlsDistinct(Labelled(ps))
  {
    if ps != [] {
      var tail := ps[1..];
      forall i, j | 0 <= i < j < |tail|
        ensures tail[i].0 != tail[j].0
      {
        assert tail[i] == ps[i + 1] && tail[j] == ps[j + 1];
      }
      LabelledDistinct(tail);
      var rest := Labelled(tail);
      forall h | h in rest
        ensures h.url != ps[0].0
      {
        LabelledUrlIn(tail, h);
        var k :| 0 <= k < |tail| && tail[k].0 == h.url;
        assert ps[k + 1] == tail[k];
      }
      match SocialHref(ps[0].0, ps[0].1)
      case Some(h) =>
        ConsUrlsDistinct(h, rest);
      case None =>
    }
  }

  /** `phraseSocialUrl`: one entry per url (its label preferring a non-blank display), and
      of those, the links of a known kind with their labels. */
  function PhraseSocialUrl(pairs: seq<(string, string)>): seq<Href> {
    Labelled(Dedup(pairs, PairUrl, PairShown))
  }

  /** Urls are not repeated, every label comes from a pair with that url, and every url
      whose picked pair is of a known kind is present. */
  lemma {:induction false} PhraseSocialUrlLaws(pairs: seq<(string, string)>)
    ensures var r := PhraseSocialUrl(pairs);
            && UrlsDistinct(r)
            && (forall h :: h in r ==> exists p :: p in pairs && SocialHref(p.0, p.1) == Some(h))
    ensures forall p :: p in Dedup(pairs, PairUrl, PairShown) && SocialHref(p.0, p.1).Some? ==>
              SocialHref(p.0, p.1).value in PhraseSocialUrl(pairs)
  {
    var d := Dedup(pairs, PairUrl, PairShown);
    DedupSound(pairs, PairUrl, PairShown);
    LabelledDistinct(d);
    forall p | p in d && SocialHref(p.0, p.1).Some?
      ensures SocialHref(p.0, p.1).value in PhraseSocialUrl(pairs)
    {
      LabelledKeeps(d, p);
    }
  }
}
