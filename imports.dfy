/** What the two import view models share: the extraction of game urls from pasted text
    with `(https://)?([^/]+)\.itch\.io/([A-Za-z0-9-]+)` and `cleanUrl`, the import screen
    state, the success / failure tally of a bulk import, its messages and its progress. */
module Imports {
  import opened Wrappers
  import opened Text
  import opened Games
  import opened Repository
  import opened LibraryCommon
  import opened UrlUtils

  // ---- the import pattern ----

  /** A character of `[A-Za-z0-9-]`. */
  predicate IsSlugChar(c: char) {
    ('A' <= c <= 'Z') || ('a' <= c <= 'z') || ('0' <= c <= '9') || c == '-'
  }

  /** The greedy `[A-Za-z0-9-]+` from `i`: the length of the longest run. */
  function SlugRun(s: string, i: nat): (n: nat)
    requires i <= |s|
    ensures i + n <= |s|
    ensures forall j :: i <= j < i + n ==> IsSlugChar(s[j])
    ensures i + n == |s| || !IsSlugChar(s[i + n])
    decreases |s| - i
  {
    if i < |s| && IsSlugChar(s[i]) then 1 + SlugRun(s, i + 1) else 0
  }

  /** Where the match starting at `p` ends, if there is one. The optional "https://" is
      taken when present (without it the host would reach the scheme's '/', too early for
      ".itch.io"). The host `[^/]+` and ".itch.io" hold no '/', so the '/' of ".itch.io/"
      is the first '/' after the scheme, and the host is what lies before the ".itch.io"
      in front of it. The last group takes the longest run after that '/'. */
  function MatchEnd(s: string, p: nat): (r: Option<nat>)
    requires p <= |s|
    ensures r.Some? ==> p < r.value <= |s|
  {
    HostEnd(s, if StartsWith(s[p..], HttpsScheme) then p + 8 else p)
  }

  /** The rest of the match once the scheme, if any, is taken: the host up to the first
      '/', ending in ".itch.io", then the slug. */
  function HostEnd(s: string, q: nat): (r: Option<nat>)
    requires q <= |s|
    ensures r.Some? ==> q < r.value <= |s|
  {
    match IndexOf(s[q..], '/')
    case None => None
    case Some(k) =>
      var f := q + k;
      if k >= 9 && s[f - 8..f] == ".itch.io" && SlugRun(s, f + 1) > 0 then Some(f + 1 + SlugRun(s, f + 1))
      else None
  }

  /** `findAll(text)` from `p`, as the matched substrings: the leftmost match, then the
      matches after its end. */
  function Matches(s: string, p: nat): (r: seq<string>)
    requires p <= |s|
    decreases |s| - p
  {
    if p == |s| then []
    else
      match MatchEnd(s, p)
      case Some(e) => [s[p..e]] + Matches(s, e)
      case None => Matches(s, p + 1)
  }

  /** A match is a non-empty piece of the text that names an itch.io page and ends in a
      slug character. */
  predicate MatchShape(s: string, m: string) {
    Contains(s, m) && Contains(m, ".itch.io/") && m != [] && IsSlugChar(m[|m| - 1])
  }

  /** Where the ".itch.io/" of a match lies, and that its last character is a slug
      character. */
  lemma {:induction false} MatchEndParts(s: string, p: nat) returns (f: nat)
    requires p <= |s| && MatchEnd(s, p).Some?
    ensures p + 8 <= f < MatchEnd(s, p).value
    ensures s[f - 8..f + 1] == ".itch.io/"
    ensures IsSlugChar(s[MatchEnd(s, p).value - 1])
  {
    f := HostEndParts(s, if StartsWith(s[p..], HttpsScheme) then p + 8 else p);
  }

  lemma {:induction false} HostEndParts(s: string, q: nat) returns (f: nat)
    requires q <= |s| && HostEnd(s, q).Some?
    ensures q + 8 <= f < HostEnd(s, q).value
    ensures s[f - 8..f + 1] == ".itch.io/"
    ensures IsSlugChar(s[HostEnd(s, q).value - 1])
  {
    var k := IndexOf(s[q..], '/').value;
    f := q + k;
    var n := SlugRun(s, f + 1);
    assert s[f] == s[q..][k] == '/';
    ItchSlash(s, f);
    assert IsSlugChar(s[f + n]);
  }

  lemma {:induction false} ItchSlash(s: string, f: nat)
    requires 8 <= f < |s| && s[f - 8..f] == ".itch.io" && s[f] == '/'
    ensures s[f - 8..f + 1] == ".itch.io/"
  {
    assert s[f - 8..f + 1] == s[f - 8..f] + [s[f]];
  }

  lemma {:induction false} MatchEndShape(s: string, p: nat)
    requires p <= |s| && MatchEnd(s, p).Some?
    ensures MatchShape(s, s[p..MatchEnd(s, p).value])
  {
    var f := MatchEndParts(s, p);
    PiecesShape(s, p, f, MatchEnd(s, p).value);
  }

  /** A piece of the text from `p` to `e` holding ".itch.io/" at `f - 8` and ending in a
      slug character has the shape of a match. */
  lemma {:induction false} PiecesShape(s: string, p: nat, f: nat, e: nat)
    requires p + 8 <= f < e <= |s| && s[f - 8..f + 1] == ".itch.io/" && IsSlugChar(s[e - 1])
    ensures MatchShape(s, s[p..e])
  {
    var m := s[p..e];
    assert OccursAt(s, m, p);
    var i := f - 8 - p;
    assert m[i..i + 9] == s[f - 8..f + 1];
    assert OccursAt(m, ".itch.io/", i);
    assert m[|m| - 1] == s[e - 1];
  }

  /** Every match of `findAll` has that shape. */
  lemma {:induction false} MatchesShape(s: string, p: nat)
    requires p <= |s|
    ensures forall m :: m in Matches(s, p) ==> MatchShape(s, m)
    decreases |s| - p
  {
    if p < |s| {
      match MatchEnd(s, p)
      case Some(e) =>
        MatchesShape(s, e);
        MatchEndShape(s, p);
        assert Matches(s, p) == [s[p..e]] + Matches(s, e);
      case None =>
        MatchesShape(s, p + 1);
    }
  }

  /** The urls to import: the set of the cleaned matches. */
  function UrlsIn(text: string): set<string> {
    set m | m in Matches(text, 0) :: CleanUrl(m)
  }

  /** Every url to import starts with "https://" and has no query. */
  lemma {:induction false} UrlsInShape(text: string)
    ensures forall u :: u in UrlsIn(text) ==> StartsWith(u, HttpsScheme) && '?' !in u
  {
    forall u | u in UrlsIn(text)
      ensures StartsWith(u, HttpsScheme) && '?' !in u
    {
      var m :| m in Matches(text, 0) && u == CleanUrl(m);
      CleanUrlShape(m);
    }
  }

  /** The pasted url of one game page is found whole, and imported cleaned. */
  lemma {:induction false} GamePageTextFound(s: string, a: string, b: string)
    requires GamePageParts(s, a, b) && forall j :: 0 <= j < |b| ==> IsSlugChar(b[j])
    ensures Matches(s, 0) == [s]
    ensures UrlsIn(s) == {CleanUrl(s)}
    ensures '?' !in a ==> UrlsIn(s) == {s}
  {
    GamePageMatchEnd(s, a, b);
    assert s[0..|s|] == s;
    assert Matches(s, |s|) == [];
    assert Matches(s, 0) == [s] + Matches(s, |s|);
    if '?' !in a {
      GamePageNoQuery(s, a, b);
      CleanUrlKeepsClean(s);
    }
  }

  lemma {:induction false} GamePageNoQuery(s: string, a: string, b: string)
    requires GamePageParts(s, a, b) && (forall j :: 0 <= j < |b| ==> IsSlugChar(b[j])) && '?' !in a
    ensures StartsWith(s, HttpsScheme) && '?' !in s
  {
    assert s == HttpsScheme + a + ItchHost + b;
    assert s[..8] == HttpsScheme;
    assert forall j :: 0 <= j < |b| ==> b[j] != '?';
  }

  /** On such a url the match from its first character runs to its end. */
  lemma {:induction false} GamePageMatchEnd(s: string, a: string, b: string)
    requires GamePageParts(s, a, b) && forall j :: 0 <= j < |b| ==> IsSlugChar(b[j])
    ensures MatchEnd(s, 0) == Some(|s|)
  {
    var f := |a| + 16;
    GamePageSlash(s, a, b);
    assert s[..8] == HttpsScheme;
    assert s[0..] == s;
    forall j | f + 1 <= j < |s|
      ensures IsSlugChar(s[j])
    {
      assert s[j] == b[j - f - 1];
    }
    SlugRunToEnd(s, f + 1);
  }

  /** The first '/' after the scheme is the one of ".itch.io/". */
  lemma {:induction false} GamePageSlash(s: string, a: string, b: string)
    requires GamePageParts(s, a, b)
    ensures IndexOf(s[8..], '/') == Some(|a| + 8)
    ensures s[|a| + 8..|a| + 16] == ".itch.io"
    ensures s[|a| + 17..] == b
  {
    var rest := s[8..];
    var k := |a| + 8;
    assert rest == a + ItchHost + b;
    assert rest[..k] == a + ".itch.io";
    assert rest[k] == '/';
    IndexOfAt(rest, '/', k);
    assert s[|a| + 8..|a| + 16] == rest[|a|..k];
  }

  /** The slug run from `i` reaches the end when every character after `i` is a slug
      character. */
  lemma {:induction false} SlugRunToEnd(s: string, i: nat)
    requires i <= |s| && forall j :: i <= j < |s| ==> IsSlugChar(s[j])
    ensures SlugRun(s, i) == |s| - i
    decreases |s| - i
  {
    if i < |s| {
      SlugRunToEnd(s, i + 1);
    }
  }

  /** The loop of AddGames: each match is cleaned and added to a mutable set. */
  method ExtractUrls(text: string) returns (urls: set<string>)
    ensures urls == UrlsIn(text)
  {
    var ms := Matches(text, 0);
    urls := {};
    var i := 0;
    while i < |ms|
      invariant 0 <= i <= |ms|
      invariant urls == set m | m in ms[..i] :: CleanUrl(m)
    {
      assert ms[..i + 1] == ms[..i] + [ms[i]];
      urls := urls + {CleanUrl(ms[i])};
      i := i + 1;
    }
    assert ms[..i] == ms;
  }

  // ---- the screen state ----

  /** `ImportState`; the progress `index / size` is kept as the pair. */
  datatype ImportState = ImportState(progress: Option<(nat, nat)>, loading: bool, progressText: string)

  /** What the view model asks the navigator for: `popBackStack()`, or the detail screen
      of a url (`"detail?url=…&id=…"`, the url kept un-encoded here). */
  datatype Route = Back | Detail(url: string, id: nat)

  /** `clearProgress()`. */
  const Cleared: ImportState := ImportState(None, false, "")

  /** The state after `n` outcomes of an import of `size` urls that started in `ui`:
      unchanged before the first; once `size` outcomes have come, cleared; in between,
      for five or more urls, the last progress and its text. */
  function ImportUi(ui: ImportState, n: nat, size: nat, labels: seq<string>): (r: ImportState)
    requires n <= |labels|
    ensures n == 0 ==> r == ui
    ensures 0 < n && size <= n ==> r == Cleared
    ensures 0 < n < size && size < 5 ==> r == ui
    ensures 0 < n < size && size >= 5 ==> r.progress == Some((n, size)) && r.loading == ui.loading
  {
    if n == 0 then ui
    else if n >= size then Cleared
    else if size >= 5 then ui.(progress := Some((n, size)), progressText := labels[n - 1])
    else ui
  }

  /** One outcome more: for five or more urls the progress moves on with its text, and
      the last outcome clears it. */
  function ProgressStep(u: ImportState, index: nat, size: nat, text: string): ImportState {
    var moved := if size >= 5 then u.(progress := Some((index, size)), progressText := text) else u;
    if index >= size then Cleared else moved
  }

  lemma {:induction false} ImportUiStep(ui: ImportState, i: nat, size: nat, labels: seq<string>)
    requires i < |labels|
    ensures ImportUi(ui, i + 1, size, labels) == ProgressStep(ImportUi(ui, i, size, labels), i + 1, size, labels[i])
  {
  }

  /** The progress texts of AddGames and AddGamesFromLocal. */
  function Fetching(n: nat): (r: seq<string>)
    ensures |r| == n && forall i :: 0 <= i < n ==> r[i] == "fetching..."
  {
    seq(n, i requires 0 <= i < n => "fetching...")
  }

  /** The progress texts of FetchCollection: the name of the cell just added. */
  function CellTexts(cells: seq<GameCell>): (r: seq<string>)
    ensures |r| == |cells| && forall i :: 0 <= i < |cells| ==> r[i] == "fetching " + cells[i].name
  {
    seq(|cells|, i requires 0 <= i < |cells| => "fetching " + cells[i].name)
  }

  // ---- the tally ----

  /** `failIndex`: the failures other than `ImportException.ExistError`. */
  function Fails(outs: seq<Outcome>): (n: nat)
    ensures n <= |outs|
  {
    if outs == [] then 0
    else Fails(outs[..|outs| - 1]) + (if outs[|outs| - 1] == Failure(ExistError) || outs[|outs| - 1].Success? then 0 else 1)
  }

  /** Successes and counted failures never exceed the outcomes, and they make up all of
      them when no outcome is an ExistError. */
  lemma {:induction false} TallyParts(outs: seq<Outcome>)
    ensures Successes(outs) + Fails(outs) <= |outs|
    ensures (forall i :: 0 <= i < |outs| ==> outs[i] != Failure(ExistError)) ==>
              Successes(outs) + Fails(outs) == |outs|
  {
    if outs != [] {
      TallyParts(outs[..|outs| - 1]);
    }
  }

  lemma {:induction false} AddOneNoExistError(t: Tables, fetch: string -> Result<Game, FetchError>, url: string,
                            blurb: Option<string>, withLocalInfo: bool)
    ensures AddOne(t, fetch, url, blurb, withLocalInfo).1 != Failure(ExistError)
  {
    if url !in t.games {
      match Obtain(t, fetch, url)
      case Failure(f) => assert f.FetchFailed?;
      case Success(g) =>
    }
  }

  /** The repository never reports ExistError: its duplicate check fails with a plain
      exception instead. */
  lemma {:induction false} AddAllNoExistError(t: Tables, fetch: string -> Result<Game, FetchError>,
                                              reqs: seq<Request>, withLocalInfo: bool)
    ensures forall i :: 0 <= i < |reqs| ==> AddAll(t, fetch, reqs, withLocalInfo).1[i] != Failure(ExistError)
    decreases |reqs|
  {
    if reqs != [] {
      var init := reqs[..|reqs| - 1];
      var last := reqs[|reqs| - 1];
      AddAllNoExistError(t, fetch, init, withLocalInfo);
      var t1 := AddAll(t, fetch, init, withLocalInfo).0;
      var outs := AddAll(t, fetch, init, withLocalInfo).1;
      var o := AddOne(t1, fetch, last.url, last.blurb, withLocalInfo).1;
      assert AddAll(t, fetch, reqs, withLocalInfo).1 == outs + [o];
      AddOneNoExistError(t1, fetch, last.url, last.blurb, withLocalInfo);
    }
  }

  /** So the "existed" figure of the newer summary is always 0: duplicates are counted
      among the failures. */
  lemma {:induction false} ExistedAlwaysZero(t: Tables, fetch: string -> Result<Game, FetchError>, reqs: seq<Request>, withLocalInfo: bool)
    ensures var outs := AddAll(t, fetch, reqs, withLocalInfo).1;
            |reqs| - Successes(outs) - Fails(outs) == 0
  {
    AddAllNoExistError(t, fetch, reqs, withLocalInfo);
    TallyParts(AddAll(t, fetch, reqs, withLocalInfo).1);
  }

  /** The newer summary: "added s games, size in total, size-s-f existed, f failed". */
  function TallySummary(successes: nat, fails: nat, size: nat): string {
    "added " + NatToString(successes) + " games, " + NatToString(size) + " in total, "
    + IntToString(size - successes - fails) + " existed, " + NatToString(fails) + " failed"
  }

  /** The newer messages after each outcome: the summary, once `index >= size`. */
  function TallyMessages(outs: seq<Outcome>, size: nat): seq<string> {
    if outs == [] then []
    else TallyMessages(outs[..|outs| - 1], size)
         + (if |outs| >= size then [TallySummary(Successes(outs), Fails(outs), size)] else [])
  }

  /** The older summary: "added s/size". */
  function AddedSummary(successes: nat, size: nat): string {
    "added " + NatToString(successes) + "/" + NatToString(size)
  }

  function AddedMessages(outs: seq<Outcome>, size: nat): seq<string> {
    if outs == [] then []
    else AddedMessages(outs[..|outs| - 1], size)
         + (if |outs| >= size then [AddedSummary(Successes(outs), size)] else [])
  }

  lemma {:induction false} NoSummaryBeforeSize(outs: seq<Outcome>, size: nat)
    requires |outs| < size
    ensures TallyMessages(outs, size) == [] && AddedMessages(outs, size) == []
  {
    if outs != [] {
      NoSummaryBeforeSize(outs[..|outs| - 1], size);
    }
  }

  /** With one outcome per url, exactly one summary is sent, at the end. */
  lemma {:induction false} SummaryOnce(outs: seq<Outcome>, size: nat)
    requires |outs| == size && size > 0
    ensures TallyMessages(outs, size) == [TallySummary(Successes(outs), Fails(outs), size)]
    ensures AddedMessages(outs, size) == [AddedSummary(Successes(outs), size)]
  {
    NoSummaryBeforeSize(outs[..|outs| - 1], size);
  }

  /** One more outcome, as the import loops take it. */
  lemma {:induction false} TallyStep(outs: seq<Outcome>, size: nat, i: nat)
    requires i < |outs|
    ensures var o := outs[i];
            && Successes(outs[..i + 1]) == Successes(outs[..i]) + (if o.Success? then 1 else 0)
            && Fails(outs[..i + 1]) == Fails(outs[..i]) + (if o == Failure(ExistError) || o.Success? then 0 else 1)
            && TallyMessages(outs[..i + 1], size)
               == TallyMessages(outs[..i], size)
                  + (if i + 1 >= size then [TallySummary(Successes(outs[..i + 1]), Fails(outs[..i + 1]), size)] else [])
  {
    assert outs[..i + 1][..i] == outs[..i];
    assert outs[..i + 1][i] == outs[i];
  }

  /** One more outcome, as the older import loops take it. */
  lemma {:induction false} AddedStep(outs: seq<Outcome>, size: nat, i: nat)
    requires i < |outs|
    ensures Successes(outs[..i + 1]) == Successes(outs[..i]) + (if outs[i].Success? then 1 else 0)
    ensures AddedMessages(outs[..i + 1], size)
            == AddedMessages(outs[..i], size)
               + (if i + 1 >= size then [AddedSummary(Successes(outs[..i + 1]), size)] else [])
  {
    assert outs[..i + 1][..i] == outs[..i];
    assert outs[..i + 1][i] == outs[i];
  }

  /** The message AddGame sends for its one outcome: "added successfully", or the
      failure's message when it has one. */
  function OutcomeMessages(o: Outcome): seq<string> {
    match o
    case Success(_) => ["added successfully"]
    case Failure(f) => if FailureMessage(f).Some? then [FailureMessage(f).value] else []
  }
}
