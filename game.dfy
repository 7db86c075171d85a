/** The game records: the full `Game` stored in the game table, the `GameBasic` view the
    library shows, the per-url `LocalInfo` annotation, download files and devlog entries,
    and the decisions `toGameFull` takes on the already-extracted parts of a game page.
    Timestamps are natural numbers: seconds since `LocalDateTime.MIN`, which is 0. */
module Games {
  import opened Wrappers
  import opened Text
  import opened Tags
  import P = Platforms

  datatype File = File(name: string, platform: P.Platform, size: string)

  /** `List<File>.getVersionOrFileName()`: the name of the first file. The source indexes
      the list, which throws on an empty one; that case is `None`. */
  function VersionOrFileName(files: seq<File>): (r: Option<string>)
    ensures r.Some? <==> |files| > 0
  {
    if |files| == 0 then None else Some(files[0].name)
  }

  /** Only the first file's name matters: its platform and size, and every later file,
      are ignored. */
  lemma {:induction false} VersionOnlyFromFirstName(f: seq<File>, g: seq<File>)
    requires |f| > 0 && |g| > 0 && f[0].name == g[0].name
    ensures VersionOrFileName(f) == VersionOrFileName(g) == Some(f[0].name)
  {
  }

  datatype DevLogItem = DevLogItem(title: string, link: string, pubDate: nat, description: Option<string>)

  /** The user's annotation of one game, keyed by url. */
  datatype LocalInfo = LocalInfo(
    url: string,
    blurb: Option<string>,
    lastPlayedVersion: Option<string>,
    lastPlayedTime: Option<nat>,
    starred: bool)

  /** The annotation an import creates: the given blurb, never played, not starred. */
  function FreshLocalInfo(url: string, blurb: Option<string>): LocalInfo {
    LocalInfo(url, blurb, None, None, false)
  }

  /** A game as stored in the game table (`url` is the primary key). Icon, description,
      content and rating are display-only and not modelled. */
  datatype Game = Game(
    name: string,
    url: string,
    image: Option<string>,
    devLogs: seq<DevLogItem>,
    updatedTime: Option<nat>,
    publishedTime: Option<nat>,
    platforms: set<P.Platform>,
    files: seq<File>,
    filterTags: seq<FilterTag>)

  /** The library's view of a game, joined with its annotation. */
  datatype GameBasic = GameBasic(
    url: string,
    name: string,
    image: Option<string>,
    updatedTime: Option<nat>,
    publishedTime: Option<nat>,
    versionOrFileName: Option<string>,
    platforms: set<P.Platform>,
    devLogs: seq<DevLogItem>,
    filterTags: seq<FilterTag>,
    localInfo: LocalInfo)

  /** The tag types a `GameBasic` keeps. */
  const BasicTagTypes: set<TagType> := {TagType.Platform, NormalTag, Language}

  /** `Game.toBasic(localInfo)`. `None` stands for the exception of `getVersionOrFileName`
      on a game without files. */
  function ToBasic(g: Game, info: LocalInfo): (r: Option<GameBasic>)
    ensures r.Some? <==> |g.files| > 0
    ensures r.Some? ==>
              && r.value.url == g.url && r.value.name == g.name && r.value.image == g.image
              && r.value.updatedTime == g.updatedTime && r.value.publishedTime == g.publishedTime
              && r.value.platforms == g.platforms && r.value.devLogs == g.devLogs
              && r.value.versionOrFileName == Some(g.files[0].name)
              && r.value.localInfo == info
              && (forall t :: t in r.value.filterTags <==> t in g.filterTags && t.tagType in BasicTagTypes)
  {
    match VersionOrFileName(g.files)
    case None => None
    case Some(v) =>
      Some(GameBasic(g.url, g.name, g.image, g.updatedTime, g.publishedTime, Some(v),
                     g.platforms, g.devLogs, FilterTypes(g.filterTags, BasicTagTypes), info))
  }

  /** The kept tags stay in page order: those of a first part of the list come before
      those of the rest. */
  lemma {:induction false} ToBasicKeepsTagOrder(g: Game, info: LocalInfo, a: seq<FilterTag>, b: seq<FilterTag>)
    requires |g.files| > 0 && g.filterTags == a + b
    ensures ToBasic(g, info).value.filterTags == FilterTypes(a, BasicTagTypes) + FilterTypes(b, BasicTagTypes)
  {
    FilterTypesAppend(a, b, BasicTagTypes);
  }

  /** `GameBasic.updated`: the user played a version and the current one is different. */
  predicate HasUpdate(b: GameBasic) {
    b.localInfo.lastPlayedVersion.Some? && b.versionOrFileName != b.localInfo.lastPlayedVersion
  }

  /** Recording the current version as played clears the update flag. */
  lemma {:induction false} MarkingClearsUpdate(b: GameBasic, time: Option<nat>)
    ensures !HasUpdate(b.(localInfo := b.localInfo.(lastPlayedVersion := b.versionOrFileName, lastPlayedTime := time)))
  {
  }

  /** A freshly imported game never shows an update. */
  lemma {:induction false} FreshGameHasNoUpdate(g: Game, blurb: Option<string>)
    requires |g.files| > 0
    ensures !HasUpdate(ToBasic(g, FreshLocalInfo(g.url, blurb)).value)
  {
  }

  /** A new upload (a different first file name) shows an update to a user who played an
      earlier version. */
  lemma {:induction false} NewUploadShowsUpdate(b: GameBasic, played: string)
    requires b.localInfo.lastPlayedVersion == Some(played) && b.versionOrFileName != Some(played)
    ensures HasUpdate(b)
  {
  }

  /** One entry of a collection page: the game's name, url and optional blurb. */
  datatype GameCell = GameCell(name: string, url: string, blurb: Option<string>)

  // ---- toGameFull, on the parts already extracted from the page ----

  datatype Anchor = Anchor(text: string, href: string)

  /** One `td` of an info row: its text, the `title` of its first `abbr`, its `a` elements. */
  datatype Cell = Cell(text: string, abbrTitle: Option<string>, anchors: seq<Anchor>)

  /** What an info row does, by its heading. */
  datatype RowAction = SetUpdated | SetPublished | FirstAnchor(t: TagType) | AllAnchors(t: TagType) | NoAction

  const KnownLabels: set<string> := {
    "Updated", "Published", "Status", "Platforms", "Author", "Authors", "Category", "Genre",
    "Made with", "Tags", "Inputs", "Languages", "Average session", "Links"
  }

  function RowActionOf(heading: string): (r: RowAction)
    ensures r == NoAction <==> heading !in KnownLabels
    ensures r == SetUpdated <==> heading == "Updated"
    ensures r == SetPublished <==> heading == "Published"
    ensures r.FirstAnchor? ==> r.t in {Status, Category, Duration}
  {
    match heading
    case "Updated" => SetUpdated
    case "Published" => SetPublished
    case "Status" => FirstAnchor(Status)
    case "Platforms" => AllAnchors(TagType.Platform)
    case "Author" => AllAnchors(Author)
    case "Authors" => AllAnchors(Author)
    case "Category" => FirstAnchor(Category)
    case "Genre" => AllAnchors(Genre)
    case "Made with" => AllAnchors(MadeWith)
    case "Tags" => AllAnchors(NormalTag)
    case "Inputs" => AllAnchors(Input)
    case "Languages" => AllAnchors(Language)
    case "Average session" => FirstAnchor(Duration)
    case "Links" => AllAnchors(Link)
    case _ => NoAction
  }

  /** Both spellings of the author heading give author tags, and each list heading gives
      its own type. */
  lemma {:induction false} LabelTypes()
    ensures RowActionOf("Author") == RowActionOf("Authors") == AllAnchors(Author)
    ensures RowActionOf("Tags") == AllAnchors(NormalTag)
    ensures RowActionOf("Languages") == AllAnchors(Language)
    ensures RowActionOf("Platforms") == AllAnchors(TagType.Platform)
    ensures RowActionOf("Made with") == AllAnchors(MadeWith)
  {
  }

  datatype ParseFailure =
    | ParsingError(extra: string)  // NetworkException.ParsingError
    | MissingElement               // a `!!` on a selector that found nothing

  /** `ParsingError(extra)` prints as "Failed to parse <extra>". */
  function ParseFailureMessage(f: ParseFailure): Option<string> {
    match f
    case ParsingError(extra) => Some("Failed to parse " + extra)
    case MissingElement => None
  }

  /** What the info rows yield: the tag list, and the raw texts of the two dates. */
  datatype InfoSummary = InfoSummary(tags: seq<FilterTag>, updatedText: Option<string>, publishedText: Option<string>)

  function TagsOf(anchors: seq<Anchor>, t: TagType): (r: seq<FilterTag>)
    ensures |r| == |anchors|
    ensures forall i :: 0 <= i < |r| ==> r[i] == FilterTag(anchors[i].text, anchors[i].href, t)
  {
    if anchors == [] then [] else [FilterTag(anchors[0].text, anchors[0].href, t)] + TagsOf(anchors[1..], t)
  }

  /** The effect of one row on what the rows before it produced. */
  function ApplyRow(acc: InfoSummary, row: seq<Cell>): Result<InfoSummary, ParseFailure> {
    if |row| < 2 then Failure(ParsingError("failed to parse information"))
    else
      var v := row[1];
      match RowActionOf(row[0].text)
      case SetUpdated =>
        if v.abbrTitle.None? then Failure(MissingElement) else Success(acc.(updatedText := v.abbrTitle))
      case SetPublished =>
        if v.abbrTitle.None? then Failure(MissingElement) else Success(acc.(publishedText := v.abbrTitle))
      case FirstAnchor(t) =>
        if v.anchors == [] then Failure(MissingElement)
        else Success(acc.(tags := acc.tags + [FilterTag(v.anchors[0].text, v.anchors[0].href, t)]))
      case AllAnchors(t) => Success(acc.(tags := acc.tags + TagsOf(v.anchors, t)))
      case NoAction => Success(acc)
  }

  /** The rows applied in order from nothing; the first failing row aborts. */
  function InfoOf(rows: seq<seq<Cell>>): Result<InfoSummary, ParseFailure> {
    if rows == [] then Success(InfoSummary([], None, None))
    else match InfoOf(rows[..|rows| - 1])
      case Failure(e) => Failure(e)
      case Success(acc) => ApplyRow(acc, rows[|rows| - 1])
  }

  /** The row loop of `toGameFull`. */
  method ParseInfoRows(rows: seq<seq<Cell>>) returns (r: Result<InfoSummary, ParseFailure>)
    ensures r == InfoOf(rows)
  {
    var acc := InfoSummary([], None, None);
    var i := 0;
    while i < |rows|
      invariant 0 <= i <= |rows|
      invariant InfoOf(rows[..i]) == Success(acc)
    {
      assert rows[..i + 1][..i] == rows[..i];
      var step := ApplyRow(acc, rows[i]);
      if step.Failure? {
        PrefixFailureSticks(rows, i + 1);
        assert rows[..|rows|] == rows;
        return step;
      }
      acc := step.value;
      i := i + 1;
    }
    assert rows[..i] == rows;
    r := Success(acc);
  }

  /** Once a prefix of the rows fails, the whole parse fails with the same error. */
  lemma {:induction false} PrefixFailureSticks(rows: seq<seq<Cell>>, k: nat)
    requires k <= |rows| && InfoOf(rows[..k]).Failure?
    ensures InfoOf(rows) == InfoOf(rows[..k])
    decreases |rows| - k
  {
    if k < |rows| {
      assert rows[..k + 1][..k] == rows[..k];
      PrefixFailureSticks(rows, k + 1);
    } else {
      assert rows[..k] == rows;
    }
  }

  /** A successful parse saw at least two cells in every row. */
  lemma {:induction false} ParsedRowsHaveTwoCells(rows: seq<seq<Cell>>)
    requires InfoOf(rows).Success?
    ensures forall i :: 0 <= i < |rows| ==> |rows[i]| >= 2
  {
    if rows != [] {
      var init := rows[..|rows| - 1];
      ParsedRowsHaveTwoCells(init);
      forall i | 0 <= i < |rows|
        ensures |rows[i]| >= 2
      {
        if i < |rows| - 1 {
          assert rows[i] == init[i];
        }
      }
    }
  }

  /** A row with an unknown heading changes nothing. */
  lemma {:induction false} UnknownLabelIgnored(rows: seq<seq<Cell>>, row: seq<Cell>)
    requires |row| >= 2 && row[0].text !in KnownLabels
    ensures InfoOf(rows + [row]) == InfoOf(rows)
  {
    assert (rows + [row])[..|rows + [row]| - 1] == rows;
  }

  /** One download block: the file name, its size text and the html of its platform icons. */
  datatype Download = Download(name: string, size: string, platformHtml: string)

  /** A file's platform: the first `platformMap` key found in its platform html, else
      `UNKNOWN`. */
  function FilePlatform(html: string): P.Platform {
    P.FirstPlatformIn(html).GetOr(P.Unknown)
  }

  /** `Unknown` is exactly the case of no key in the html. */
  lemma {:induction false} FilePlatformUnknownIff(html: string)
    ensures FilePlatform(html) == P.Unknown <==>
            forall i :: 0 <= i < |P.PlatformMap| ==> !P.KeyIn(P.PlatformMap[i], html)
  {
  }

  /** The download loop of `toGameFull`. */
  method ParseFiles(downloads: seq<Download>) returns (files: seq<File>)
    ensures |files| == |downloads|
    ensures forall i :: 0 <= i < |files| ==>
              files[i] == File(downloads[i].name, FilePlatform(downloads[i].platformHtml), downloads[i].size)
  {
    files := [];
    var i := 0;
    while i < |downloads|
      invariant 0 <= i <= |downloads| && |files| == i
      invariant forall k :: 0 <= k < i ==>
                  files[k] == File(downloads[k].name, FilePlatform(downloads[k].platformHtml), downloads[k].size)
    {
      files := files + [File(downloads[i].name, FilePlatform(downloads[i].platformHtml), downloads[i].size)];
      i := i + 1;
    }
  }

  predicate HasPlatformTag(tags: seq<FilterTag>) {
    exists t :: t in tags && t.tagType == TagType.Platform
  }

  /** The known platforms the Platform tags name; a tag naming none adds nothing. */
  function TagPlatforms(tags: seq<FilterTag>): set<P.Platform> {
    set t | t in tags && t.tagType == TagType.Platform && P.FirstPlatformIn(t.displayName).Some?
          :: P.FirstPlatformIn(t.displayName).value
  }

  /** The platforms of the files. */
  function FilePlatforms(files: seq<File>): set<P.Platform> {
    set f | f in files :: f.platform
  }

  /** The platform set `toGameFull` derives: from the Platform tags when there are any,
      else from the files' platforms. */
  function PlatformSet(tags: seq<FilterTag>, files: seq<File>): set<P.Platform> {
    if HasPlatformTag(tags) then TagPlatforms(tags) else FilePlatforms(files)
  }

  /** The tag loop's step: one more tag adds its platform, if it names one. */
  lemma {:induction false} TagPlatformsStep(tags: seq<FilterTag>, i: nat)
    requires i < |tags|
    ensures TagPlatforms(tags[..i + 1]) ==
              TagPlatforms(tags[..i]) +
              (if tags[i].tagType == TagType.Platform && P.FirstPlatformIn(tags[i].displayName).Some?
               then {P.FirstPlatformIn(tags[i].displayName).value} else {})
  {
    assert tags[..i + 1] == tags[..i] + [tags[i]];
  }

  /** The file loop's step: one more file adds its platform. */
  lemma {:induction false} FilePlatformsStep(files: seq<File>, i: nat)
    requires i < |files|
    ensures FilePlatforms(files[..i + 1]) == FilePlatforms(files[..i]) + {files[i].platform}
  {
    assert files[..i + 1] == files[..i] + [files[i]];
  }

  /** Platform tags never contribute `Unknown`; only a file can. */
  lemma {:induction false} TagPlatformsKnown(tags: seq<FilterTag>, files: seq<File>)
    requires HasPlatformTag(tags)
    ensures P.Unknown !in PlatformSet(tags, files)
  {
  }

  /** The platform loop of `toGameFull`. */
  method CollectPlatforms(tags: seq<FilterTag>, files: seq<File>) returns (ps: set<P.Platform>)
    ensures ps == PlatformSet(tags, files)
  {
    ps := {};
    if exists t :: t in tags && t.tagType == TagType.Platform {
      var i := 0;
      while i < |tags|
        invariant 0 <= i <= |tags|
        invariant ps == TagPlatforms(tags[..i])
      {
        TagPlatformsStep(tags, i);
        if tags[i].tagType == TagType.Platform {
          var p := P.FirstPlatformIn(tags[i].displayName);
          if p.Some? {
            ps := ps + {p.value};
          }
        }
        i := i + 1;
      }
      assert tags[..i] == tags;
    } else if |files| > 0 {
      var i := 0;
      while i < |files|
        invariant 0 <= i <= |files|
        invariant ps == FilePlatforms(files[..i])
      {
        FilePlatformsStep(files, i);
        ps := ps + {files[i].platform};
        i := i + 1;
      }
      assert files[..i] == files;
    } else {
      assert files == [];
    }
  }

  /** One devlog entry of the game page, with its date already read. */
  datatype DevLogEntry = DevLogEntry(text: string, href: string, pubDate: nat)

  /** The parts of a game page `toGameFull` works on. */
  datatype GamePage = GamePage(
    name: string,
    url: string,
    image: Option<string>,
    infoRows: seq<seq<Cell>>,
    downloads: seq<Download>,
    devLogEntries: seq<DevLogEntry>)

  /** `toGameFull`: info rows, then files, platforms and devlogs. `readDate` stands for
      the date parser, which is not modelled. */
  method ToGameFull(page: GamePage, readDate: string -> nat) returns (r: Result<Game, ParseFailure>)
    ensures InfoOf(page.infoRows).Failure? ==> r == Failure(InfoOf(page.infoRows).error)
    ensures InfoOf(page.infoRows).Success? ==>
              var info := InfoOf(page.infoRows).value;
              && r.Success?
              && r.value.name == page.name && r.value.url == page.url && r.value.image == page.image
              && r.value.filterTags == info.tags
              && r.value.updatedTime == (if info.updatedText.Some? then Some(readDate(info.updatedText.value)) else None)
              && r.value.publishedTime == (if info.publishedText.Some? then Some(readDate(info.publishedText.value)) else None)
              && |r.value.files| == |page.downloads|
              && (forall i :: 0 <= i < |page.downloads| ==>
                    r.value.files[i] == File(page.downloads[i].name, FilePlatform(page.downloads[i].platformHtml),
                                             page.downloads[i].size))
              && r.value.platforms == PlatformSet(info.tags, r.value.files)
              && |r.value.devLogs| == |page.devLogEntries|
              && (forall i :: 0 <= i < |page.devLogEntries| ==>
                    r.value.devLogs[i] == DevLogItem(page.devLogEntries[i].text, page.devLogEntries[i].href,
                                                     page.devLogEntries[i].pubDate, None))
  {
    var info := ParseInfoRows(page.infoRows);
    if info.Failure? {
      return Failure(info.error);
    }
    var files := ParseFiles(page.downloads);
    var platforms := CollectPlatforms(info.value.tags, files);
    var devLogs: seq<DevLogItem> := [];
    var i := 0;
    while i < |page.devLogEntries|
      invariant 0 <= i <= |page.devLogEntries| && |devLogs| == i
      invariant forall k :: 0 <= k < i ==>
                  devLogs[k] == DevLogItem(page.devLogEntries[k].text, page.devLogEntries[k].href,
                                           page.devLogEntries[k].pubDate, None)
    {
      var e := page.devLogEntries[i];
      devLogs := devLogs + [DevLogItem(e.text, e.href, e.pubDate, None)];
      i := i + 1;
    }
    var updated := if info.value.updatedText.Some? then Some(readDate(info.value.updatedText.value)) else None;
    var published := if info.value.publishedText.Some? then Some(readDate(info.value.publishedText.value)) else None;
    r := Success(Game(page.name, page.url, page.image, devLogs, updated, published, platforms, files, info.value.tags));
  }
}
