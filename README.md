# ItchWatch library core in Dafny

This project is a Dafny model of ItchWatch, an Android app that follows games on itch.io.
The model covers the modellable heart of ItchWatch: the local game library and the pure helpers around it. It proves properties of that model.

- **Game repository** (`repository.dfy`, module `Repository`). The class `GameRepository` holds:
  - the in-memory lists `latestGames`, `tempGames` and `failedList`;
  - the game table and the `LocalInfo` table, as two maps standing in for the database.

  Each method is tied to a pure function over a `Tables` snapshot, and the lemmas about the model are proved about those functions. The methods are:
  - adding one game, or many games by url, game cell or `LocalInfo`;
  - the refresh and load branches of `getGameBasics`;
  - `deleteGame`, `updateLocalInfo` and `getGameFull`.

  The insert-replaces and update-only-existing rules of the DAO are the map updates those functions perform.

  The remote fetch is a function parameter `url -> Result<Game, FetchError>`. Each failure has a named kind:
  - the duplicate check's plain exception;
  - the `ImportException.ExistError` that the newer import screen tests for;
  - a fetch failure;
  - the missing `LocalInfo` behind `!!`;
  - a game without files.
- **Library view models.** The newer `ui/library` view model is `library_vm.dfy`; the older `ui/nav/library` one is `nav_library_vm.dfy`. Both model the intents Refresh, Sort, UpdateFilter, SyncRepository, Remove, Mark and Star; the newer one also models ClickItem. The item list, sort-type set, filter state and messages are class fields. Each intent method states the whole new state it leaves.
- **Sorting** (`sorting.dfy`). The comparator is built from the active sort keys, in the fixed priority:
  - starred first;
  - then games with an update;
  - then the effective time, latest first (`getEffectiveTime`: the update time, else the first devlog's date, else the publication time);
  - then case-sensitive name order on the names' UTF-16 code units, as Kotlin's `String.compareTo` orders them.

  Kotlin's stable `sortedWith` is an insertion sort. It is proved to return a permutation, sorted by the comparator, with ties kept in input order. The sort is idempotent and leaves an already sorted list unchanged.
- **Import view models** (`imports.dfy`, `import_vm.dfy`, `nav_import_vm.dfy`). Import urls are extracted by a hand-written recogniser for `(https://)?([^/]+)\.itch\.io/([A-Za-z0-9-]+)`, which finds the leftmost match and then resumes after it. Each match is cleaned and the results deduplicated. The imports are the per-outcome tallies: success/failed/existed in the newer screen, success only in the older one. Also modelled:
  - the size >= 5 progress guard;
  - the empty-text and no-url messages;
  - the local-info import;
  - the collection import.
- **Collections** (`collection.dfy`). The first page is returned alone when it is short. Otherwise pages 2, 3, … are requested in order until the first empty page, and any failure fails the whole fetch.
- **Explore and search** (`explore_vm.dfy`, `search_screen.dfy`, `search_model.dfy`, `search_urls.dfy`, `tag_store.dfy`):
  - the explore view-model state machine;
  - the tag-search panel's suggestions, selection and badge;
  - the string logic of the search page;
  - the tag and keyword search urls;
  - the tag store's insert-if-new rule.
- **Library screen** (`library_screen.dfy`):
  - the item filter predicate;
  - the tag pool;
  - the chip toggle;
  - the clipboard-import guard;
  - the timestamp label choice.
- **Domain helpers**:
  - `game.dfy`: `GameBasic.updated`, `toBasic`, the row-label dispatch, file platform and platform set of `toGameFull`, and `getVersionOrFileName`;
  - `tags.dfy`: `FilterTag`, `Tag` and `SearchTag`;
  - `platform.dfy`: the platform map;
  - `urls.dfy`: the url helpers;
  - `preferences.dfy`: the preference codec;
  - `devlog.dfy`: the devlog validator;
  - `text.dfy`: the string utilities they share.

Modelling conventions:
- **Timestamps** are `nat` seconds, with `LocalDateTime.MIN` as 0, the least element.
- **Case folding.** `ignoreCase` is an ASCII case fold.
- **Oracles as parameters.** Everything the code obtains from the network or the database is a function parameter or a class constant. That covers the game fetch, the search pages, the collection pages and the remote tag list.
- **Calls are sequential.** Every coroutine, `async` fan-out and flow collection becomes one call after another, in input order.
- **Worked examples.** Members whose row says "worked example" state a fact about one literal input. They illustrate the all-inputs laws beside them and add nothing to them.
- **Grouping.** Kotlin's `groupBy { … }.map { maxByOrNull … }` is a left fold (`Dedup`). The fold keeps one entry per key, in first-occurrence order.

Where the two versions of a screen differ, each is modelled from its own file. The library filter panel of `ui/nav/library/Library.kt` drives the newer library view model; how its tags are compared is under "## Left out".

## Model

| member | source | states |
|---|---|---|
| Platforms.Matching | core/src/main/java/com/thriic/core/network/model/SearchApiModel.kt:50-58 | the platforms collected from the platform html are at most one per map entry |
| Platforms.MatchingMembers | core/src/main/java/com/thriic/core/network/model/SearchApiModel.kt:50-58 | a platform is collected exactly when some map entry naming it has its key in the html, ignoring case |
| Platforms.MatchingHead | core/src/main/java/com/thriic/core/model/Platform.kt:9-17 | the first collected platform is that of the first entry, in map order, whose key occurs in the html |
| Platforms.FirstPlatformIn | core/src/main/java/com/thriic/core/model/Game.kt:184-186 | a platform is found exactly when some key of the map occurs in the text; it is the first such entry's platform in map order, and never UNKNOWN |
| Tags.TagNameShape | core/src/main/java/com/thriic/core/model/FilterTag.kt:7-10 | a Link or Author tag's name is its url; any other tag's name holds no '/' and is the part after the last '/', or the whole url when there is none |
| Tags.SameTagEquivalence | core/src/main/java/com/thriic/core/model/FilterTag.kt:12-15 | `equals` is reflexive, symmetric and transitive |
| Tags.SameTagIgnoresUrlPrefix | core/src/main/java/com/thriic/core/model/FilterTag.kt:12-15 | two tags whose urls differ before the last '/' are equal tags, though different values |
| Tags.UnitsHash | core/src/main/java/com/thriic/core/model/FilterTag.kt:17-21 | `h = 31 * h + unit` over code units, wrapping to a 32-bit pattern |
| Tags.StringHash | core/src/main/java/com/thriic/core/model/FilterTag.kt:17-21 | Java's `String.hashCode` over the string's UTF-16 code units is a 32-bit pattern |
| Tags.StringHashSurrogates | core/src/main/java/com/thriic/core/model/FilterTag.kt:17-21 | worked example: the hash of "\U{1F600}" is 1772899, the JVM's value from its two surrogates |
| Tags.Hash | core/src/main/java/com/thriic/core/model/FilterTag.kt:17-21 | the tag hash is a 32-bit pattern |
| Tags.HashRespectsSameTag | core/src/main/java/com/thriic/core/model/FilterTag.kt:12-21 | equal tags have equal hashes |
| Tags.LinkTextRoundTrip | core/src/main/java/com/thriic/core/model/FilterTag.kt:23-25 | the "[display](target)" text gives back display and target when the display has no ']' |
| Tags.FilterTagToStringReadsBack | core/src/main/java/com/thriic/core/model/FilterTag.kt:23-25 | `toString` prints the display name and the whole url, and can be read back |
| Tags.FilterTypes | core/src/main/java/com/thriic/core/model/FilterTag.kt:28-30 | the filter keeps exactly the tags whose type is listed, and no more tags than it was given |
| Tags.FilterTypesAppend | core/src/main/java/com/thriic/core/model/FilterTag.kt:28-30 | the filter distributes over concatenation, so kept tags stay in list order |
| Tags.OldTagName | core/src/main/java/com/thriic/core/model/Tag.kt:7-10 | `Tag.tagName` follows the same rule as `FilterTag.tagName` |
| Tags.TagToStringReadsBack | core/src/main/java/com/thriic/core/model/Tag.kt:12-14 | `Tag.toString` prints the display name and the url, and can be read back |
| Tags.FilterType | core/src/main/java/com/thriic/core/model/Tag.kt:17-19 | the filter keeps no more tags than it was given |
| Tags.FilterTypeMembers | core/src/main/java/com/thriic/core/model/Tag.kt:17-19 | the filter keeps exactly the tags of the given type |
| Tags.FilterTypeAppend | core/src/main/java/com/thriic/core/model/Tag.kt:17-19 | the filter distributes over concatenation, so kept tags stay in list order |
| Tags.SearchTagToStringReadsBack | core/src/main/java/com/thriic/core/model/SearchTag.kt:12-14 | `toString` gives back display name, classification and tag name |
| Tags.BlankKeywordMatchesAll | core/src/main/java/com/thriic/core/model/SearchTag.kt:16 | a blank keyword matches every tag |
| Tags.KeywordPaddingIgnored | core/src/main/java/com/thriic/core/model/SearchTag.kt:16 | whitespace around the keyword does not change the result |
| Tags.ContainsTagOnlyTagName | core/src/main/java/com/thriic/core/model/SearchTag.kt:16 | only the tag name is searched; display name and classification play no part |
| Text.TrimSplits | core/src/main/java/com/thriic/core/model/SearchTag.kt:16 | `trim` leaves what lies between a blank prefix and a blank suffix, and the result neither starts nor ends with whitespace |
| Text.TrimEmptyIffBlank | core/src/main/java/com/thriic/core/model/SearchTag.kt:16 | a string trims to nothing exactly when it is blank |
| Text.TrimIgnoresPadding | core/src/main/java/com/thriic/core/model/SearchTag.kt:16 | leading and trailing whitespace never changes what `trim` returns |
| Text.SubstringBefore | app/src/main/java/com/thriic/itchwatch/ui/utils/UrlUtils.kt:19 | `substringBefore` returns a prefix without the character, which is all of the string or stops at its first occurrence |
| Text.SubstringAfterLast | core/src/main/java/com/thriic/core/model/FilterTag.kt:8-10 | `substringAfterLast` returns a suffix without the character, which is all of the string or starts after its last occurrence |
| Text.LastSlashOfPath | core/src/main/java/com/thriic/core/model/FilterTag.kt:8-10 | in "p/n" with no '/' in n the part after the last '/' is n and the part before it is p |
| Text.Utf16Char | app/src/main/java/com/thriic/itchwatch/ui/library/LibraryViewModel.kt:279-281 | a character is one code unit within the basic multilingual plane and a high-then-low surrogate pair above U+FFFF |
| Text.Utf16CharInjective | app/src/main/java/com/thriic/itchwatch/ui/library/LibraryViewModel.kt:279-281 | distinct characters have distinct code units |
| Text.Utf16 | app/src/main/java/com/thriic/itchwatch/ui/library/LibraryViewModel.kt:279-281 | a string has between one and two code units per character |
| Text.Utf16Injective | app/src/main/java/com/thriic/itchwatch/ui/library/LibraryViewModel.kt:279-281 | distinct strings have distinct code-unit sequences |
| Text.CompareUnits | app/src/main/java/com/thriic/itchwatch/ui/library/LibraryViewModel.kt:279-281 | the comparison of code-unit sequences is a sign |
| Text.CompareUnitsZeroIff | app/src/main/java/com/thriic/itchwatch/ui/library/LibraryViewModel.kt:279-281 | two code-unit sequences compare equal exactly when they are equal |
| Text.CompareUnitsAntisymmetric | app/src/main/java/com/thriic/itchwatch/ui/library/LibraryViewModel.kt:279-281 | swapping the sequences negates the comparison |
| Text.CompareUnitsTransitive | app/src/main/java/com/thriic/itchwatch/ui/library/LibraryViewModel.kt:279-281 | the code-unit order is transitive |
| Text.Compare | app/src/main/java/com/thriic/itchwatch/ui/library/LibraryViewModel.kt:279-281 | `String.compareTo` on the names' UTF-16 code units, reduced to its sign |
| Text.CompareZeroIff | app/src/main/java/com/thriic/itchwatch/ui/library/LibraryViewModel.kt:279-281 | two names compare equal exactly when they are the same string |
| Text.CompareAntisymmetric | app/src/main/java/com/thriic/itchwatch/ui/library/LibraryViewModel.kt:279-281 | swapping the names negates the comparison |
| Text.CompareTransitive | app/src/main/java/com/thriic/itchwatch/ui/library/LibraryViewModel.kt:279-281 | the name order is transitive |
| Text.CompareSurrogateOrder | app/src/main/java/com/thriic/itchwatch/ui/library/LibraryViewModel.kt:279-281 | worked example: "\U{1F600}" sorts before "\U{FF61}", because its high surrogate 0xD83D is below 0xFF61 |
| UrlUtils.IsGamePageUrlSound | app/src/main/java/com/thriic/itchwatch/ui/utils/UrlUtils.kt:13-15 | an accepted url is "https://" + A + ".itch.io/" + B with A and B non-empty and free of '/' |
| UrlUtils.IsGamePageUrlComplete | app/src/main/java/com/thriic/itchwatch/ui/utils/UrlUtils.kt:13-15 | every url of that shape is accepted |
| UrlUtils.IsGamePageUrlIff | app/src/main/java/com/thriic/itchwatch/ui/utils/UrlUtils.kt:13-15 | the pattern accepts exactly the urls of that shape |
| UrlUtils.CleanUrlShape | app/src/main/java/com/thriic/itchwatch/ui/utils/UrlUtils.kt:17-20 | a cleaned url starts with "https://" and holds no '?' |
| UrlUtils.CleanUrlKeepsClean | app/src/main/java/com/thriic/itchwatch/ui/utils/UrlUtils.kt:17-20 | a url that starts with "https://" and holds no '?' is left unchanged |
| UrlUtils.CleanUrlIdempotent | app/src/main/java/com/thriic/itchwatch/ui/utils/UrlUtils.kt:17-20 | cleaning twice is cleaning once |
| UrlUtils.CleanUrlKeepsPath | app/src/main/java/com/thriic/itchwatch/ui/utils/UrlUtils.kt:17-20 | a url with the scheme keeps everything up to its first '?' |
| UrlUtils.GetHrefMembers | app/src/main/java/com/thriic/itchwatch/ui/utils/UrlUtils.kt:27-31 | the pairs are exactly (url, displayName) of the Link tags |
| UrlUtils.GetHrefCount | app/src/main/java/com/thriic/itchwatch/ui/utils/UrlUtils.kt:27-31 | there is one pair per Link tag |
| UrlUtils.CapitalizeFirstLetter | app/src/main/java/com/thriic/itchwatch/ui/utils/UrlUtils.kt:87-91 | the length and every character after the first are kept, and the first character is not lower case |
| UrlUtils.CapitalizeChangesOnlyLowerFirst | app/src/main/java/com/thriic/itchwatch/ui/utils/UrlUtils.kt:87-91 | the string changes exactly when its first character is lower case, and then into that letter in upper case; "" is unchanged |
| UrlUtils.CapitalizeIdempotent | app/src/main/java/com/thriic/itchwatch/ui/utils/UrlUtils.kt:87-91 | capitalising twice is capitalising once |
| UrlUtils.WithKey | app/src/main/java/com/thriic/itchwatch/ui/utils/UrlUtils.kt:52 | one group of `groupBy` is no longer than the list |
| UrlUtils.WithKeyMembers | app/src/main/java/com/thriic/itchwatch/ui/utils/UrlUtils.kt:52 | a group holds exactly the elements with its key |
| UrlUtils.PickIndex | app/src/main/java/com/thriic/itchwatch/ui/utils/UrlUtils.kt:53-54 | `maxByOrNull` on a 0/1 score picks the first element that scores 1, or the first element when none does |
| UrlUtils.PickAppend | app/src/main/java/com/thriic/itchwatch/ui/utils/UrlUtils.kt:53-54 | a later element displaces the pick only when it scores 1 and the pick scores 0 |
| UrlUtils.FirstIndexAppend | app/src/main/java/com/thriic/itchwatch/ui/utils/UrlUtils.kt:52 | appending an element leaves the first occurrence of a key already present where it was |
| UrlUtils.Dedup | app/src/main/java/com/thriic/itchwatch/ui/utils/UrlUtils.kt:52-54 | grouping and picking yields no more elements than the input |
| UrlUtils.DedupSound | app/src/main/java/com/thriic/itchwatch/ui/utils/UrlUtils.kt:52-54 | every picked element comes from the input, and no key is repeated |
| UrlUtils.DedupCovers | app/src/main/java/com/thriic/itchwatch/ui/utils/UrlUtils.kt:52-54 | every key of the input has an entry in the output |
| UrlUtils.DedupPicks | app/src/main/java/com/thriic/itchwatch/ui/utils/UrlUtils.kt:52-54 | each entry is the `maxByOrNull` pick of its key's group |
| UrlUtils.DedupOrder | app/src/main/java/com/thriic/itchwatch/ui/utils/UrlUtils.kt:52-54 | the entries follow the order in which the keys first occur in the input |
| UrlUtils.DedupDistinctFixed | app/src/main/java/com/thriic/itchwatch/ui/utils/UrlUtils.kt:52-54 | a list whose keys are already distinct is left as it is |
| UrlUtils.DedupIdempotent | app/src/main/java/com/thriic/itchwatch/ui/utils/UrlUtils.kt:52-54 | grouping twice is grouping once |
| UrlUtils.RemoveDuplicatesByUrl | app/src/main/java/com/thriic/itchwatch/ui/utils/UrlUtils.kt:93-99 | the result holds only links of the input, with distinct urls |
| UrlUtils.RemoveDuplicatesByUrlPicks | app/src/main/java/com/thriic/itchwatch/ui/utils/UrlUtils.kt:93-99 | every url of the input is kept, by its first link with a non-blank label, or its first link when all labels are blank |
| UrlUtils.RemoveDuplicatesByUrlIdempotent | app/src/main/java/com/thriic/itchwatch/ui/utils/UrlUtils.kt:93-99 | removing duplicates twice is removing them once |
| UrlUtils.DomainAt | app/src/main/java/com/thriic/itchwatch/ui/utils/UrlUtils.kt:56 | the alternatives x, twitter, ko-fi and patreon are tried in order at a position; a match is followed by ".com/" and a non-empty id free of '/', '?' and '#' |
| UrlUtils.MatchesOf | app/src/main/java/com/thriic/itchwatch/ui/utils/UrlUtils.kt:56 | the outcome of the pattern is computed at every start position |
| UrlUtils.FirstMatch | app/src/main/java/com/thriic/itchwatch/ui/utils/UrlUtils.kt:56 | the first position with a match is found, and none before it matches |
| UrlUtils.FindFromSpec | app/src/main/java/com/thriic/itchwatch/ui/utils/UrlUtils.kt:56 | `find` returns the match at the leftmost position where the pattern matches, and nothing when no position does |
| UrlUtils.FindSocialShape | app/src/main/java/com/thriic/itchwatch/ui/utils/UrlUtils.kt:56-59 | a match yields one of the four domains, and the url holds that domain, ".com/" and the id |
| UrlUtils.FindSocialLeftmost | app/src/main/java/com/thriic/itchwatch/ui/utils/UrlUtils.kt:56 | no position before the match found matches |
| UrlUtils.FindSocialExample | app/src/main/java/com/thriic/itchwatch/ui/utils/UrlUtils.kt:56-59 | worked example: "https://x.com/abc" matches with domain "x" and id "abc" |
| UrlUtils.LabelRule | app/src/main/java/com/thriic/itchwatch/ui/utils/UrlUtils.kt:60-65 | a url-like or blank display gets the fallback label; any other display is kept unchanged exactly when it names the domain, and is otherwise extended by the domain |
| UrlUtils.FirstKeyword | app/src/main/java/com/thriic/itchwatch/ui/utils/UrlUtils.kt:66-67 | `any`/`first` over `otherDomain` find the first keyword the url contains, ignoring case, or report that none is contained |
| UrlUtils.SocialHref | app/src/main/java/com/thriic/itchwatch/ui/utils/UrlUtils.kt:55-84 | a kept link keeps its url |
| UrlUtils.SocialHrefDropped | app/src/main/java/com/thriic/itchwatch/ui/utils/UrlUtils.kt:81-83 | a link is dropped exactly when it matches no pattern and contains no keyword of `otherDomain` |
| UrlUtils.SocialHrefFound | app/src/main/java/com/thriic/itchwatch/ui/utils/UrlUtils.kt:57-65 | a link matching a pattern is labelled for its shown domain (x and twitter as "twi") and its id |
| UrlUtils.SocialHrefExample | app/src/main/java/com/thriic/itchwatch/ui/utils/UrlUtils.kt:56-61 | worked example: "https://x.com/abc" with a blank display is labelled "Twi@abc" |
| UrlUtils.Labelled | app/src/main/java/com/thriic/itchwatch/ui/utils/UrlUtils.kt:55-84 | `mapNotNull` keeps no more links than pairs, each the label of one of the pairs |
| UrlUtils.LabelledKeeps | app/src/main/java/com/thriic/itchwatch/ui/utils/UrlUtils.kt:55-84 | every pair of a known kind appears in the result |
| UrlUtils.LabelledDistinct | app/src/main/java/com/thriic/itchwatch/ui/utils/UrlUtils.kt:55-84 | distinct input urls give distinct output urls |
| UrlUtils.PhraseSocialUrlLaws | app/src/main/java/com/thriic/itchwatch/ui/utils/UrlUtils.kt:48-85 | no url is repeated, every link is the label of an input pair, and every picked pair of a known kind is present |
| UrlUtils.SocialHrefOther | app/src/main/java/com/thriic/itchwatch/ui/utils/UrlUtils.kt:66-80 | a link matching no pattern but containing an `otherDomain` keyword is labelled for the first such keyword, by its shown name |
| UrlUtils.ShownDomainNames | app/src/main/java/com/thriic/itchwatch/ui/utils/UrlUtils.kt:58-73 | x and twitter are shown as "twi", t.me as "telegram", bsky as "Bluesky", every other domain as it is |
| Games.VersionOrFileName | core/src/main/java/com/thriic/core/model/File.kt:6-8 | there is a version exactly when the list has a file; an empty list is the failure of indexing it |
| Games.VersionOnlyFromFirstName | core/src/main/java/com/thriic/core/model/File.kt:7 | the result is the first file's name; its platform and size and every later file play no part |
| Games.ToBasic | core/src/main/java/com/thriic/core/model/Game.kt:53-66 | `toBasic` fails exactly on a game without files; otherwise url, name, image, both times, platforms and devlogs are copied, the version is the first file's name, the given LocalInfo is attached, and the kept tags are exactly the Platform, NormalTag and Language tags |
| Games.ToBasicKeepsTagOrder | core/src/main/java/com/thriic/core/model/Game.kt:63 | the kept tags stay in page order |
| Games.MarkingClearsUpdate | core/src/main/java/com/thriic/core/model/Game.kt:83-84 | recording the current version as played clears `updated` |
| Games.FreshGameHasNoUpdate | core/src/main/java/com/thriic/core/model/Game.kt:83-84 | a freshly imported game, with no played version, is never `updated` |
| Games.NewUploadShowsUpdate | core/src/main/java/com/thriic/core/model/Game.kt:83-84 | a played version that differs from the current one makes the game `updated` |
| Games.RowActionOf | core/src/main/java/com/thriic/core/model/Game.kt:98-173 | a row heading does nothing exactly when it is not one of the fourteen known labels; only "Updated" and "Published" set the times; Status, Category and Average session take the first anchor only |
| Games.LabelTypes | core/src/main/java/com/thriic/core/model/Game.kt:113-159 | "Author" and "Authors" both give Author tags, and "Tags", "Languages", "Platforms" and "Made with" give their own types |
| Games.TagsOf | core/src/main/java/com/thriic/core/model/Game.kt:114-116 | one tag per anchor, from its text and href, in anchor order |
| Games.ParseInfoRows | core/src/main/java/com/thriic/core/model/Game.kt:93-177 | the row loop computes the left-to-right application of the rows, stopping at the first failing row |
| Games.PrefixFailureSticks | core/src/main/java/com/thriic/core/model/Game.kt:94-177 | once a prefix of the rows fails, the whole parse fails with that error |
| Games.ParsedRowsHaveTwoCells | core/src/main/java/com/thriic/core/model/Game.kt:94-177 | a successful parse saw at least two cells in every row; a shorter row is a ParsingError |
| Games.UnknownLabelIgnored | core/src/main/java/com/thriic/core/model/Game.kt:173 | a row with an unknown heading changes nothing |
| Games.FilePlatformUnknownIff | core/src/main/java/com/thriic/core/model/Game.kt:184-186 | a file's platform is UNKNOWN exactly when no key of the platform map occurs in its html |
| Games.ParseFiles | core/src/main/java/com/thriic/core/model/Game.kt:179-188 | one file per download, in order, with its name, size and the platform found in its html |
| Games.TagPlatformsStep | core/src/main/java/com/thriic/core/model/Game.kt:192-196 | one more Platform tag adds the platform it names, if any |
| Games.FilePlatformsStep | core/src/main/java/com/thriic/core/model/Game.kt:198 | one more file adds its platform |
| Games.TagPlatformsKnown | core/src/main/java/com/thriic/core/model/Game.kt:191-196 | platform tags never contribute UNKNOWN |
| Games.CollectPlatforms | core/src/main/java/com/thriic/core/model/Game.kt:190-199 | the platforms come from the Platform tags when there are any, tags naming no known platform adding nothing; otherwise they are the files' platforms, and empty without files |
| Games.ToGameFull | core/src/main/java/com/thriic/core/model/Game.kt:89-234 | a row failure is the result; otherwise name, url, image and tags are the page's, the times are the parsed texts, each file is its download's name, platform and size, the platforms are the platform set of the tags and files, and each devlog entry keeps its text, link and date |
| DevLogs.Kept | core/src/main/java/com/thriic/core/network/model/DevLog.kt:23 | the kept items are exactly the items with a title, a link and a date |
| DevLogs.KeptAppend | core/src/main/java/com/thriic/core/network/model/DevLog.kt:21-23 | filtering distributes over concatenation, so kept items keep the feed's order |
| DevLogs.KeptAllComplete | core/src/main/java/com/thriic/core/network/model/DevLog.kt:23 | a feed of complete items is kept whole |
| DevLogs.KeptIdempotent | core/src/main/java/com/thriic/core/network/model/DevLog.kt:23 | filtering twice is filtering once |
| DevLogs.KeptNone | core/src/main/java/com/thriic/core/network/model/DevLog.kt:23 | a feed of incomplete items keeps nothing |
| DevLogs.Converted | core/src/main/java/com/thriic/core/network/model/DevLog.kt:24-30 | one entry per kept item, in order, with its title, link, converted date and description |
| DevLogs.ToDevLog | core/src/main/java/com/thriic/core/network/model/DevLog.kt:20-36 | the conversion succeeds exactly when some item survives and the channel has a link; otherwise it fails with ParsingError("dev log"); on success the url is the channel link and the entries are the converted kept items |
| DevLogs.ToDevLogItems | core/src/main/java/com/thriic/core/network/model/DevLog.kt:21-35 | on success the entries are non-empty, each comes from a complete item with its title, link and description, and each complete item gives an entry |
| DevLogs.EntriesFromComplete | core/src/main/java/com/thriic/core/network/model/DevLog.kt:21-30 | each entry comes from a complete item, with its title, link and description |
| DevLogs.CompleteGiveEntries | core/src/main/java/com/thriic/core/network/model/DevLog.kt:21-30 | each complete item gives an entry with its title and link |
| DevLogs.ToDevLogIgnoresIncomplete | core/src/main/java/com/thriic/core/network/model/DevLog.kt:23 | appending incomplete items to the feed changes nothing |
| SearchModel.PriceTextLaws | core/src/main/java/com/thriic/core/network/model/SearchApiModel.kt:68-74 | there is a price text exactly when there is a price; it is the price alone exactly without a sale tag, and otherwise the price followed by the sale tag in parentheses |
| SearchModel.MatchingAppend | core/src/main/java/com/thriic/core/network/model/SearchApiModel.kt:53-57 | the platform loop distributes over the map, so platforms are listed in map order |
| SearchModel.CellPlatforms | core/src/main/java/com/thriic/core/network/model/SearchApiModel.kt:50-58 | the loop lists the platform of every map entry whose key is in the block, in map order, and nothing without a block |
| SearchModel.CellPlatformsMembers | core/src/main/java/com/thriic/core/network/model/SearchApiModel.kt:53-57 | a platform is listed exactly when some key naming it occurs in the block, ignoring case |
| SearchModel.WebListedTwice | core/src/main/java/com/thriic/core/network/model/SearchApiModel.kt:53-57 | a block naming both "browser" and "HTML" lists WEB twice |
| SearchModel.ToSearchResult | core/src/main/java/com/thriic/core/network/model/SearchApiModel.kt:75-86 | a result takes the cell's url, name, author, verification, image, description and genre, its price text and its platforms |
| SearchModel.Results | core/src/main/java/com/thriic/core/network/model/SearchApiModel.kt:46 | one result per cell, in order |
| SearchModel.ToSearchApiModel | core/src/main/java/com/thriic/core/network/model/SearchApiModel.kt:39-89 | no grid with the empty message is an empty result with total 0; no grid and no message is the error "game grid not found"; a grid gives one result per cell; the total always counts the items |
| SearchModel.TagOf | core/src/main/java/com/thriic/core/network/model/SearchApiModel.kt:97-100 | a tag's display name is the option text and its name holds no '/' |
| SearchModel.TagOfPath | core/src/main/java/com/thriic/core/network/model/SearchApiModel.kt:98-99 | the option "/c/n" gives the tag n of classification c |
| SearchModel.AfterLeadingSlash | core/src/main/java/com/thriic/core/network/model/SearchApiModel.kt:98 | the text after the first '/' of "/c/n" is "c/n" |
| SearchModel.TagsSpecAppend | core/src/main/java/com/thriic/core/network/model/SearchApiModel.kt:94-102 | the tags follow the option order |
| SearchModel.TagsSpecMembers | core/src/main/java/com/thriic/core/network/model/SearchApiModel.kt:94-102 | a tag is listed exactly when some option with a non-blank value gives it |
| SearchModel.TagsSpecSound | core/src/main/java/com/thriic/core/network/model/SearchApiModel.kt:96 | each listed tag comes from an option with a non-blank value |
| SearchModel.TagsSpecComplete | core/src/main/java/com/thriic/core/network/model/SearchApiModel.kt:96-100 | each option with a non-blank value gives its tag |
| SearchModel.ParseSearchTags | core/src/main/java/com/thriic/core/network/model/SearchApiModel.kt:91-104 | a missing tag selector is the error "cannot fetch tags"; otherwise the loop yields the tags of the non-blank options in order |
| SearchUrls.KeywordSearchUrl | core/src/main/java/com/thriic/core/network/SearchRemoteDataSource.kt:37 | the keyword address is the fixed query prefix followed by the classification and the keyword, exactly as given, unescaped |
| SearchUrls.SortSuffix | core/src/main/java/com/thriic/core/network/SearchRemoteDataSource.kt:56-62 | only Popular adds no path |
| SearchUrls.SortSuffixInjective | core/src/main/java/com/thriic/core/network/SearchRemoteDataSource.kt:56-62 | different sorts add different paths |
| SearchUrls.TagNames | core/src/main/java/com/thriic/core/network/SearchRemoteDataSource.kt:63-65 | the tag names, in list order |
| SearchUrls.TagPathAppend | core/src/main/java/com/thriic/core/network/SearchRemoteDataSource.kt:63-65 | each tag is appended as "/" + tagName, in list order |
| SearchUrls.TagPathLast | core/src/main/java/com/thriic/core/network/SearchRemoteDataSource.kt:63-65 | the last tag's name is what follows the last '/' of the path, and the other tags' path precedes it |
| SearchUrls.TagPathInjective | core/src/main/java/com/thriic/core/network/SearchRemoteDataSource.kt:63-65 | names without '/' can be read back from the path, so different tag lists ask for different addresses |
| SearchUrls.TagSearchUrlParts | core/src/main/java/com/thriic/core/network/SearchRemoteDataSource.kt:55-65 | the address starts with "https://itch.io/" and the classification, then the sort's path, then the tag path |
| SearchUrls.TagOrderKept | core/src/main/java/com/thriic/core/network/SearchRemoteDataSource.kt:84-97 | the tags are not sorted: two differently named tags in the other order ask for a different address |
| SearchUrls.TagSearchUrl | core/src/main/java/com/thriic/core/network/SearchRemoteDataSource.kt:55-65 | the `url +=` loop builds root, classification, sort path and one "/" + tagName per tag |
| SearchUrls.TagSearchJsonUrl | core/src/main/java/com/thriic/core/network/SearchRemoteDataSource.kt:87-100 | the JSON address is the same path followed by "?page=P&format=json" |
| SearchUrls.TwoTagPath | core/src/main/java/com/thriic/core/network/SearchRemoteDataSource.kt:63-65 | two tags give "/" + first name + "/" + second name |
| SearchUrls.TagSearchJsonExample | core/src/main/java/com/thriic/core/network/SearchRemoteDataSource.kt:117 | worked example: page 2 of the games tagged "tag-endless" and "tag-pixel-art", by popularity, is "https://itch.io/games/tag-endless/tag-pixel-art?page=2&format=json" |
| TagStore.Upsert | core/src/main/java/com/thriic/core/local/TagLocalDataSource.kt:23 | inserting keeps every row under its own name |
| TagStore.UpsertRows | core/src/main/java/com/thriic/core/local/TagLocalDataSource.kt:23 | after an insert the table holds the old names and the given ones; a given name maps to the last tag given with it, an old name not given keeps its row |
| TagStore.UpsertIdempotent | core/src/main/java/com/thriic/core/local/TagLocalDataSource.kt:23 | inserting the same tags twice is inserting them once |
| TagStore.LastWith | core/src/main/java/com/thriic/core/local/TagLocalDataSource.kt:23 | the last position of a tag with a given name |
| TagStore.ListedStep | core/src/main/java/com/thriic/core/local/TagLocalDataSource.kt:10-12 | listing one more stored name keeps the listing a duplicate-free enumeration of the names taken so far |
| TagStore.SearchTagStore.constructor | core/src/main/java/com/thriic/core/local/TagLocalDataSource.kt:9 | the store starts empty |
| TagStore.SearchTagStore.Count | core/src/main/java/com/thriic/core/local/TagLocalDataSource.kt:34-36 | `count()` is the number of stored names |
| TagStore.SearchTagStore.Empty | core/src/main/java/com/thriic/core/local/TagLocalDataSource.kt:29-32 | `empty()` holds exactly when the count is 0, that is when nothing is stored |
| TagStore.SearchTagStore.GetSearchTag | core/src/main/java/com/thriic/core/local/TagLocalDataSource.kt:14-17 | a tag is found exactly when its name is stored, and it is the stored row |
| TagStore.SearchTagStore.GetAll | core/src/main/java/com/thriic/core/local/TagLocalDataSource.kt:10-12 | every stored tag is listed once |
| TagStore.SearchTagStore.UpdateSearchTagIfNew | core/src/main/java/com/thriic/core/local/TagLocalDataSource.kt:19-26 | the tags are inserted only when fewer rows are stored than tags given, and the store is unchanged otherwise; the answer is the number given minus the number stored before, which may be negative |
| TagStore.SearchTagRepository.constructor | core/src/main/java/com/thriic/core/repository/SearchRepository.kt:27-36 | the repository holds the store and the site's answer |
| TagStore.SearchTagRepository.FetchAllTags | core/src/main/java/com/thriic/core/repository/SearchRepository.kt:27-36 | an empty store is filled from the site and the site's tags are returned, a site failure being passed on with the store unchanged; a non-empty store is listed and left alone |
| TagStore.FilledStoreHoldsSiteTags | core/src/main/java/com/thriic/core/repository/SearchRepository.kt:29-32 | after filling an empty store every tag of the site can be looked up by its name, and nothing else is stored |
| Preferences.SortTypeOf | core/src/main/java/com/thriic/core/local/UserPreferences.kt:31 | `SortType.valueOf` only accepts a SortType's own name |
| Preferences.SortTypeNameRoundTrip | core/src/main/java/com/thriic/core/local/UserPreferences.kt:22-34 | reading a written SortType name gives the value back |
| Preferences.SearchSortTypeOf | core/src/main/java/com/thriic/core/local/UserPreferences.kt:48 | `SearchSortType.valueOf` only accepts a SearchSortType's own name |
| Preferences.SearchSortTypeNameRoundTrip | core/src/main/java/com/thriic/core/local/UserPreferences.kt:39-53 | reading a written SearchSortType name gives the value back |
| Preferences.TimeFormatOf | core/src/main/java/com/thriic/core/local/UserPreferences.kt:64 | `TimeFormat.valueOf` only accepts a TimeFormat's own name |
| Preferences.TimeFormatNameRoundTrip | core/src/main/java/com/thriic/core/local/UserPreferences.kt:55-69 | reading a written TimeFormat name gives the value back |
| Preferences.DecodeSortTypes | core/src/main/java/com/thriic/core/local/UserPreferences.kt:27-36 | a missing key reads as the empty set; otherwise a sort type is read exactly when its name is stored |
| Preferences.SortTypesRoundTrip | core/src/main/java/com/thriic/core/local/UserPreferences.kt:22-36 | a saved set of sort types reads back as the same set |
| Preferences.UnknownSortNamesDropped | core/src/main/java/com/thriic/core/local/UserPreferences.kt:29-34 | stored names that are not SortType names are dropped on read |
| Preferences.SearchSortTypeRoundTrip | core/src/main/java/com/thriic/core/local/UserPreferences.kt:39-53 | the search sort type round-trips; a missing or invalid value reads as Popular |
| Preferences.TimeFormatRoundTrip | core/src/main/java/com/thriic/core/local/UserPreferences.kt:55-69 | the time format round-trips; a missing or invalid value reads as DetailedRelative |
| Preferences.UserPreferences.constructor | core/src/main/java/com/thriic/core/local/UserPreferences.kt:19-20 | a store with no key written reads the empty sort set, Popular, DetailedRelative, false and 5 |
| Preferences.UserPreferences.SearchTypeFlow | core/src/main/java/com/thriic/core/local/UserPreferences.kt:76-79 | the search-type flag reads false when never saved, and the saved value otherwise |
| Preferences.UserPreferences.ThreadCountFlow | core/src/main/java/com/thriic/core/local/UserPreferences.kt:86-89 | the thread count reads 5 when never saved, and the saved value otherwise |
| Preferences.UserPreferences.SaveSortTypes | core/src/main/java/com/thriic/core/local/UserPreferences.kt:22-26 | only the sort-types key is written, by name, and the flow then reads the saved set |
| Preferences.UserPreferences.SaveSearchSortType | core/src/main/java/com/thriic/core/local/UserPreferences.kt:39-43 | only the search-sort key is written, and the flow then reads the saved value |
| Preferences.UserPreferences.SaveTimeFormat | core/src/main/java/com/thriic/core/local/UserPreferences.kt:55-59 | only the time-format key is written, and the flow then reads the saved value |
| Preferences.UserPreferences.SaveSearchType | core/src/main/java/com/thriic/core/local/UserPreferences.kt:71-75 | only the search-type key is written, and the flow then reads the saved value |
| Preferences.UserPreferences.SaveThreadCount | core/src/main/java/com/thriic/core/local/UserPreferences.kt:81-85 | only the thread-count key is written, and the flow then reads the saved value |
| Collections.Requests | core/src/main/java/com/thriic/core/repository/CollectionRepository.kt:45-56 | at least one page is requested, and at most one more than the known pages |
| Collections.PageNumbers | core/src/main/java/com/thriic/core/repository/CollectionRepository.kt:41-55 | the requested page numbers are 2, 3, 4, … in strictly increasing order |
| Collections.Leading | core/src/main/java/com/thriic/core/repository/CollectionRepository.kt:47-52 | the leading pages are non-empty successes, and the page after them is failed or empty |
| Collections.LastPagesByLeading | core/src/main/java/com/thriic/core/repository/CollectionRepository.kt:45-58 | the later pages fail exactly when the page ending the run failed, with its error; otherwise the cells are those of the pages before the first empty one, in page order, the empty page contributing nothing |
| Collections.FetchCollectionEffect | core/src/main/java/com/thriic/core/repository/CollectionRepository.kt:18-35 | a first-page failure carries its message; a first page of fewer than 20 cells is returned as is; a success keeps title, url and description and starts with the first page's cells; a later failure fails the whole fetch |
| Collections.LastPagesStep | core/src/main/java/com/thriic/core/repository/CollectionRepository.kt:51-55 | a non-empty page adds its cells in front of the rest of the run and one request |
| Collections.CollectionRepository.constructor | core/src/main/java/com/thriic/core/repository/CollectionRepository.kt:14-16 | the repository holds the page fetchers |
| Collections.CollectionRepository.PageAt | core/src/main/java/com/thriic/core/repository/CollectionRepository.kt:46 | page n (from 2) is the n-2nd known page, and empty beyond the known pages |
| Collections.CollectionRepository.FetchLastPages | core/src/main/java/com/thriic/core/repository/CollectionRepository.kt:39-61 | the `while (true)` loop yields the run's cells or its failure, and requests pages 2, 3, … up to the one that ends the run |
| Collections.CollectionRepository.FetchCollection | core/src/main/java/com/thriic/core/repository/CollectionRepository.kt:18-37 | `fetchCollection` is the specified result; later pages are requested only for a full first page |
| Repository.FindByUrl | core/src/main/java/com/thriic/core/repository/GameRepository.kt:142 | `find { it.url == url }` finds a game exactly when one in the list has that url, and the one it finds is listed under that url |
| Repository.IndexOfUrl | core/src/main/java/com/thriic/core/repository/GameRepository.kt:172-173 | the index found holds the url and no earlier entry does |
| Repository.LocalInfoOf | core/src/main/java/com/thriic/core/repository/GameRepository.kt:202-205 | `getLocalInfo` succeeds exactly when the url has a stored annotation |
| Repository.BasicOf | core/src/main/java/com/thriic/core/repository/GameRepository.kt:185-187 | a game's view exists exactly when its annotation is stored and it has files, and is `toBasic` with that annotation |
| Repository.AddExistingIsNoop | core/src/main/java/com/thriic/core/repository/GameRepository.kt:136-139 | a stored url gives "Game already exists" and changes nothing |
| Repository.AddFetchFailure | core/src/main/java/com/thriic/core/repository/GameRepository.kt:140-166 | a failed fetch appends the url to `failedList`, writes nothing else and emits the fetch error |
| Repository.AddPlainSuccess | core/src/main/java/com/thriic/core/repository/GameRepository.kt:141-162 | a plain add appends the game to `latestGames`, stores it and a fresh unstarred, unplayed annotation with the blurb, and returns its view; a cached game is used before fetching |
| Repository.AddWithLocalInfoReuses | core/src/main/java/com/thriic/core/repository/GameRepository.kt:149-150 | with `withLocalInfo` no annotation is written and a success carries the stored annotation |
| Repository.AddWithLocalInfoPartialWrite | core/src/main/java/com/thriic/core/repository/GameRepository.kt:145-165 | with `withLocalInfo` and no stored annotation the add fails after the game has been appended and stored, and the url lands in `failedList` |
| Repository.AddPreservesValid | core/src/main/java/com/thriic/core/repository/GameRepository.kt:130-168 | adding keeps every game and annotation row under its own url |
| Repository.StorePreservesValid | core/src/main/java/com/thriic/core/repository/GameRepository.kt:145-162 | storing an obtained game keeps every row under its own url |
| Repository.AddAll | core/src/main/java/com/thriic/core/repository/GameRepository.kt:81-122 | a bulk import gives one outcome per request |
| Repository.AddAllStep | core/src/main/java/com/thriic/core/repository/GameRepository.kt:83-97 | each further request is one more `addGameAndEmit` step on the state left by the earlier ones |
| Repository.AddAllOutcomes | core/src/main/java/com/thriic/core/repository/GameRepository.kt:88-97 | the i-th outcome of a bulk import is the outcome of adding the i-th url after the earlier ones |
| Repository.AddAllPreservesValid | core/src/main/java/com/thriic/core/repository/GameRepository.kt:81-122 | a bulk import keeps every row under its own url |
| Repository.PlainRequests | core/src/main/java/com/thriic/core/repository/GameRepository.kt:83-90 | one request per url, without blurb |
| Repository.CellRequests | core/src/main/java/com/thriic/core/repository/GameRepository.kt:105-112 | one request per collection cell, with its url and blurb |
| Repository.ReplaceByUrl | core/src/main/java/com/thriic/core/repository/GameRepository.kt:53-55 | the list keeps its length; entries with the url become the new game, all others stay |
| Repository.UrlsOf | core/src/main/java/com/thriic/core/repository/GameRepository.kt:42-43 | the urls of the listed games, in list order |
| Repository.RefreshAll | core/src/main/java/com/thriic/core/repository/GameRepository.kt:40-71 | a refresh gives one outcome per listed url |
| Repository.RefreshOneFrame | core/src/main/java/com/thriic/core/repository/GameRepository.kt:48-62 | refreshing one game keeps the list's length and every entry with another url, adds no game row, writes no annotation and leaves the cache alone |
| Repository.RefreshAllFrame | core/src/main/java/com/thriic/core/repository/GameRepository.kt:40-71 | a whole refresh keeps the list's length, the entries whose urls were not refreshed, the annotations and the set of stored urls |
| Repository.RefreshAllStep | core/src/main/java/com/thriic/core/repository/GameRepository.kt:41-64 | each further url is one more single-game refresh on the state left by the earlier ones |
| Repository.RefreshOnePreservesValid | core/src/main/java/com/thriic/core/repository/GameRepository.kt:48-62 | refreshing one game keeps every row under its own url |
| Repository.RefreshAllPreservesValid | core/src/main/java/com/thriic/core/repository/GameRepository.kt:40-71 | a refresh keeps every row under its own url |
| Repository.DeleteSpec | core/src/main/java/com/thriic/core/repository/GameRepository.kt:171-178 | `deleteGame` reports true exactly when some listed game has the url |
| Repository.DeleteEffect | core/src/main/java/com/thriic/core/repository/GameRepository.kt:171-178 | a delete that finds the url removes exactly that one game from the list (length minus one, multiset minus the game) and its row, keeping the annotations; otherwise nothing changes |
| Repository.RemoveAtCounts | core/src/main/java/com/thriic/core/repository/GameRepository.kt:175 | `remove` of one entry shortens the list by one and takes out only that entry |
| Repository.FindIsFirst | core/src/main/java/com/thriic/core/repository/GameRepository.kt:172-173 | `find` returns the entry at the first index with the url |
| Repository.PatchEffect | core/src/main/java/com/thriic/core/repository/GameRepository.kt:213-218 | the `?:` copy keeps the url, sets each field the patch carries and keeps the others; applying it twice is applying it once; an empty patch changes nothing |
| Repository.UpdateSpec | core/src/main/java/com/thriic/core/repository/GameRepository.kt:211-221 | an update succeeds exactly when the url has a stored annotation |
| Repository.UpdateEffect | core/src/main/java/com/thriic/core/repository/GameRepository.kt:211-221 | an update writes only that url's annotation, returns what it stored, is idempotent, and a missing annotation fails without writing |
| Repository.GameFullEffect | core/src/main/java/com/thriic/core/repository/GameRepository.kt:191-200 | `getGameFull` never writes the database; it changes at most the cache, by the one game it returns; without refresh a listed game is returned as is |
| Repository.BasicsOf | core/src/main/java/com/thriic/core/repository/GameRepository.kt:184-188 | `syncGameBasic` gives one view per listed game, in order; a failure is the error of the first game whose view fails, every earlier view having succeeded |
| Repository.ListedStep | core/src/main/java/com/thriic/core/repository/GameRepository.kt:73 | listing one more pending row keeps the listing a duplicate-free image of the rows no longer pending |
| Repository.ListTable | core/src/main/java/com/thriic/core/repository/GameRepository.kt:73 | `getLocalGames()` lists every stored game once, under its url |
| Repository.Enumerate | core/src/main/java/com/thriic/core/repository/GameRepository.kt:83-86 | the set of urls is walked once each, in some order |
| Repository.GameRepository.constructor | core/src/main/java/com/thriic/core/repository/GameRepository.kt:25-33 | the in-memory lists start empty over the given tables |
| Repository.GameRepository.AllLocalInfoUrls | core/src/main/java/com/thriic/core/repository/GameRepository.kt:207-209 | `getAllLocalInfo()` covers exactly the stored annotations' urls |
| Repository.GameRepository.AddGameAndEmit | core/src/main/java/com/thriic/core/repository/GameRepository.kt:130-168 | the new state is the add step's, and a failure is emitted with nothing returned, or the view returned with nothing emitted |
| Repository.GameRepository.ObtainGame | core/src/main/java/com/thriic/core/repository/GameRepository.kt:142-144 | the cached game with that url, else the fetched one |
| Repository.GameRepository.StoreAndEmit | core/src/main/java/com/thriic/core/repository/GameRepository.kt:145-167 | the store step's new state, with its failure emitted or its view returned |
| Repository.GameRepository.AddRequests | core/src/main/java/com/thriic/core/repository/GameRepository.kt:81-122 | the requests are handled in order with the bulk-import state and outcomes |
| Repository.GameRepository.AddGames | core/src/main/java/com/thriic/core/repository/GameRepository.kt:81-99 | `addGames(urls, withLocalInfo)` walks every url of the set once and is the bulk import of that order |
| Repository.GameRepository.AddGameCells | core/src/main/java/com/thriic/core/repository/GameRepository.kt:103-122 | `addGames(gameCells)` is the bulk import of the cells in list order, each with its blurb |
| Repository.GameRepository.AddRequest | core/src/main/java/com/thriic/core/repository/GameRepository.kt:88-97 | one request is one add step |
| Repository.GameRepository.AddGameByUrl | core/src/main/java/com/thriic/core/repository/GameRepository.kt:125-128 | `addGameByUrl` is one add step without blurb |
| Repository.GameRepository.Refresh | core/src/main/java/com/thriic/core/repository/GameRepository.kt:38-71 | `getGameBasics(true)` refreshes every url listed when it starts, in order |
| Repository.GameRepository.RefreshUrl | core/src/main/java/com/thriic/core/repository/GameRepository.kt:46-64 | one url: fetched again, replaced in the list and its row, its view built, or recorded as failed |
| Repository.GameRepository.Load | core/src/main/java/com/thriic/core/repository/GameRepository.kt:72-77 | `getGameBasics(false)` reloads `latestGames` as a listing of the game table, changes no table, and sends the views in order until the first failing lookup, which ends the flow with that failure |
| Repository.GameRepository.DeleteGame | core/src/main/java/com/thriic/core/repository/GameRepository.kt:171-178 | `deleteGame` is the specified delete |
| Repository.GameRepository.UpdateLocalInfo | core/src/main/java/com/thriic/core/repository/GameRepository.kt:211-221 | `updateLocalInfo` is the specified update |
| Repository.GameRepository.GetGameFull | core/src/main/java/com/thriic/core/repository/GameRepository.kt:191-200 | `getGameFull` is the specified lookup |
| LibraryCommon.Successes | app/src/main/java/com/thriic/itchwatch/ui/library/LibraryViewModel.kt:73-81 | `successIndex` never exceeds the number of outcomes |
| LibraryCommon.ReplaceItems | app/src/main/java/com/thriic/itchwatch/ui/library/LibraryViewModel.kt:82-83 | the list keeps its length; items with the result's url become the result, all others stay |
| LibraryCommon.RefreshItemsFrame | app/src/main/java/com/thriic/itchwatch/ui/library/LibraryViewModel.kt:76-84 | after any refresh outcomes the list keeps its length, and each item is either unchanged or a successful result with its own url |
| LibraryCommon.UntouchedItemsKept | app/src/main/java/com/thriic/itchwatch/ui/library/LibraryViewModel.kt:80-84 | an item whose url no successful result carries is left as it is |
| LibraryCommon.NoMessageBeforeSize | app/src/main/java/com/thriic/itchwatch/ui/library/LibraryViewModel.kt:88-91 | no summary is sent before `index` reaches `size` |
| LibraryCommon.RefreshSummaryOnce | app/src/main/java/com/thriic/itchwatch/ui/library/LibraryViewModel.kt:88-91 | with one outcome per listed item exactly one "refreshed successIndex/size" is sent, counting the successes |
| LibraryCommon.EmptyListSummaries | app/src/main/java/com/thriic/itchwatch/ui/library/LibraryViewModel.kt:88-91 | with an empty list every outcome sends a summary |
| LibraryCommon.RefreshPrefixStep | app/src/main/java/com/thriic/itchwatch/ui/library/LibraryViewModel.kt:76-91 | each further outcome bumps `successIndex` on success, replaces the matching items on success, and adds a summary once `index >= size` |
| LibraryCommon.ProgressTrace | app/src/main/java/com/thriic/itchwatch/ui/library/LibraryViewModel.kt:86 | progress `index / size` is published after every outcome, and never for fewer than five items |
| LibraryCommon.FirstByUrl | app/src/main/java/com/thriic/itchwatch/ui/library/LibraryViewModel.kt:216-233 | `firstOrNull` is null exactly when no item has the url, and otherwise the first item with it |
| LibraryCommon.WithLocalInfo | app/src/main/java/com/thriic/itchwatch/ui/library/LibraryViewModel.kt:224-240 | the list keeps its length |
| LibraryCommon.WithLocalInfoEffect | app/src/main/java/com/thriic/itchwatch/ui/library/LibraryViewModel.kt:224-240 | items with other urls are kept; every item with the url becomes the first such item with the new annotation |
| LibraryCommon.RemoveUrl | app/src/main/java/com/thriic/itchwatch/ui/library/LibraryViewModel.kt:206-208 | `removeIf` keeps exactly the items with other urls |
| LibraryCommon.RemoveAbsentKeeps | app/src/main/java/com/thriic/itchwatch/ui/library/LibraryViewModel.kt:206-208 | removing a url no item has keeps the list |
| LibraryCommon.RemoveUrlIdempotent | app/src/main/java/com/thriic/itchwatch/ui/library/LibraryViewModel.kt:206-208 | no item with the url is left, so removing again changes nothing |
| LibraryCommon.UpdateFilterSpec | app/src/main/java/com/thriic/itchwatch/ui/library/LibraryViewModel.kt:184-191 | `keyword` and `filterTags` are each overwritten only when given |
| LibraryCommon.UpdateFilterLaws | app/src/main/java/com/thriic/itchwatch/ui/library/LibraryViewModel.kt:184-191 | giving nothing keeps the filter; giving the same values twice is giving them once |
| LibraryCommon.MarkEffect | app/src/main/java/com/thriic/itchwatch/ui/library/LibraryViewModel.kt:219-223 | Mark records the time and the item's version as played, so the item shows no update, and keeps star and blurb |
| LibraryCommon.StarEffect | app/src/main/java/com/thriic/itchwatch/ui/library/LibraryViewModel.kt:235-238 | Star flips the item's `starred` and keeps the other fields; starring again restores the annotation |
| Library.LibraryViewModel.constructor | app/src/main/java/com/thriic/itchwatch/ui/library/LibraryViewModel.kt:25-50 | no item, sort keys {Name}, no progress, not loading, detailed relative time, empty filter, empty detail panel |
| Library.LibraryViewModel.Start | app/src/main/java/com/thriic/itchwatch/ui/library/LibraryViewModel.kt:302-316 | `init` reloads the repository's list from its table, appends the views of the listed games in order until the first failing lookup, reads the saved sort keys only after a complete load, and reads the time format in any case |
| Library.LibraryViewModel.Refresh | app/src/main/java/com/thriic/itchwatch/ui/library/LibraryViewModel.kt:70-95 | the repository refreshes every url listed at the start; the items take the successful results and are then sorted; the summary messages and the progress trace follow the counters; loading and progress are cleared |
| Library.LibraryViewModel.CollectRefresh | app/src/main/java/com/thriic/itchwatch/ui/library/LibraryViewModel.kt:76-92 | the `collect` loop leaves the items, messages and progress the refresh outcomes determine |
| Library.LibraryViewModel.OnRefreshOutcome | app/src/main/java/com/thriic/itchwatch/ui/library/LibraryViewModel.kt:77-91 | one outcome bumps `index`, bumps `successIndex` and replaces the matching items on success, publishes progress for five or more items, and sends the summary once `index >= size` |
| Library.LibraryViewModel.ClickItem | app/src/main/java/com/thriic/itchwatch/ui/library/LibraryViewModel.kt:107-115 | the detail panel shows `getGameFull(url)` and the stored annotation; a failing lookup stops the intent and leaves the panel |
| Library.LibraryViewModel.Sort | app/src/main/java/com/thriic/itchwatch/ui/library/LibraryViewModel.kt:158-182 | the key set follows the toggle rule, is saved to the preferences, and the items are sorted by it |
| Library.LibraryViewModel.UpdateFilter | app/src/main/java/com/thriic/itchwatch/ui/library/LibraryViewModel.kt:184-191 | the keyword and the selected tags are each replaced only when given |
| Library.LibraryViewModel.SyncRepository | app/src/main/java/com/thriic/itchwatch/ui/library/LibraryViewModel.kt:193-200 | the list is replaced by `syncGameBasic()` only when the repository holds more games than the list, and is sorted in any case |
| Library.LibraryViewModel.Remove | app/src/main/java/com/thriic/itchwatch/ui/library/LibraryViewModel.kt:202-214 | the items with the url are dropped and "removed" is sent only when `deleteGame` succeeds; otherwise "failed to remove" and the list is kept |
| Library.LibraryViewModel.ApplyInfo | app/src/main/java/com/thriic/itchwatch/ui/library/LibraryViewModel.kt:224-243 | the items with the url take the new annotation, the detail panel follows when it shows that url, and the list is sorted |
| Library.LibraryViewModel.Mark | app/src/main/java/com/thriic/itchwatch/ui/library/LibraryViewModel.kt:216-230 | an unknown url fails with "cannot find the specified game" and changes nothing; otherwise the played version and time are stored, the items and detail panel follow, the list is sorted and "marked" is sent |
| Library.LibraryViewModel.Star | app/src/main/java/com/thriic/itchwatch/ui/library/LibraryViewModel.kt:232-245 | an unknown url fails and changes nothing; otherwise `starred` is inverted in the store, the items and detail panel follow, the list is sorted and "starred"/"unstarred" is sent by the former flag |
| Sorting.EffectiveTimeCases | app/src/main/java/com/thriic/itchwatch/ui/library/LibraryViewModel.kt:251-257 | the effective time is the update time, else the first devlog's date, else the publication time, else the earliest time |
| Sorting.StepProperties | app/src/main/java/com/thriic/itchwatch/ui/library/LibraryViewModel.kt:262-281 | each key's step is antisymmetric and transitive, and its ties are transitive |
| Sorting.CompareFromAntisymmetric | app/src/main/java/com/thriic/itchwatch/ui/library/LibraryViewModel.kt:258-284 | the fall-through comparison from any key on is antisymmetric |
| Sorting.CompareFromTransitive | app/src/main/java/com/thriic/itchwatch/ui/library/LibraryViewModel.kt:258-284 | the fall-through comparison from any key on is transitive |
| Sorting.CompareAntisymmetric | app/src/main/java/com/thriic/itchwatch/ui/library/LibraryViewModel.kt:258-284 | the comparator is antisymmetric |
| Sorting.CompareTransitive | app/src/main/java/com/thriic/itchwatch/ui/library/LibraryViewModel.kt:258-284 | the comparator is transitive, so `sortedWith` is given a valid order |
| Sorting.CompareZeroIff | app/src/main/java/com/thriic/itchwatch/ui/library/LibraryViewModel.kt:258-284 | two items tie exactly when every active key ties on them |
| Sorting.FirstDifferingKeyDecides | app/src/main/java/com/thriic/itchwatch/ui/library/LibraryViewModel.kt:261-281 | keys apply in the order Starred (starred first), Updated (updated first), TimeReverse (later first), Name (ascending); the first active key that differs decides alone |
| Sorting.InsertPermutes | app/src/main/java/com/thriic/itchwatch/ui/library/LibraryViewModel.kt:258 | inserting one item adds exactly that item |
| Sorting.SortPermutes | app/src/main/java/com/thriic/itchwatch/ui/library/LibraryViewModel.kt:258 | the sort returns a permutation of the items |
| Sorting.InsertSorted | app/src/main/java/com/thriic/itchwatch/ui/library/LibraryViewModel.kt:258 | inserting into a sorted list keeps it sorted |
| Sorting.ConsSorted | app/src/main/java/com/thriic/itchwatch/ui/library/LibraryViewModel.kt:258 | a sorted list behind an item no greater than any of its elements stays sorted |
| Sorting.LowerBoundPermuted | app/src/main/java/com/thriic/itchwatch/ui/library/LibraryViewModel.kt:258 | a lower bound of a list and an item bounds every element of a permutation of both |
| Sorting.SortSorted | app/src/main/java/com/thriic/itchwatch/ui/library/LibraryViewModel.kt:258-284 | the sort returns the items in comparator order |
| Sorting.TieTransitive | app/src/main/java/com/thriic/itchwatch/ui/library/LibraryViewModel.kt:258-284 | items that tie with a third tie with each other |
| Sorting.InsertTies | app/src/main/java/com/thriic/itchwatch/ui/library/LibraryViewModel.kt:258 | an inserted item goes before every item it ties with |
| Sorting.SortStable | app/src/main/java/com/thriic/itchwatch/ui/library/LibraryViewModel.kt:258-284 | `sortedWith` is stable: items that no active key tells apart keep their order |
| Sorting.SortedIsFixed | app/src/main/java/com/thriic/itchwatch/ui/library/LibraryViewModel.kt:258-284 | a list already in comparator order is left as it is |
| Sorting.SortIdempotent | app/src/main/java/com/thriic/itchwatch/ui/library/LibraryViewModel.kt:258-284 | sorting twice by the same keys is sorting once |
| Sorting.NoKeysKeepOrder | app/src/main/java/com/thriic/itchwatch/ui/library/LibraryViewModel.kt:258-284 | with no active key the order is left as it is |
| Sorting.StarredFirst | app/src/main/java/com/thriic/itchwatch/ui/library/LibraryViewModel.kt:262-264 | with Starred active every starred item precedes every unstarred one |
| Sorting.TimeReverseDescending | app/src/main/java/com/thriic/itchwatch/ui/library/LibraryViewModel.kt:272-276 | with TimeReverse alone effective times do not increase along the list |
| Sorting.NameAscending | app/src/main/java/com/thriic/itchwatch/ui/library/LibraryViewModel.kt:279-281 | with Name alone names ascend in `String.compareTo` order, on UTF-16 code units |
| Sorting.ToggleSort | app/src/main/java/com/thriic/itchwatch/ui/library/LibraryViewModel.kt:158-178 | TimeReverse replaces Name and Name replaces TimeReverse; any other key is switched off when active and on otherwise, and nothing else changes |
| Sorting.ToggleTwice | app/src/main/java/com/thriic/itchwatch/ui/library/LibraryViewModel.kt:171-177 | switching any other key twice restores the set |
| Sorting.ToggleExclusiveIdempotent | app/src/main/java/com/thriic/itchwatch/ui/library/LibraryViewModel.kt:161-169 | asking for Name or TimeReverse again changes nothing |
| Sorting.NameAndTimeReverseExclusive | app/src/main/java/com/thriic/itchwatch/ui/library/LibraryViewModel.kt:161-169 | Name and TimeReverse are never both active once either has been asked for, and stay exclusive |
| NavLibrary.LibraryViewModel.constructor | app/src/main/java/com/thriic/itchwatch/ui/nav/library/LibraryViewModel.kt:25-41 | no item, sort keys {Name}, no progress, not loading, empty filter |
| NavLibrary.LibraryViewModel.Start | app/src/main/java/com/thriic/itchwatch/ui/nav/library/LibraryViewModel.kt:263-270 | `init` reloads the repository's list from its table and appends the views of the listed games in order until the first failing lookup; nothing else changes |
| NavLibrary.LibraryViewModel.Refresh | app/src/main/java/com/thriic/itchwatch/ui/nav/library/LibraryViewModel.kt:57-81 | `getGameBasics(true)` refreshes every url listed at the start; the items take the successful results and are then sorted; the summary messages and the progress trace follow the counters; loading and progress are cleared |
| NavLibrary.LibraryViewModel.CollectRefresh | app/src/main/java/com/thriic/itchwatch/ui/nav/library/LibraryViewModel.kt:63-78 | the `collect` loop leaves the items, messages and progress the refresh outcomes determine |
| NavLibrary.LibraryViewModel.OnRefreshOutcome | app/src/main/java/com/thriic/itchwatch/ui/nav/library/LibraryViewModel.kt:64-77 | one outcome bumps `index`, bumps `successIndex` and replaces the matching items on success, publishes progress for five or more items, and sends the summary once `index >= size` |
| NavLibrary.LibraryViewModel.Sort | app/src/main/java/com/thriic/itchwatch/ui/nav/library/LibraryViewModel.kt:139-158 | the key set follows the toggle rule and the items are sorted by it; nothing is saved |
| NavLibrary.LibraryViewModel.UpdateFilter | app/src/main/java/com/thriic/itchwatch/ui/nav/library/LibraryViewModel.kt:161-168 | the keyword and the selected tags are each replaced only when given |
| NavLibrary.LibraryViewModel.SyncRepository | app/src/main/java/com/thriic/itchwatch/ui/nav/library/LibraryViewModel.kt:170-176 | only when the repository holds more games than the list is the list replaced by `syncGameBasic()` and sorted; otherwise it is left as it is |
| NavLibrary.LibraryViewModel.Remove | app/src/main/java/com/thriic/itchwatch/ui/nav/library/LibraryViewModel.kt:178-188 | the items with the url are dropped and "removed" is sent only when `deleteGame` succeeds; otherwise "failed to remove" and the list is kept |
| NavLibrary.LibraryViewModel.Mark | app/src/main/java/com/thriic/itchwatch/ui/nav/library/LibraryViewModel.kt:190-197 | an unknown url fails and changes nothing; otherwise the played version and time are stored and the items with the url take them, without re-sorting, and "marked" is sent |
| NavLibrary.LibraryViewModel.Star | app/src/main/java/com/thriic/itchwatch/ui/nav/library/LibraryViewModel.kt:199-206 | an unknown url fails and changes nothing; otherwise `starred` is inverted in the store and the items with the url take it, without re-sorting, and "starred"/"unstarred" is sent |
| Imports.SlugRun | app/src/main/java/com/thriic/itchwatch/ui/imports/ImportViewModel.kt:78 | the greedy `[A-Za-z0-9-]+` from a position: every character of the run is a slug character and the next one is not |
| Imports.MatchEnd | app/src/main/java/com/thriic/itchwatch/ui/imports/ImportViewModel.kt:77-78 | a match starting at a position ends after it and within the text |
| Imports.HostEnd | app/src/main/java/com/thriic/itchwatch/ui/imports/ImportViewModel.kt:78 | the rest of a match after the optional scheme ends after its start and within the text |
| Imports.MatchEndParts | app/src/main/java/com/thriic/itchwatch/ui/imports/ImportViewModel.kt:78 | a match holds ".itch.io/" after at least one host character and ends in a slug character |
| Imports.HostEndParts | app/src/main/java/com/thriic/itchwatch/ui/imports/ImportViewModel.kt:78 | the host part holds ".itch.io/" and the slug ends the match |
| Imports.ItchSlash | app/src/main/java/com/thriic/itchwatch/ui/imports/ImportViewModel.kt:78 | ".itch.io" followed by '/' is ".itch.io/" |
| Imports.MatchEndShape | app/src/main/java/com/thriic/itchwatch/ui/imports/ImportViewModel.kt:77-78 | a match from a position has the pattern's shape |
| Imports.PiecesShape | app/src/main/java/com/thriic/itchwatch/ui/imports/ImportViewModel.kt:78 | a piece with ".itch.io/" inside and a slug character at its end has the pattern's shape |
| Imports.MatchesShape | app/src/main/java/com/thriic/itchwatch/ui/imports/ImportViewModel.kt:77-79 | every match `findAll` returns has the pattern's shape |
| Imports.UrlsInShape | app/src/main/java/com/thriic/itchwatch/ui/imports/ImportViewModel.kt:76-81 | every url collected for import starts with "https://" and has no query |
| Imports.GamePageTextFound | app/src/main/java/com/thriic/itchwatch/ui/imports/ImportViewModel.kt:76-81 | a pasted game page url is found whole and imported cleaned, unchanged when it has no query |
| Imports.GamePageNoQuery | app/src/main/java/com/thriic/itchwatch/ui/imports/ImportViewModel.kt:78-80 | a game page url without query starts with "https://" and has no '?' |
| Imports.GamePageMatchEnd | app/src/main/java/com/thriic/itchwatch/ui/imports/ImportViewModel.kt:78 | on a game page url the match from its first character runs to its end |
| Imports.GamePageSlash | app/src/main/java/com/thriic/itchwatch/ui/imports/ImportViewModel.kt:78 | on a game page url the first '/' after the scheme is the one of ".itch.io/", and the slug follows it |
| Imports.SlugRunToEnd | app/src/main/java/com/thriic/itchwatch/ui/imports/ImportViewModel.kt:78 | the slug run reaches the end when every later character is a slug character |
| Imports.ExtractUrls | app/src/main/java/com/thriic/itchwatch/ui/imports/ImportViewModel.kt:76-81 | the loop adds the cleaned form of every match to the set, and nothing else |
| Imports.ImportUi | app/src/main/java/com/thriic/itchwatch/ui/imports/ImportViewModel.kt:99-108 | the screen before any result is the starting one; once `size` results have come the progress is cleared; in between, for five or more urls, it shows `index / size` |
| Imports.ImportUiStep | app/src/main/java/com/thriic/itchwatch/ui/imports/ImportViewModel.kt:99-108 | each further result is one more progress step |
| Imports.Fetching | app/src/main/java/com/thriic/itchwatch/ui/imports/ImportViewModel.kt:102 | the progress text of a url import is "fetching..." after every result |
| Imports.CellTexts | app/src/main/java/com/thriic/itchwatch/ui/imports/ImportViewModel.kt:178 | the progress text of a collection import names the cell just added |
| Imports.Fails | app/src/main/java/com/thriic/itchwatch/ui/imports/ImportViewModel.kt:90-98 | `failIndex` never exceeds the number of results |
| Imports.TallyParts | app/src/main/java/com/thriic/itchwatch/ui/imports/ImportViewModel.kt:97-98 | successes and counted failures never exceed the results, and make up all of them when none is an `ExistError` |
| Imports.AddOneNoExistError | core/src/main/java/com/thriic/core/repository/GameRepository.kt:136-138 | the repository's duplicate check fails with a plain exception, never `ExistError` |
| Imports.AddAllNoExistError | core/src/main/java/com/thriic/core/repository/GameRepository.kt:130-168 | no result of a bulk import is an `ExistError` |
| Imports.ExistedAlwaysZero | app/src/main/java/com/thriic/itchwatch/ui/imports/ImportViewModel.kt:107 | the "existed" figure of the summary is always 0: duplicates are counted among the failures |
| Imports.NoSummaryBeforeSize | app/src/main/java/com/thriic/itchwatch/ui/imports/ImportViewModel.kt:105-108 | no summary is sent before `index` reaches `size` |
| Imports.SummaryOnce | app/src/main/java/com/thriic/itchwatch/ui/imports/ImportViewModel.kt:105-108 | with one result per url exactly one summary is sent, at the end, with the final counts |
| Imports.TallyStep | app/src/main/java/com/thriic/itchwatch/ui/imports/ImportViewModel.kt:94-108 | each further result bumps `successIndex` or `failIndex` as its kind says and adds the summary once `index >= size` |
| Imports.AddedStep | app/src/main/java/com/thriic/itchwatch/ui/nav/imports/ImportViewModel.kt:91-101 | each further result bumps `successIndex` on success and adds "added s/n" once `index >= size` |
| Import.ImportViewModel.constructor | app/src/main/java/com/thriic/itchwatch/ui/imports/ImportViewModel.kt:23-37 | no progress, not loading, no progress text, no message, no navigation |
| Import.ImportViewModel.AddGame | app/src/main/java/com/thriic/itchwatch/ui/imports/ImportViewModel.kt:61-71 | `addGameByUrl` is one add step; its one result sends "added successfully" or the failure's message, and the progress is cleared |
| Import.ImportViewModel.AddGames | app/src/main/java/com/thriic/itchwatch/ui/imports/ImportViewModel.kt:73-115 | blank text sends "empty text" and text without game url sends "no valid url", both without touching the repository; otherwise every distinct cleaned url is added once, "try n" and one final summary are sent, and the progress is cleared |
| Import.ImportViewModel.AddGamesFromLocal | app/src/main/java/com/thriic/itchwatch/ui/imports/ImportViewModel.kt:117-149 | an empty annotation table sends "no valid url"; otherwise every annotated url is added again keeping its annotation, with "try n" and one final summary |
| Import.ImportViewModel.ImportUrls | app/src/main/java/com/thriic/itchwatch/ui/imports/ImportViewModel.kt:87-109 | the urls are added once each, in some order; successes and failures account for every url; "try n" and the summary are sent and the progress cleared |
| Import.ImportViewModel.Finish | app/src/main/java/com/thriic/itchwatch/ui/imports/ImportViewModel.kt:151-153 | the navigator goes back and nothing else changes |
| Import.ImportViewModel.FetchCollection | app/src/main/java/com/thriic/itchwatch/ui/imports/ImportViewModel.kt:155-190 | a collection that cannot be fetched clears the progress and adds nothing; otherwise its cells are added in order with their blurbs and one summary is sent at the end; an empty collection sends nothing and stays loading |
| Import.ImportViewModel.CollectAdds | app/src/main/java/com/thriic/itchwatch/ui/imports/ImportViewModel.kt:93-109 | the `collect` loop leaves the summary messages and the screen state the results determine |
| Import.ImportViewModel.OnOutcome | app/src/main/java/com/thriic/itchwatch/ui/imports/ImportViewModel.kt:94-108 | one result bumps `index`, `successIndex` on success and `failIndex` on a failure other than `ExistError`, takes one progress step, and sends the summary once `index >= size` |
| NavImport.ImportViewModel.constructor | app/src/main/java/com/thriic/itchwatch/ui/nav/imports/ImportViewModel.kt:23-35 | no progress, not loading, no progress text, no message, no navigation |
| NavImport.ImportViewModel.AddGame | app/src/main/java/com/thriic/itchwatch/ui/nav/imports/ImportViewModel.kt:59-70 | one add step; a success sends "added successfully" and opens the game's detail screen, a failure sends its message, and the progress is cleared |
| NavImport.ImportViewModel.AddGames | app/src/main/java/com/thriic/itchwatch/ui/nav/imports/ImportViewModel.kt:72-108 | blank text sends "empty text" and text without game url sends "no valid url" without touching the repository; otherwise every distinct cleaned url is added once, with "try n" and one final "added s/n" |
| NavImport.ImportViewModel.ImportUrls | app/src/main/java/com/thriic/itchwatch/ui/nav/imports/ImportViewModel.kt:86-102 | the urls are added once each, in some order, with "try n" and one final "added s/n"; the progress is cleared |
| NavImport.ImportViewModel.Finish | app/src/main/java/com/thriic/itchwatch/ui/nav/imports/ImportViewModel.kt:110-112 | the navigator goes back and nothing else changes |
| NavImport.ImportViewModel.FetchCollection | app/src/main/java/com/thriic/itchwatch/ui/nav/imports/ImportViewModel.kt:114-138 | as in the newer view model, with "added s/n" as the summary |
| NavImport.ImportViewModel.CollectAdds | app/src/main/java/com/thriic/itchwatch/ui/nav/imports/ImportViewModel.kt:91-102 | the `collect` loop leaves the "added s/n" message and the screen state the results determine |
| Explore.SearchAt | core/src/main/java/com/thriic/core/repository/SearchRepository.kt:17-22 | a search fails with the request's failure, or gives the model of the page returned |
| Explore.ShowInfo | app/src/main/java/com/thriic/itchwatch/ui/nav/explore/ExploreViewModel.kt:101-109 | the detail panel takes the new annotation only when it shows that game, and otherwise stays as it is |
| Explore.Toast | app/src/main/java/com/thriic/itchwatch/ui/nav/explore/ExploreViewModel.kt:112 | a failure's message is sent only when it has one |
| Explore.FlipTwiceRestores | app/src/main/java/com/thriic/itchwatch/ui/nav/explore/ExploreViewModel.kt:98-102 | Star inverts the stored flag, its message names the new state, and starring again restores the annotation and the tables |
| Explore.ImportedThenStarred | app/src/main/java/com/thriic/itchwatch/ui/nav/explore/ExploreViewModel.kt:104-110 | a game imported by Star gets a fresh annotation, so the flip stars it and "starred" is sent |
| Explore.ExploreViewModel.constructor | app/src/main/java/com/thriic/itchwatch/ui/nav/explore/ExploreViewModel.kt:25-33 | sorted by popularity, nothing loading, no result, no tag, empty detail panel, no message |
| Explore.ExploreViewModel.Start | app/src/main/java/com/thriic/itchwatch/ui/nav/explore/ExploreViewModel.kt:44-51 | `init` replaces the sort type with the saved search sort type |
| Explore.ExploreViewModel.ClickItem | app/src/main/java/com/thriic/itchwatch/ui/nav/explore/ExploreViewModel.kt:57-64 | the game is looked up (listed, cached or fetched) and shown with its annotation, or with none when it is not in the library; the detail flag is lowered first and raised once the panel is filled; a failing lookup stops with the flag lowered and the panel kept |
| Explore.ExploreViewModel.SearchByKeyword | app/src/main/java/com/thriic/itchwatch/ui/nav/explore/ExploreViewModel.kt:65-71 | the keyword search of the "game" classification; a result replaces the shown one, a failure sends its message; loading ends either way |
| Explore.ExploreViewModel.SearchByTag | app/src/main/java/com/thriic/itchwatch/ui/nav/explore/ExploreViewModel.kt:72-88 | ignored while a search loads; a supplied sort type that differs replaces the current one and is saved; the tag search then runs with the state's sort type, its result or failure handled as for keywords |
| Explore.ExploreViewModel.AllTags | app/src/main/java/com/thriic/itchwatch/ui/nav/explore/ExploreViewModel.kt:90-94 | only while the tag list is empty is it filled by `fetchAllTags`: the remote tags, stored, when the store is empty, else the stored tags; a remote failure leaves it empty |
| Explore.ExploreViewModel.Star | app/src/main/java/com/thriic/itchwatch/ui/nav/explore/ExploreViewModel.kt:96-118 | a library game has its flag inverted and the panel follows; a game not in the library is imported first and its fresh annotation starred, or the import's message is sent; a game without annotation gives "err:null" |
| Explore.ExploreViewModel.AddLocal | app/src/main/java/com/thriic/itchwatch/ui/nav/explore/ExploreViewModel.kt:120-136 | a game already in the library is not imported again and "has already in lib" is sent; otherwise it is imported and its outcome announced |
| LibraryScreen.Visible | app/src/main/java/com/thriic/itchwatch/ui/nav/library/Library.kt:367 | the filter never lists more items than there are |
| LibraryScreen.VisibleMembers | app/src/main/java/com/thriic/itchwatch/ui/nav/library/Library.kt:367 | an item is listed exactly when its tags contain every selected tag and its name contains the keyword, ignoring case |
| LibraryScreen.VisibleIsSubsequence | app/src/main/java/com/thriic/itchwatch/ui/nav/library/Library.kt:367 | the listed items are an order-preserving sublist of the items |
| LibraryScreen.ContainsEmpty | app/src/main/java/com/thriic/itchwatch/ui/nav/library/Library.kt:367 | every name contains the empty keyword |
| LibraryScreen.EmptyFilterShowsAll | app/src/main/java/com/thriic/itchwatch/ui/nav/library/Library.kt:367 | an empty keyword with no selected tag lists every item, in order |
| LibraryScreen.MoreTagsShowFewer | app/src/main/java/com/thriic/itchwatch/ui/nav/library/Library.kt:367 | selecting more tags lists a sublist of what fewer tags list |
| LibraryScreen.AllTagsOf | app/src/main/java/com/thriic/itchwatch/ui/nav/library/Library.kt:310-311 | `flatMap { it.filterTags }` holds exactly the tags of some item |
| LibraryScreen.DedupSameMembers | app/src/main/java/com/thriic/itchwatch/ui/nav/library/Library.kt:312 | `toSet()` keeps only listed tags |
| LibraryScreen.DedupSameCovers | app/src/main/java/com/thriic/itchwatch/ui/nav/library/Library.kt:312 | `toSet()` keeps an equal tag for every listed one |
| LibraryScreen.DedupSameDistinct | app/src/main/java/com/thriic/itchwatch/ui/nav/library/Library.kt:312 | `toSet()` holds no two equal tags |
| LibraryScreen.TagPoolIsUnion | app/src/main/java/com/thriic/itchwatch/ui/nav/library/Library.kt:310-312 | the selectable pool is the union of the items' tags: each pool tag belongs to an item, each item tag has an equal one in the pool, and no two pool tags are equal |
| LibraryScreen.Sections | app/src/main/java/com/thriic/itchwatch/ui/nav/library/Library.kt:119-138 | the Platform, Language and Tag sections hold exactly the pool's tags of that type, and a tag of another type is in none |
| LibraryScreen.SelectEffect | app/src/main/java/com/thriic/itchwatch/ui/nav/library/Library.kt:314-315 | selecting makes the tag selected, keeps every other tag's state, and keeps the set free of equal tags |
| LibraryScreen.SelectKeepsOthers | app/src/main/java/com/thriic/itchwatch/ui/nav/library/Library.kt:315 | selecting one tag leaves every other tag's state |
| LibraryScreen.SelectKeepsDistinct | app/src/main/java/com/thriic/itchwatch/ui/nav/library/Library.kt:315 | selecting keeps the set free of equal tags |
| LibraryScreen.DeselectEffect | app/src/main/java/com/thriic/itchwatch/ui/nav/library/Library.kt:316-317 | deselecting makes the tag unselected, keeps every other tag's state, and keeps the set free of equal tags |
| LibraryScreen.FilterPanel.constructor | app/src/main/java/com/thriic/itchwatch/ui/nav/library/Library.kt:285 | the panel's selection starts as the filter's tags |
| LibraryScreen.FilterPanel.ChangeSelected | app/src/main/java/com/thriic/itchwatch/ui/nav/library/Library.kt:313-319 | the callback adds the tag when selected and removes it otherwise |
| LibraryScreen.FilterPanel.ClickChip | app/src/main/java/com/thriic/itchwatch/ui/nav/library/Library.kt:313-319 | a chip click flips that tag's state and keeps every other tag's |
| LibraryScreen.FilterPanel.Apply | app/src/main/java/com/thriic/itchwatch/ui/nav/library/Library.kt:286-293 | applying the search makes the query and the selection the view model's filter and changes nothing else |
| LibraryScreen.ClipboardImportRule | app/src/main/java/com/thriic/itchwatch/ui/nav/library/Library.kt:415-423 | a game is added exactly when the clipboard has text whose cleaned form is a game page, and that cleaned form is added; otherwise "Clipboard is empty" or "Invalid URL" |
| LibraryScreen.TimeLabelRule | app/src/main/java/com/thriic/itchwatch/ui/nav/library/Library.kt:546-554 | the label prefers the update time, then the first devlog, then the publication time, and is drawn exactly when one of them exists |
| SearchScreen.Matching | app/src/main/java/com/thriic/itchwatch/ui/nav/explore/Search.kt:284-285 | exactly the tags that contain the query are kept |
| SearchScreen.Unselected | app/src/main/java/com/thriic/itchwatch/ui/nav/explore/Search.kt:310 | exactly the tags not already selected are kept |
| SearchScreen.SuggestionsIff | app/src/main/java/com/thriic/itchwatch/ui/nav/explore/Search.kt:283-310 | a tag is suggested exactly when it is known, not selected, and contains the query; a blank query lets every tag through |
| SearchScreen.BlankQuerySuggestsAll | app/src/main/java/com/thriic/itchwatch/ui/nav/explore/Search.kt:286-287 | with a blank query and nothing selected every tag is suggested, in list order |
| SearchScreen.MatchingAppend | app/src/main/java/com/thriic/itchwatch/ui/nav/explore/Search.kt:284-285 | the suggestion filter keeps the tag list's order |
| SearchScreen.FirstFrom | app/src/main/java/com/thriic/itchwatch/ui/nav/explore/Search.kt:262 | the first position of the tag from a start, or the end when there is none |
| SearchScreen.RemoveFirstEffect | app/src/main/java/com/thriic/itchwatch/ui/nav/explore/Search.kt:262 | `selectedTags - tag` takes out exactly one occurrence of a selected tag and leaves a list without it alone |
| SearchScreen.RemoveFirstDistinct | app/src/main/java/com/thriic/itchwatch/ui/nav/explore/Search.kt:262 | on a list without repeats the removed tag is gone entirely and the list stays without repeats |
| SearchScreen.AppendAbsentRemoved | app/src/main/java/com/thriic/itchwatch/ui/nav/explore/Search.kt:262-315 | removing a tag just appended to a list without it gives the list back |
| SearchScreen.PickSuggestion | app/src/main/java/com/thriic/itchwatch/ui/nav/explore/Search.kt:310-316 | picking a suggestion never repeats a tag, the picked tag is no longer suggested for any query, and tapping its chip gives back the former selection |
| SearchScreen.TagSearchPanel.constructor | app/src/main/java/com/thriic/itchwatch/ui/nav/explore/Search.kt:126-128 | nothing selected and nothing typed |
| SearchScreen.TagSearchPanel.Pick | app/src/main/java/com/thriic/itchwatch/ui/nav/explore/Search.kt:314-317 | the tag is appended to the selection and the query cleared |
| SearchScreen.TagSearchPanel.RemoveChip | app/src/main/java/com/thriic/itchwatch/ui/nav/explore/Search.kt:262 | the chip's tag is removed from the selection and the query kept |
| SearchScreen.TagSearchPanel.OpenFilter | app/src/main/java/com/thriic/itchwatch/ui/nav/explore/Search.kt:254 | the full tag list is requested exactly when it is empty; otherwise nothing changes |
| SearchScreen.TagSearchPanel.Apply | app/src/main/java/com/thriic/itchwatch/ui/nav/explore/Search.kt:233-237 | applying runs the tag search with the selection and the current sort type |
| SearchScreen.BadgeRule | app/src/main/java/com/thriic/itchwatch/ui/nav/explore/Search.kt:474-481 | the badge is the rating under TopRated, the price under TopSellers, and the genre under Popular, NewAPopular and MostRecent |

## Left out

- **Concurrency.** The `channelFlow`, `async` and `buffer` fan-out of the repository is left out, and so is every `viewModelScope.launch`. The model runs the calls one after another. In-flight bounds, completion order and the racy concurrent reassignment of `latestGames` are therefore not modelled.
- **Missing repository declarations.** The view models call `refreshGameBasics(threadCount)` and `addGames(urls, threadCount)`, which are not declared in `GameRepository.kt`. They are modelled as the refresh branch of `getGameBasics` and the sequential `addGames`. The width argument does not change the sequential semantics. The older import view model's AddGame calls `repository.addGame(url)` (`ui/nav/imports/ImportViewModel.kt:61`), which `GameRepository.kt` does not declare either. It is modelled as `addGameByUrl(url)` (`Repository.GameRepository.AddGameByUrl`): one add without blurb, whose outcome is the one result the flow emits.
- **`cleanUrl` import.** `ui/imports/ImportViewModel.kt:11` and `ui/imports/Import.kt:52` import `com.thriic.itchwatch.utils.cleanUrl`, a package that is not part of this model. The only `cleanUrl` in the repository is `String.cleanUrl` in `ui/utils/UrlUtils.kt:17-20`, and the model uses it (`UrlUtils.CleanUrl`) for every call site.
- **Tag search fetch.** `SearchRepository` has no `fetchTagSearch`. The tag search is modelled as the page oracle applied to the tag-search url.
- **HTML parsing.** Ksoup element selection (game pages, search pages, collection pages, `getContentLinks`, the tag selector) is not modelled. The model starts from the extracted strings, labels and records.
- **Network clients.** The network clients and `getDevLog` are I/O. They are function parameters returning success or failure.
- **Collection page oracle.** It is a finite sequence of page results, and pages past its end read as empty. A listing that never ends is therefore not modelled.
- **Persistence libraries.** Room, DataStore, Gson, the `LocalDateTime` converters and the sharing helpers are left out.
  - The DAO rules are the map updates the repository functions perform.
  - `TagDao.insertAll` is taken to replace on conflict.
  - `getAll` lists every stored tag once, in an order the table chooses.
- **Preference flows.** The `userPreferences` flows are modelled as stored values. A view model reads the current value instead of collecting the flow.
- **Date and time.** Date parsing, time zones and the wall-clock functions `formatTime`/`formatTimeDifference` are left out. The timestamp label models only the choice of which time is shown.
- **Floating point.** Progress ratios (`index / size.toFloat()`), rating arithmetic and the `"%.2f"` rating badge are left out. Only the size >= 5 guard, the integer counts and the choice of badge are modelled.
- **`URLEncoder`/`URLDecoder`.** Library calls; the detail route carries the url unencoded.
- **Regular expressions.** Kotlin's regex engine is not modelled. The fixed patterns have hand-written recognisers, and `\s` is ASCII whitespace.
- **Unicode case folding.** Only ASCII letters are folded.
- **`threadCount`.** The preference is decoded with its default, but it has no effect on the sequential model.
- **Logging.** `Log` and `println` output is left out.
- **Error texts.** Failures are a datatype of kinds. Messages are plain strings where the screen shows them.
- **`ClickItem` navigation.** The older library view model's ClickItem only navigates to the detail screen; it is not modelled. The newer one is modelled by the detail state it sets. Import navigation is recorded as a route value.
- **Compose `remember` caching** of derived values in the screens is left out. The model recomputes them on each call.
- **UI composables, navigation, dependency injection, settings and detail view models.** These are plumbing.
- **Thin repository functions.** `GameRepository.Size`, `ExistLocalGame`, `GetLocalInfo` and `SyncGameBasic` carry no contract of their own: each is the table lookup or spec function named in its body. `SyncGameBasic` is covered by `Repository.BasicsOf`, and `GetLocalInfo` by `Repository.LocalInfoOf`.
- LibraryScreen.Visible and the other LibraryScreen members: `ui/nav/library/Library.kt` and its `LibraryState` are written against an older `GameBasic` whose tags are `Tag`s, kept in `Set<Tag>` and compared by data-class equality (display name, url and type). The model applies the filter predicate, tag pool, sections and chip toggle (`LibraryScreen.Visible`, `VisibleMembers`, `AllTagsOf`, `DedupSame*`, `TagPoolIsUnion`, `Sections`, `Select*`, `Deselect*`, `FilterPanel`) to the current `GameBasic`. It compares the current `FilterTag`s by `FilterTag.equals` (display name, type and tag name), so two tags whose urls differ only before the last '/' count as one.
- **Code points.** Strings are sequences of Unicode scalar values. Name comparison and string hashing first convert to UTF-16 code units (`Text.Utf16`), as Kotlin's `String` holds them. The index-based helpers (`indexOf`, `substring`, `trim`, the recognisers) count scalar values, which differs from Kotlin's indices only for characters above U+FFFF; their results as strings are the same.
