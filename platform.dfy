/** The platform enum and the ordered keyword table `platformMap` used to recognise
    platforms in download blocks, info rows and search cells. */
module Platforms {
  import opened Wrappers
  import opened Text

  datatype Platform = Windows | Linux | MacOS | IOS | Android | Web | Unknown

  /** `platformMap`, in its declaration order: a key found in a piece of text names the
      platform. Both "browser" and "HTML" name `Web`. */
  const PlatformMap: seq<(string, Platform)> := [
    ("Windows", Windows),
    ("Linux", Linux),
    ("macOS", MacOS),
    ("iOS", IOS),
    ("Android", Android),
    ("browser", Web),
    ("HTML", Web)
  ]

  /** The entry `e` has a key that occurs in `text`, ignoring case. */
  predicate KeyIn(e: (string, Platform), text: string) {
    ContainsIgnoreCase(text, e.0)
  }

  /** The platforms of all entries of `entries` whose key occurs in `text`, in entry order. */
  function Matching(entries: seq<(string, Platform)>, text: string): (r: seq<Platform>)
    ensures |r| <= |entries|
  {
    if entries == [] then []
    else (if KeyIn(entries[0], text) then [entries[0].1] else []) + Matching(entries[1..], text)
  }

  /** A platform is matched exactly when one of the entries naming it has its key in `text`. */
  lemma {:induction false} MatchingMembers(entries: seq<(string, Platform)>, text: string, p: Platform)
    ensures p in Matching(entries, text) <==>
            exists i :: 0 <= i < |entries| && entries[i].1 == p && KeyIn(entries[i], text)
  {
    if entries != [] {
      MatchingMembers(entries[1..], text, p);
      if p in Matching(entries[1..], text) {
        var i :| 0 <= i < |entries[1..]| && entries[1..][i].1 == p && KeyIn(entries[1..][i], text);
        assert entries[i + 1] == entries[1..][i];
      }
      forall i | 0 < i < |entries| && entries[i].1 == p && KeyIn(entries[i], text)
        ensures p in Matching(entries[1..], text)
      {
        assert entries[1..][i - 1] == entries[i];
      }
    }
  }

  /** The first entry whose key occurs in `text`, and that no earlier entry matches. */
  lemma {:induction false} MatchingHead(entries: seq<(string, Platform)>, text: string)
    ensures Matching(entries, text) != [] ==>
            exists i :: 0 <= i < |entries| && KeyIn(entries[i], text)
                        && Matching(entries, text)[0] == entries[i].1
                        && forall j :: 0 <= j < i ==> !KeyIn(entries[j], text)
  {
    if entries != [] && !KeyIn(entries[0], text) {
      MatchingHead(entries[1..], text);
      if Matching(entries[1..], text) != [] {
        var i :| 0 <= i < |entries[1..]| && KeyIn(entries[1..][i], text)
                 && Matching(entries[1..], text)[0] == entries[1..][i].1
                 && forall j :: 0 <= j < i ==> !KeyIn(entries[1..][j], text);
        assert entries[i + 1] == entries[1..][i];
        forall j | 0 <= j < i + 1
          ensures !KeyIn(entries[j], text)
        {
          if j > 0 {
            assert entries[j] == entries[1..][j - 1];
          }
        }
      }
    } else if entries != [] {
      assert KeyIn(entries[0], text) && Matching(entries, text)[0] == entries[0].1;
    }
  }

  /** `platformMap.entries.firstOrNull { text.contains(key, ignoreCase = true) }?.value`. */
  function FirstPlatformIn(text: string): (r: Option<Platform>)
    ensures r.Some? <==> exists i :: 0 <= i < |PlatformMap| && KeyIn(PlatformMap[i], text)
    ensures r.Some? ==> exists i :: 0 <= i < |PlatformMap| && KeyIn(PlatformMap[i], text)
                                    && r.value == PlatformMap[i].1
                                    && forall j :: 0 <= j < i ==> !KeyIn(PlatformMap[j], text)
    ensures r != Some(Unknown)
  {
    MatchingHead(PlatformMap, text);
    var m := Matching(PlatformMap, text);
    if m == [] then
      assert forall i :: 0 <= i < |PlatformMap| && KeyIn(PlatformMap[i], text) ==> PlatformMap[i].1 in m
        by {
          forall i | 0 <= i < |PlatformMap| && KeyIn(PlatformMap[i], text)
            ensures PlatformMap[i].1 in m
          {
            MatchingMembers(PlatformMap, text, PlatformMap[i].1);
          }
        }
      None
    else
      Some(m[0])
  }
}
