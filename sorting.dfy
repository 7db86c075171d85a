/** The library's ordering, shared by both library view models: a comparator built from
    the active sort keys in the fixed priority Starred, Updated, TimeReverse, Name, a
    stable sort by it (`sortedWith` is stable; insertion sort stands in for it), and the
    rule by which a Sort request changes the set of active keys. */
module Sorting {
  import opened Wrappers
  import opened Tags
  import opened Games
  import T = Text

  /** Kotlin's `Boolean.compareTo`: `false` before `true`. */
  function CmpBool(a: bool, b: bool): int {
    if a == b then 0 else if a then 1 else -1
  }

  /** The sign of comparing two timestamps. */
  function CmpNat(a: nat, b: nat): int {
    if a < b then -1 else if a == b then 0 else 1
  }

  /** `getEffectiveTime`: the update time, else the first devlog's date, else the
      publication time, else `LocalDateTime.MIN`. */
  function EffectiveTime(g: GameBasic): nat {
    if g.updatedTime.Some? then g.updatedTime.value
    else if |g.devLogs| > 0 then g.devLogs[0].pubDate
    else g.publishedTime.GetOr(0)
  }

  /** The fallback order of `getEffectiveTime`, case by case. */
  lemma {:induction false} EffectiveTimeCases(g: GameBasic)
    ensures g.updatedTime.Some? ==> EffectiveTime(g) == g.updatedTime.value
    ensures g.updatedTime.None? && |g.devLogs| > 0 ==> EffectiveTime(g) == g.devLogs[0].pubDate
    ensures g.updatedTime.None? && |g.devLogs| == 0 && g.publishedTime.Some? ==> EffectiveTime(g) == g.publishedTime.value
    ensures g.updatedTime.None? && |g.devLogs| == 0 && g.publishedTime.None? ==> EffectiveTime(g) == 0
  {
  }

  /** The `i`-th step of the comparator, 0 when its key is not active. */
  function Step(i: nat, keys: set<SortType>, a: GameBasic, b: GameBasic): int
    requires i < 4
  {
    if i == 0 then (if Starred in keys then CmpBool(b.localInfo.starred, a.localInfo.starred) else 0)
    else if i == 1 then (if Updated in keys then CmpBool(HasUpdate(b), HasUpdate(a)) else 0)
    else if i == 2 then (if TimeReverse in keys then CmpNat(EffectiveTime(b), EffectiveTime(a)) else 0)
    else (if Name in keys then T.Compare(a.name, b.name) else 0)
  }

  /** The steps from `i` on: the first one that is not 0 decides. */
  function CompareFrom(i: nat, keys: set<SortType>, a: GameBasic, b: GameBasic): int
    requires i <= 4
    decreases 4 - i
  {
    if i == 4 then 0
    else if Step(i, keys, a, b) != 0 then Step(i, keys, a, b)
    else CompareFrom(i + 1, keys, a, b)
  }

  /** The comparator of `sort()`. */
  function Compare(keys: set<SortType>, a: GameBasic, b: GameBasic): int {
    CompareFrom(0, keys, a, b)
  }

  lemma {:induction false} StepProperties(i: nat, keys: set<SortType>, a: GameBasic, b: GameBasic, c: GameBasic)
    requires i < 4
    ensures Step(i, keys, a, b) == -Step(i, keys, b, a)
    ensures Step(i, keys, a, b) <= 0 && Step(i, keys, b, c) <= 0 ==> Step(i, keys, a, c) <= 0
    ensures Step(i, keys, a, b) == 0 && Step(i, keys, b, c) == 0 ==> Step(i, keys, a, c) == 0
  {
    if i == 3 && Name in keys {
      T.CompareAntisymmetric(a.name, b.name);
      if T.Compare(a.name, b.name) <= 0 && T.Compare(b.name, c.name) <= 0 {
        T.CompareTransitive(a.name, b.name, c.name);
      }
      T.CompareZeroIff(a.name, b.name);
      T.CompareZeroIff(b.name, c.name);
      T.CompareZeroIff(a.name, c.name);
    }
  }

  lemma {:induction false} CompareFromAntisymmetric(i: nat, keys: set<SortType>, a: GameBasic, b: GameBasic)
    requires i <= 4
    ensures CompareFrom(i, keys, a, b) == -CompareFrom(i, keys, b, a)
    decreases 4 - i
  {
    if i < 4 {
      StepProperties(i, keys, a, b, a);
      CompareFromAntisymmetric(i + 1, keys, a, b);
    }
  }

  lemma {:induction false} CompareFromTransitive(i: nat, keys: set<SortType>, a: GameBasic, b: GameBasic, c: GameBasic)
    requires i <= 4
    requires CompareFrom(i, keys, a, b) <= 0 && CompareFrom(i, keys, b, c) <= 0
    ensures CompareFrom(i, keys, a, c) <= 0
    decreases 4 - i
  {
    if i < 4 {
      StepProperties(i, keys, a, b, c);
      StepProperties(i, keys, b, c, a);
      StepProperties(i, keys, c, a, b);
      if Step(i, keys, a, b) == 0 && Step(i, keys, b, c) == 0 {
        CompareFromTransitive(i + 1, keys, a, b, c);
      }
    }
  }

  /** The comparator is antisymmetric. */
  lemma {:induction false} CompareAntisymmetric(keys: set<SortType>, a: GameBasic, b: GameBasic)
    ensures Compare(keys, a, b) == -Compare(keys, b, a)
  {
    CompareFromAntisymmetric(0, keys, a, b);
  }

  /** The comparator is transitive. */
  lemma {:induction false} CompareTransitive(keys: set<SortType>, a: GameBasic, b: GameBasic, c: GameBasic)
    requires Compare(keys, a, b) <= 0 && Compare(keys, b, c) <= 0
    ensures Compare(keys, a, c) <= 0
  {
    CompareFromTransitive(0, keys, a, b, c);
  }

  /** Two items tie exactly when every active key ties. */
  lemma {:induction false} CompareZeroIff(keys: set<SortType>, a: GameBasic, b: GameBasic)
    ensures Compare(keys, a, b) == 0 <==>
              && (Starred in keys ==> a.localInfo.starred == b.localInfo.starred)
              && (Updated in keys ==> HasUpdate(a) == HasUpdate(b))
              && (TimeReverse in keys ==> EffectiveTime(a) == EffectiveTime(b))
              && (Name in keys ==> a.name == b.name)
  {
    T.CompareZeroIff(a.name, b.name);
  }

  /** A key decides only when every key before it ties; the first key that differs
      decides alone, whatever the later keys say. */
  lemma {:induction false} FirstDifferingKeyDecides(keys: set<SortType>, a: GameBasic, b: GameBasic)
    ensures Starred in keys && a.localInfo.starred != b.localInfo.starred ==>
              Compare(keys, a, b) == CmpBool(b.localInfo.starred, a.localInfo.starred)
    ensures (Starred !in keys || a.localInfo.starred == b.localInfo.starred)
            && Updated in keys && HasUpdate(a) != HasUpdate(b) ==>
              Compare(keys, a, b) == CmpBool(HasUpdate(b), HasUpdate(a))
    ensures (Starred !in keys || a.localInfo.starred == b.localInfo.starred)
            && (Updated !in keys || HasUpdate(a) == HasUpdate(b))
            && TimeReverse in keys && EffectiveTime(a) != EffectiveTime(b) ==>
              Compare(keys, a, b) == CmpNat(EffectiveTime(b), EffectiveTime(a))
    ensures (Starred !in keys || a.localInfo.starred == b.localInfo.starred)
            && (Updated !in keys || HasUpdate(a) == HasUpdate(b))
            && (TimeReverse !in keys || EffectiveTime(a) == EffectiveTime(b)) ==>
              Compare(keys, a, b) == (if Name in keys then T.Compare(a.name, b.name) else 0)
  {
  }

  // ---- the stable sort ----

  function Insert(keys: set<SortType>, x: GameBasic, s: seq<GameBasic>): seq<GameBasic> {
    if s == [] then [x]
    else if Compare(keys, x, s[0]) <= 0 then [x] + s
    else [s[0]] + Insert(keys, x, s[1..])
  }

  /** `sortedWith(comparator)`. */
  function SortItems(keys: set<SortType>, s: seq<GameBasic>): seq<GameBasic> {
    if s == [] then [] else Insert(keys, s[0], SortItems(keys, s[1..]))
  }

  predicate Sorted(keys: set<SortType>, s: seq<GameBasic>) {
    forall i, j :: 0 <= i < j < |s| ==> Compare(keys, s[i], s[j]) <= 0
  }

  /** The elements of `s` that tie with `z`, in their order in `s`. */
  function Ties(keys: set<SortType>, s: seq<GameBasic>, z: GameBasic): seq<GameBasic> {
    if s == [] then []
    else (if Compare(keys, z, s[0]) == 0 then [s[0]] else []) + Ties(keys, s[1..], z)
  }

  lemma {:induction false} InsertPermutes(keys: set<SortType>, x: GameBasic, s: seq<GameBasic>)
    ensures multiset(Insert(keys, x, s)) == multiset(s) + multiset{x}
  {
    if s != [] && Compare(keys, x, s[0]) > 0 {
      InsertPermutes(keys, x, s[1..]);
      assert s == [s[0]] + s[1..];
    }
  }

  /** The sort returns a permutation of the items. */
  lemma {:induction false} SortPermutes(keys: set<SortType>, s: seq<GameBasic>)
    ensures multiset(SortItems(keys, s)) == multiset(s)
  {
    if s != [] {
      SortPermutes(keys, s[1..]);
      InsertPermutes(keys, s[0], SortItems(keys, s[1..]));
      assert s == [s[0]] + s[1..];
    }
  }

  lemma {:induction false} InsertSorted(keys: set<SortType>, x: GameBasic, s: seq<GameBasic>)
    requires Sorted(keys, s)
    ensures Sorted(keys, Insert(keys, x, s))
  {
    if s == [] {
    } else if Compare(keys, x, s[0]) <= 0 {
      forall j | 0 <= j < |s|
        ensures Compare(keys, x, s[j]) <= 0
      {
        if j > 0 {
          CompareTransitive(keys, x, s[0], s[j]);
        }
      }
      ConsSorted(keys, x, s);
    } else {
      CompareAntisymmetric(keys, x, s[0]);
      InsertSorted(keys, x, s[1..]);
      InsertPermutes(keys, x, s[1..]);
      var r := Insert(keys, x, s[1..]);
      LowerBoundPermuted(keys, s[0], s[1..], x, r);
      ConsSorted(keys, s[0], r);
      assert Insert(keys, x, s) == [s[0]] + r;
    }
  }

  /** A sorted list behind an item no greater than any of its elements stays sorted. */
  lemma {:induction false} ConsSorted(keys: set<SortType>, y: GameBasic, r: seq<GameBasic>)
    requires Sorted(keys, r)
    requires forall j :: 0 <= j < |r| ==> Compare(keys, y, r[j]) <= 0
    ensures Sorted(keys, [y] + r)
  {
    var t := [y] + r;
    forall i, j | 0 <= i < j < |t|
      ensures Compare(keys, t[i], t[j]) <= 0
    {
      assert t[j] == r[j - 1];
      if i > 0 {
        assert t[i] == r[i - 1];
      }
    }
  }

  /** A lower bound of `s` and `x` bounds every element of a permutation of `s + [x]`. */
  lemma {:induction false} LowerBoundPermuted(keys: set<SortType>, y: GameBasic, s: seq<GameBasic>, x: GameBasic, r: seq<GameBasic>)
    requires Sorted(keys, [y] + s) && Compare(keys, y, x) <= 0
    requires multiset(r) == multiset(s) + multiset{x}
    ensures forall j :: 0 <= j < |r| ==> Compare(keys, y, r[j]) <= 0
  {
    var t := [y] + s;
    forall j | 0 <= j < |r|
      ensures Compare(keys, y, r[j]) <= 0
    {
      assert r[j] in multiset(r);
      if r[j] != x {
        assert r[j] in multiset(s);
        var k :| 0 <= k < |s| && s[k] == r[j];
        assert t[0] == y && t[k + 1] == r[j];
        assert Compare(keys, t[0], t[k + 1]) <= 0;
      }
    }
  }

  /** The sort returns its items in comparator order. */
  lemma {:induction false} SortSorted(keys: set<SortType>, s: seq<GameBasic>)
    ensures Sorted(keys, SortItems(keys, s))
  {
    if s != [] {
      SortSorted(keys, s[1..]);
      InsertSorted(keys, s[0], SortItems(keys, s[1..]));
    }
  }

  /** Items that tie with a third tie with each other. */
  lemma {:induction false} TieTransitive(keys: set<SortType>, z: GameBasic, x: GameBasic, y: GameBasic)
    requires Compare(keys, z, x) == 0 && Compare(keys, z, y) == 0
    ensures Compare(keys, x, y) == 0
  {
    CompareAntisymmetric(keys, z, x);
    CompareAntisymmetric(keys, z, y);
    CompareAntisymmetric(keys, x, y);
    CompareTransitive(keys, x, z, y);
    CompareTransitive(keys, y, z, x);
  }

  /** Inserting `x` puts it before every item that ties with it. */
  lemma {:induction false} InsertTies(keys: set<SortType>, x: GameBasic, s: seq<GameBasic>, z: GameBasic)
    ensures Ties(keys, Insert(keys, x, s), z) ==
            (if Compare(keys, z, x) == 0 then [x] else []) + Ties(keys, s, z)
  {
    if s == [] {
    } else if Compare(keys, x, s[0]) <= 0 {
      assert ([x] + s)[1..] == s;
    } else {
      InsertTies(keys, x, s[1..], z);
      if Compare(keys, z, x) == 0 && Compare(keys, z, s[0]) == 0 {
        TieTransitive(keys, z, x, s[0]);
      }
      assert ([s[0]] + Insert(keys, x, s[1..]))[1..] == Insert(keys, x, s[1..]);
    }
  }

  /** The sort is stable: the items that tie with any given item keep their order. */
  lemma {:induction false} SortStable(keys: set<SortType>, s: seq<GameBasic>, z: GameBasic)
    ensures Ties(keys, SortItems(keys, s), z) == Ties(keys, s, z)
  {
    if s != [] {
      SortStable(keys, s[1..], z);
      InsertTies(keys, s[0], SortItems(keys, s[1..]), z);
    }
  }

  /** A list already in comparator order is left as it is. */
  lemma {:induction false} SortedIsFixed(keys: set<SortType>, s: seq<GameBasic>)
    requires Sorted(keys, s)
    ensures SortItems(keys, s) == s
  {
    if s != [] {
      assert Sorted(keys, s[1..]) by {
        forall i, j | 0 <= i < j < |s[1..]|
          ensures Compare(keys, s[1..][i], s[1..][j]) <= 0
        {
          assert s[1..][i] == s[i + 1] && s[1..][j] == s[j + 1];
        }
      }
      SortedIsFixed(keys, s[1..]);
      if |s| > 1 {
        assert Compare(keys, s[0], s[1]) <= 0;
      }
      assert s == [s[0]] + s[1..];
    }
  }

  /** Sorting twice by the same keys is sorting once. */
  lemma {:induction false} SortIdempotent(keys: set<SortType>, s: seq<GameBasic>)
    ensures SortItems(keys, SortItems(keys, s)) == SortItems(keys, s)
  {
    SortSorted(keys, s);
    SortedIsFixed(keys, SortItems(keys, s));
  }

  /** With no active key the order is left as it is. */
  lemma {:induction false} NoKeysKeepOrder(s: seq<GameBasic>)
    ensures SortItems({}, s) == s
  {
    if s != [] {
      NoKeysKeepOrder(s[1..]);
      if s[1..] != [] {
        assert Compare({}, s[0], s[1]) == 0;
      }
    }
  }

  /** With Starred active, no unstarred item comes before a starred one. */
  lemma {:induction false} StarredFirst(keys: set<SortType>, s: seq<GameBasic>, i: nat, j: nat)
    requires Starred in keys
    requires i < j < |SortItems(keys, s)|
    requires SortItems(keys, s)[j].localInfo.starred
    ensures SortItems(keys, s)[i].localInfo.starred
  {
    SortSorted(keys, s);
    assert Compare(keys, SortItems(keys, s)[i], SortItems(keys, s)[j]) <= 0;
  }

  /** With TimeReverse alone, effective times do not increase along the sorted items. */
  lemma {:induction false} TimeReverseDescending(s: seq<GameBasic>, i: nat, j: nat)
    requires i < j < |SortItems({TimeReverse}, s)|
    ensures EffectiveTime(SortItems({TimeReverse}, s)[i]) >= EffectiveTime(SortItems({TimeReverse}, s)[j])
  {
    SortSorted({TimeReverse}, s);
    assert Compare({TimeReverse}, SortItems({TimeReverse}, s)[i], SortItems({TimeReverse}, s)[j]) <= 0;
  }

  /** With Name alone, names ascend in `String.compareTo` order. */
  lemma {:induction false} NameAscending(s: seq<GameBasic>, i: nat, j: nat)
    requires i < j < |SortItems({Name}, s)|
    ensures T.Compare(SortItems({Name}, s)[i].name, SortItems({Name}, s)[j].name) <= 0
  {
    SortSorted({Name}, s);
    assert Compare({Name}, SortItems({Name}, s)[i], SortItems({Name}, s)[j]) <= 0;
  }

  // ---- the sort-key set ----

  /** The Sort request on the set of active keys: TimeReverse and Name replace each
      other, every other key is switched on or off. */
  function ToggleSort(keys: set<SortType>, t: SortType): (r: set<SortType>)
    ensures t == TimeReverse ==> r == keys - {Name} + {TimeReverse}
    ensures t == Name ==> r == keys - {TimeReverse} + {Name}
    ensures t != TimeReverse && t != Name ==> (t in r <==> t !in keys) && r - {t} == keys - {t}
  {
    if t == TimeReverse then keys - {Name} + {TimeReverse}
    else if t == Name then keys - {TimeReverse} + {Name}
    else if t in keys then keys - {t}
    else keys + {t}
  }

  /** Switching any other key twice restores the set. */
  lemma {:induction false} ToggleTwice(keys: set<SortType>, t: SortType)
    requires t != TimeReverse && t != Name
    ensures ToggleSort(ToggleSort(keys, t), t) == keys
  {
  }

  /** Asking for Name or TimeReverse again changes nothing. */
  lemma {:induction false} ToggleExclusiveIdempotent(keys: set<SortType>, t: SortType)
    requires t == TimeReverse || t == Name
    ensures ToggleSort(ToggleSort(keys, t), t) == ToggleSort(keys, t)
  {
  }

  /** Name and TimeReverse are never both active once either was requested, and stay
      that way. */
  lemma {:induction false} NameAndTimeReverseExclusive(keys: set<SortType>, t: SortType)
    requires !(Name in keys && TimeReverse in keys) || t == Name || t == TimeReverse
    ensures !(Name in ToggleSort(keys, t) && TimeReverse in ToggleSort(keys, t))
  {
  }
}
